/** The grid walk of `cast_column`: from the player's cell, step one cell at a
    time along whichever axis reaches its next grid line first, until a wall
    cell is entered. */
module Dda {
  import opened Numeric
  import opened Geometry
  import opened Grid

  /** The C code's `1e30f`: the crossing length used for a ray component that is
      exactly zero, so that axis effectively never advances. */
  const FAR: real := 1000000000000000000000000000000.0

  /** `delta_x` / `delta_y`: the ray length that crosses one whole cell on an axis. */
  function Delta(r: real): (d: real)
    ensures 0.0 < d
    ensures r != 0.0 ==> d * r == 1.0 || d * r == -1.0
    ensures r == 0.0 ==> d == FAR
  {
    if r == 0.0 then FAR else if r < 0.0 then -1.0 / r else 1.0 / r
  }

  /** `step_x` / `step_y`: the direction in which the walk moves on an axis. */
  function StepDir(r: real): (s: int)
    ensures s == 1 || s == -1
    ensures s == -1 <==> r < 0.0
  {
    if r < 0.0 then -1 else 1
  }

  /** The per-ray constants of the walk. */
  datatype RaySetup = RaySetup(stepX: int, stepY: int, deltaX: real, deltaY: real)
  {
    predicate Valid()
    {
      && (stepX == 1 || stepX == -1) && (stepY == 1 || stepY == -1)
      && 0.0 < deltaX && 0.0 < deltaY
    }
  }

  /** The walk's variables: current cell, accumulated ray length to the next
      vertical (`sideX`) and horizontal (`sideY`) grid line, and the axis of
      the last move (0: x moved, a vertical face; 1: y moved, a horizontal face). */
  datatype DdaState = DdaState(mapX: int, mapY: int, sideX: real, sideY: real, hitSide: int)

  function Setup(rd: Vec): (rs: RaySetup)
    ensures rs.Valid()
    ensures rs.stepX == StepDir(rd.x) && rs.stepY == StepDir(rd.y)
    ensures rs.deltaX == Delta(rd.x) && rs.deltaY == Delta(rd.y)
  {
    RaySetup(StepDir(rd.x), StepDir(rd.y), Delta(rd.x), Delta(rd.y))
  }

  /** Ray length from a coordinate `p` in cell `m` to the first grid line in the
      ray's direction. For a non-negative `p` the truncated cell contains `p`,
      and the length is at most one crossing. */
  function FirstSide(p: real, m: int, r: real): (side: real)
    ensures 0.0 <= p && m == Trunc(p) ==> 0.0 <= side <= Delta(r)
  {
    var d := Delta(r);
    if r < 0.0 then
      (p - m as real) * d
    else
      (m as real + 1.0 - p) * d
  }

  /** The state before the first move: the truncated player cell, and the
      distances to the first grid lines. The C cast truncates toward zero, so
      for a coordinate in (-1, 0) the cell is 0 and the first distance may be
      negative or exceed one crossing; the walk runs on it all the same. */
  function Start(pos: Vec, rd: Vec): (s: DdaState)
    ensures s.mapX == Trunc(pos.x) && s.mapY == Trunc(pos.y) && s.hitSide == 0
    ensures 0.0 <= pos.x ==> 0.0 <= s.sideX <= Delta(rd.x)
    ensures 0.0 <= pos.y ==> 0.0 <= s.sideY <= Delta(rd.y)
  {
    DdaState(Trunc(pos.x), Trunc(pos.y),
             FirstSide(pos.x, Trunc(pos.x), rd.x), FirstSide(pos.y, Trunc(pos.y), rd.y), 0)
  }

  /** One iteration of the loop: exactly one coordinate moves, by its step, and
      `hitSide` records which. The comparison is strict, so a tie moves y. */
  function Step(rs: RaySetup, s: DdaState): (t: DdaState)
    ensures s.sideX < s.sideY ==>
      t == DdaState(s.mapX + rs.stepX, s.mapY, s.sideX + rs.deltaX, s.sideY, 0)
    ensures s.sideY <= s.sideX ==>
      t == DdaState(s.mapX, s.mapY + rs.stepY, s.sideX, s.sideY + rs.deltaY, 1)
  {
    if s.sideX < s.sideY then
      DdaState(s.mapX + rs.stepX, s.mapY, s.sideX + rs.deltaX, s.sideY, 0)
    else
      DdaState(s.mapX, s.mapY + rs.stepY, s.sideX, s.sideY + rs.deltaY, 1)
  }

  /** The state after `n` iterations. */
  function StepN(rs: RaySetup, s: DdaState, n: nat): DdaState
  {
    if n == 0 then s else Step(rs, StepN(rs, s, n - 1))
  }

  /** After `n` iterations the walk stands on a wall and stood on no wall before. */
  predicate IsFirstWall(m: TileMap, rs: RaySetup, s0: DdaState, n: nat)
    requires m.Rectangular()
  {
    && IsWall(m, StepN(rs, s0, n).mapX, StepN(rs, s0, n).mapY)
    && forall k :: 0 <= k < n ==> !IsWall(m, StepN(rs, s0, k).mapX, StepN(rs, s0, k).mapY)
  }

  /** The first wall on a walk is unique, so the walk's result is determined. */
  lemma FirstWallUnique(m: TileMap, rs: RaySetup, s0: DdaState, n1: nat, n2: nat)
    requires m.Rectangular()
    requires IsFirstWall(m, rs, s0, n1) && IsFirstWall(m, rs, s0, n2)
    ensures n1 == n2
  {
  }

  /** What `n` iterations amount to: `nx` moves on x and `ny` on y, each in its
      step direction, and `hitSide` naming the axis of the last move. */
  lemma {:induction false} StepNMoves(rs: RaySetup, s0: DdaState, n: nat)
    requires rs.Valid()
    ensures var s := StepN(rs, s0, n);
      var nx := Moves(rs.stepX, s0.mapX, s.mapX);
      var ny := Moves(rs.stepY, s0.mapY, s.mapY);
      && 0 <= nx && 0 <= ny && nx + ny == n
      && (0 < n && s.hitSide == 0 ==> 0 < nx)
      && (0 < n && s.hitSide == 1 ==> 0 < ny)
      && (0 < n ==> s.hitSide == 0 || s.hitSide == 1)
      && (0 < n ==> (s.hitSide == 0 <==> s.mapX != StepN(rs, s0, n - 1).mapX))
      && (0 < n ==> (s.hitSide == 1 <==> s.mapY != StepN(rs, s0, n - 1).mapY))
      && (n == 0 ==> s == s0)
  {
    if n != 0 {
      StepNMoves(rs, s0, n - 1);
      var p := StepN(rs, s0, n - 1);
      var s := StepN(rs, s0, n);
      assert s == Step(rs, p);
      if p.sideX < p.sideY {
        assert Moves(rs.stepX, s0.mapX, s.mapX) == Moves(rs.stepX, s0.mapX, p.mapX) + 1;
        assert s.mapY == p.mapY && s.hitSide == 0;
      } else {
        assert Moves(rs.stepY, s0.mapY, s.mapY) == Moves(rs.stepY, s0.mapY, p.mapY) + 1;
        assert s.mapX == p.mapX && s.hitSide == 1;
      }
    }
  }

  /** Each side distance grows by one crossing length per move on its axis. */
  lemma {:induction false} StepNSideX(rs: RaySetup, s0: DdaState, n: nat)
    requires rs.Valid()
    ensures StepN(rs, s0, n).sideX == s0.sideX + Times(Moves(rs.stepX, s0.mapX, StepN(rs, s0, n).mapX), rs.deltaX)
  {
    if n != 0 {
      StepNSideX(rs, s0, n - 1);
      var p := StepN(rs, s0, n - 1);
      var px := Moves(rs.stepX, s0.mapX, p.mapX);
      if p.sideX < p.sideY {
        assert Times(px + 1, rs.deltaX) == Times(px, rs.deltaX) + rs.deltaX;
      }
    }
  }

  lemma {:induction false} StepNSideY(rs: RaySetup, s0: DdaState, n: nat)
    requires rs.Valid()
    ensures StepN(rs, s0, n).sideY == s0.sideY + Times(Moves(rs.stepY, s0.mapY, StepN(rs, s0, n).mapY), rs.deltaY)
  {
    if n != 0 {
      StepNSideY(rs, s0, n - 1);
      var p := StepN(rs, s0, n - 1);
      var py := Moves(rs.stepY, s0.mapY, p.mapY);
      if p.sideY <= p.sideX {
        assert Times(py + 1, rs.deltaY) == Times(py, rs.deltaY) + rs.deltaY;
      }
    }
  }

  /** `k` crossings of length `d`. */
  function Times(k: int, d: real): real
  {
    (k as real) * d
  }

  lemma TimesSucc(k: int, d: real)
    ensures Times(k + 1, d) == Times(k, d) + d
  {
  }

  lemma TimesStrict(a: int, b: int, d: real)
    requires a < b && 0.0 < d
    ensures Times(a, d) < Times(b, d)
  {
    assert Times(b, d) - Times(a, d) == ((b - a) as real) * d;
  }

  lemma TimesNonNeg(k: int, d: real)
    requires 0 <= k && 0.0 <= d
    ensures 0.0 <= Times(k, d)
  {
  }

  /** The number of moves from coordinate `a` to `b` in direction `step`. */
  function Moves(step: int, a: int, b: int): int
  {
    if step == 1 then b - a else a - b
  }

  /** Cells left to cross, in each step direction, before leaving the map. */
  function Reach(m: TileMap, rs: RaySetup, s: DdaState): int
  {
    (if rs.stepX == 1 then m.w - s.mapX else s.mapX + 1)
    + (if rs.stepY == 1 then m.h - s.mapY else s.mapY + 1)
  }

  /** The DDA loop of `cast_column`. It stops on the first wall of the walk. From
      an on-map cell it stops within `w + h - 1` moves, because every move gets
      one cell closer to the map edge in its step direction and off-map cells
      are walls. A ray whose x crossings are at least `w + h` y crossings beyond
      its y crossings never moves on x, and symmetrically for y, except that
      ties move y. A zero ray component, with its `1e30` sentinel, is held
      this way only when the position is not within about `(w + h) / 1e30`
      of a grid line on the other axis. */
  method Walk(m: TileMap, rs: RaySetup, s0: DdaState) returns (s: DdaState, steps: nat)
    requires m.Rectangular() && rs.Valid()
    ensures s == StepN(rs, s0, steps)
    ensures IsFirstWall(m, rs, s0, steps)
    ensures m.InBounds(s0.mapX, s0.mapY) ==> steps < m.w + m.h
    ensures !m.InBounds(s0.mapX, s0.mapY) ==> steps == 0 && s == s0
    ensures s0.sideY + Times(m.w + m.h, rs.deltaY) <= s0.sideX ==> s.mapX == s0.mapX
    ensures s0.sideX + Times(m.w + m.h, rs.deltaX) < s0.sideY ==> s.mapY == s0.mapY
  {
    var bound := m.w + m.h;
    var xFixed := s0.sideY + Times(bound, rs.deltaY) <= s0.sideX;
    var yFixed := s0.sideX + Times(bound, rs.deltaX) < s0.sideY;
    s := s0;
    steps := 0;
    while !IsWall(m, s.mapX, s.mapY)
      invariant s == StepN(rs, s0, steps)
      invariant forall k :: 0 <= k < steps ==> !IsWall(m, StepN(rs, s0, k).mapX, StepN(rs, s0, k).mapY)
      invariant 0 < steps ==> m.InBounds(s0.mapX, s0.mapY)
      invariant m.InBounds(s0.mapX, s0.mapY) ==>
        Reach(m, rs, s0) <= bound && steps + Reach(m, rs, s) == Reach(m, rs, s0) && 1 <= Reach(m, rs, s)
      invariant xFixed ==>
        s.mapX == s0.mapX && s.sideX == s0.sideX && s.sideY <= s0.sideY + Times(steps, rs.deltaY)
      invariant yFixed ==>
        s.mapY == s0.mapY && s.sideY == s0.sideY && s.sideX <= s0.sideX + Times(steps, rs.deltaX)
      decreases Reach(m, rs, s)
    {
      assert steps < bound;
      TimesStrict(steps, bound, rs.deltaY);
      TimesStrict(steps, bound, rs.deltaX);
      TimesSucc(steps, rs.deltaY);
      TimesSucc(steps, rs.deltaX);
      s := Step(rs, s);
      steps := steps + 1;
    }
  }

  /** Real-number division where the C code would divide a float by `0.0f`
      (giving an infinity or NaN): the model yields 0. */
  function Quot(a: real, b: real): real
  {
    if b == 0.0 then 0.0 else a / b
  }

  /** `perp_dist`: the distance to the hit face measured along the view
      direction, from the hit cell's coordinate on the axis that moved last. */
  function PerpDistance(pos: Vec, rd: Vec, rs: RaySetup, s: DdaState): (d: real)
    requires rs.Valid()
    ensures s.hitSide == 0 && rd.x != 0.0 ==> pos.x + d * rd.x == NearLine(s.mapX, rs.stepX) as real
    ensures s.hitSide != 0 && rd.y != 0.0 ==> pos.y + d * rd.y == NearLine(s.mapY, rs.stepY) as real
  {
    ReachLine(pos.x, rd.x, NearLine(s.mapX, rs.stepX));
    ReachLine(pos.y, rd.y, NearLine(s.mapY, rs.stepY));
    if s.hitSide == 0 then Quot(s.mapX as real - pos.x + ((1 - rs.stepX) as real) * 0.5, rd.x)
    else Quot(s.mapY as real - pos.y + ((1 - rs.stepY) as real) * 0.5, rd.y)
  }

  /** The grid line bounding cell `m` on the side a ray with step `step`
      enters it from: its low edge going +1, its high edge going -1. */
  function NearLine(m: int, step: int): int
  {
    if step == 1 then m else m + 1
  }

  /** Going `(line - p) / r` along a ray component `r` from `p` reaches `line`. */
  lemma ReachLine(p: real, r: real, line: int)
    ensures r != 0.0 ==> p + Quot(line as real - p, r) * r == line as real
  {
  }

  /** The accumulator algebra for a ray moving toward +x (or +y): `k + 1`
      moves from cell `m0` reach cell `m0 + k + 1`. */
  lemma BackForward(p: real, m0: int, r: real, k: int)
    requires 0.0 < r
    ensures (m0 as real + 1.0 - p) * (1.0 / r) + Times(k, 1.0 / r) == ((m0 + k + 1) as real - p) / r
  {
    var a := m0 as real + 1.0 - p;
    assert a * (1.0 / r) + (k as real) * (1.0 / r) == (a + k as real) * (1.0 / r);
    assert (a + k as real) * (1.0 / r) == (a + k as real) / r;
  }

  /** The same toward -x (or -y): `k + 1` moves reach cell `m0 - k - 1`. */
  lemma BackBackward(p: real, m0: int, r: real, k: int)
    requires r < 0.0
    ensures (p - m0 as real) * (-1.0 / r) + Times(k, -1.0 / r) == ((m0 - k - 1) as real - p + 1.0) / r
  {
    var a := p - m0 as real;
    assert a * (-1.0 / r) + (k as real) * (-1.0 / r) == (a + k as real) * (-1.0 / r);
    assert (a + k as real) * (-1.0 / r) == -(a + k as real) / r;
  }

  /** The closed form of `perp_dist` for `k + 1` moves on one axis, from cell
      `m0` at coordinate `p`, is the first crossing length plus `k` more. */
  lemma AccumulatorBack(p: real, m0: int, r: real, k: int)
    requires r != 0.0
    ensures var e := m0 + StepDir(r) * (k + 1);
      Quot(e as real - p + ((1 - StepDir(r)) as real) * 0.5, r) == FirstSide(p, m0, r) + Times(k, Delta(r))
  {
    if r < 0.0 {
      BackBackward(p, m0, r, k);
    } else {
      BackForward(p, m0, r, k);
    }
  }

  /** The closed-form `perp_dist` for a face crossed on x equals the walk's own
      x accumulator taken back by one crossing, the value it had when the last
      move was chosen. For a non-negative coordinate it is therefore never
      negative; for one in (-1, 0), where the truncated cell does not contain
      the player, it can be. */
  lemma PerpIsAccumulatorX(pos: Vec, rd: Vec, n: nat)
    requires rd.x != 0.0
    requires 0 < n && StepN(Setup(rd), Start(pos, rd), n).hitSide == 0
    ensures var s := StepN(Setup(rd), Start(pos, rd), n);
      && PerpDistance(pos, rd, Setup(rd), s) == s.sideX - Setup(rd).deltaX
      && (0.0 <= pos.x ==> 0.0 <= PerpDistance(pos, rd, Setup(rd), s))
  {
    var rs := Setup(rd);
    var s0 := Start(pos, rd);
    var s := StepN(rs, s0, n);
    StepNMoves(rs, s0, n);
    StepNSideX(rs, s0, n);
    var k := Moves(rs.stepX, s0.mapX, s.mapX) - 1;
    assert s.mapX == s0.mapX + rs.stepX * (k + 1);
    TimesSucc(k, rs.deltaX);
    TimesNonNeg(k, rs.deltaX);
    AccumulatorBack(pos.x, s0.mapX, rd.x, k);
  }

  /** The same for a face crossed on y. */
  lemma PerpIsAccumulatorY(pos: Vec, rd: Vec, n: nat)
    requires rd.y != 0.0
    requires 0 < n && StepN(Setup(rd), Start(pos, rd), n).hitSide == 1
    ensures var s := StepN(Setup(rd), Start(pos, rd), n);
      && PerpDistance(pos, rd, Setup(rd), s) == s.sideY - Setup(rd).deltaY
      && (0.0 <= pos.y ==> 0.0 <= PerpDistance(pos, rd, Setup(rd), s))
  {
    var rs := Setup(rd);
    var s0 := Start(pos, rd);
    var s := StepN(rs, s0, n);
    StepNMoves(rs, s0, n);
    StepNSideY(rs, s0, n);
    var k := Moves(rs.stepY, s0.mapY, s.mapY) - 1;
    assert s.mapY == s0.mapY + rs.stepY * (k + 1);
    TimesSucc(k, rs.deltaY);
    TimesNonNeg(k, rs.deltaY);
    AccumulatorBack(pos.y, s0.mapY, rd.y, k);
  }

  /** `wall_x`: where along the hit face the ray lands, as a fraction of a cell. */
  function WallX(pos: Vec, rd: Vec, rs: RaySetup, s: DdaState): (f: real)
    requires rs.Valid()
    ensures 0.0 <= f < 1.0
  {
    var perp := PerpDistance(pos, rd, rs, s);
    var along := if s.hitSide == 0 then pos.y + perp * rd.y else pos.x + perp * rd.x;
    along - along.Floor as real
  }
}
