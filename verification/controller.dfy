/** The player and the per-frame update of `move_and_rotate`: axis-separated
    movement with wall collision, and the choice of turn from the arrow keys. */
module Controller {
  import opened Numeric
  import opened Geometry
  import opened Grid

  /** The held keys, as `key_press` / `key_release` leave them. */
  datatype Keys = Keys(w: bool, a: bool, s: bool, d: bool, left: bool, right: bool)

  /** Position, view direction and camera plane. */
  datatype Player = Player(pos: Vec, dir: Vec, plane: Vec)

  /** The player's own cell, the one its coordinates truncate to, is open. */
  predicate Standing(m: TileMap, pos: Vec)
    requires m.Rectangular()
  {
    !IsWall(m, Trunc(pos.x), Trunc(pos.y))
  }

  /** One movement block: the x coordinate goes to `target.x` unless the cell
      (new x, old y) is a wall; then the y coordinate goes to `target.y` unless
      the cell (current x, new y) is a wall. Each rejected axis keeps its old
      value, so a blocked move slides along the wall. */
  function TryMove(m: TileMap, pos: Vec, target: Vec): (q: Vec)
    requires m.Rectangular()
    ensures Standing(m, pos) ==> Standing(m, q)
    ensures q.x == (if IsWall(m, Trunc(target.x), Trunc(pos.y)) then pos.x else target.x)
    ensures q.y == (if IsWall(m, Trunc(q.x), Trunc(target.y)) then pos.y else target.y)
  {
    var x := if !IsWall(m, Trunc(target.x), Trunc(pos.y)) then target.x else pos.x;
    var y := if !IsWall(m, Trunc(x), Trunc(target.y)) then target.y else pos.y;
    Vec(x, y)
  }

  /** When the target cell and both cells on the way are open the move is
      taken in full. */
  lemma OpenMoveArrives(m: TileMap, pos: Vec, target: Vec)
    requires m.Rectangular()
    requires !IsWall(m, Trunc(target.x), Trunc(pos.y)) && !IsWall(m, Trunc(target.x), Trunc(target.y))
    ensures TryMove(m, pos, target) == target
  {
  }

  /** A move into a wall on both axes leaves the player where it was. */
  lemma BlockedMoveStays(m: TileMap, pos: Vec, target: Vec)
    requires m.Rectangular()
    requires IsWall(m, Trunc(target.x), Trunc(pos.y)) && IsWall(m, Trunc(pos.x), Trunc(target.y))
    ensures TryMove(m, pos, target) == pos
  {
  }

  /** The four movement blocks in source order: W adds `dir * speed`, S
      subtracts it, A subtracts `right * speed` and D adds it, where `right`
      is `RightOf(dir)`. Each block starts from
      the position the previous one left. */
  function Move(m: TileMap, p: Player, keys: Keys, speed: real): (q: Player)
    requires m.Rectangular()
    ensures q.dir == p.dir && q.plane == p.plane
    ensures Standing(m, p.pos) ==> Standing(m, q.pos)
    ensures !keys.w && !keys.s && !keys.a && !keys.d ==> q == p
  {
    var forward := p.dir;
    var right := RightOf(p.dir);
    var p1 := if keys.w then TryMove(m, p.pos, Add(p.pos, Scale(forward, speed))) else p.pos;
    var p2 := if keys.s then TryMove(m, p1, Sub(p1, Scale(forward, speed))) else p1;
    var p3 := if keys.a then TryMove(m, p2, Sub(p2, Scale(right, speed))) else p2;
    var p4 := if keys.d then TryMove(m, p3, Add(p3, Scale(right, speed))) else p3;
    p.(pos := p4)
  }

  /** Where a lone W press lands in open space: one `speed` along `dir`. */
  lemma ForwardInOpen(m: TileMap, p: Player, speed: real)
    requires m.Rectangular()
    requires var t := Add(p.pos, Scale(p.dir, speed));
      !IsWall(m, Trunc(t.x), Trunc(p.pos.y)) && !IsWall(m, Trunc(t.x), Trunc(t.y))
    ensures Move(m, p, Keys(true, false, false, false, false, false), speed).pos
         == Add(p.pos, Scale(p.dir, speed))
  {
    OpenMoveArrives(m, p.pos, Add(p.pos, Scale(p.dir, speed)));
  }

  /** Where a lone S press lands in open space: one `speed` against `dir`. */
  lemma BackwardInOpen(m: TileMap, p: Player, speed: real)
    requires m.Rectangular()
    requires var t := Sub(p.pos, Scale(p.dir, speed));
      !IsWall(m, Trunc(t.x), Trunc(p.pos.y)) && !IsWall(m, Trunc(t.x), Trunc(t.y))
    ensures Move(m, p, Keys(false, false, true, false, false, false), speed).pos
         == Sub(p.pos, Scale(p.dir, speed))
  {
    OpenMoveArrives(m, p.pos, Sub(p.pos, Scale(p.dir, speed)));
  }

  /** Where a lone A press lands in open space: one `speed` against
      `RightOf(dir)`. */
  lemma StrafeAInOpen(m: TileMap, p: Player, speed: real)
    requires m.Rectangular()
    requires var t := Sub(p.pos, Scale(RightOf(p.dir), speed));
      !IsWall(m, Trunc(t.x), Trunc(p.pos.y)) && !IsWall(m, Trunc(t.x), Trunc(t.y))
    ensures Move(m, p, Keys(false, true, false, false, false, false), speed).pos
         == Sub(p.pos, Scale(RightOf(p.dir), speed))
  {
    OpenMoveArrives(m, p.pos, Sub(p.pos, Scale(RightOf(p.dir), speed)));
  }

  /** Where a lone D press lands in open space: one `speed` along
      `RightOf(dir)`. */
  lemma StrafeDInOpen(m: TileMap, p: Player, speed: real)
    requires m.Rectangular()
    requires var t := Add(p.pos, Scale(RightOf(p.dir), speed));
      !IsWall(m, Trunc(t.x), Trunc(p.pos.y)) && !IsWall(m, Trunc(t.x), Trunc(t.y))
    ensures Move(m, p, Keys(false, false, false, true, false, false), speed).pos
         == Add(p.pos, Scale(RightOf(p.dir), speed))
  {
    OpenMoveArrives(m, p.pos, Add(p.pos, Scale(RightOf(p.dir), speed)));
  }

  /** The camera `setup_player` builds: `plane` is `dir` turned to
      `(-dir.y, dir.x)` and scaled by `len`, the tangent of half the field of
      view. */
  predicate SetupCamera(p: Player, len: real)
  {
    0.0 < len && p.plane == Scale(Vec(-p.dir.y, p.dir.x), len)
  }

  /** With that camera, the D strafe direction `RightOf(dir)` points away
      from `plane`: its component along `plane` is `-len * |dir|^2`. */
  lemma StrafeDAgainstPlane(p: Player, len: real)
    requires SetupCamera(p, len)
    ensures Dot(RightOf(p.dir), p.plane) == -(len * Dot(p.dir, p.dir))
  {
    calc {
      Dot(RightOf(p.dir), p.plane);
      p.dir.y * (-p.dir.y * len) + (-p.dir.x) * (p.dir.x * len);
      -(len * Dot(p.dir, p.dir));
    }
  }

  /** With that camera, a turn with sine `s` moves `dir` toward `plane` by
      `s * len * |dir|^2`: a positive angle, the right arrow, turns toward
      `plane`, a negative one, the left arrow, away from it. */
  lemma TurnTowardPlane(p: Player, len: real, c: real, s: real)
    requires SetupCamera(p, len)
    ensures Dot(Rotate(p.dir, c, s), p.plane) == s * len * Dot(p.dir, p.dir)
  {
    var d := p.dir;
    calc {
      Dot(Rotate(d, c, s), p.plane);
      (d.x * c - d.y * s) * (-d.y * len) + (d.x * s + d.y * c) * (d.x * len);
      len * (s * (d.x * d.x) + s * (d.y * d.y));
      s * len * Dot(d, d);
    }
  }

  /** A turn keeps the camera of `setup_player`: the rotated `plane` is the
      rotated `dir` turned and scaled the same way. */
  lemma TurnKeepsSetupCamera(p: Player, len: real, t: Turn, cos: real -> real, sin: real -> real)
    requires SetupCamera(p, len)
    ensures SetupCamera(Rotated(p, t, cos, sin), len)
  {
    if t.TurnBy? {
      var c, s := cos(t.angle), sin(t.angle);
      var d := p.dir;
      var q := Rotated(p, t, cos, sin);
      assert q.plane.x == (-d.y * len) * c - (d.x * len) * s == -(d.x * s + d.y * c) * len;
      assert q.plane.y == (-d.y * len) * s + (d.x * len) * c == (d.x * c - d.y * s) * len;
    }
  }

  /** The turn a frame applies. */
  datatype Turn = NoTurn | TurnBy(angle: real)

  /** Left turns by `-rot_speed`, right by `rot_speed`; with both held, left wins. */
  function TurnOf(keys: Keys, rotSpeed: real): (t: Turn)
    ensures t.NoTurn? <==> !keys.left && !keys.right
    ensures keys.left ==> t == TurnBy(-rotSpeed)
    ensures !keys.left && keys.right ==> t == TurnBy(rotSpeed)
  {
    if keys.left || keys.right then TurnBy(if keys.left then -rotSpeed else rotSpeed)
    else NoTurn
  }

  /** Holding right in addition to left changes nothing; swapping a lone left
      for a lone right reverses the turn. */
  lemma LeftWins(keys: Keys, rotSpeed: real)
    requires keys.left
    ensures TurnOf(keys, rotSpeed) == TurnOf(keys.(right := false), rotSpeed)
    ensures !keys.right ==>
      TurnOf(keys.(left := false, right := true), rotSpeed).angle == -TurnOf(keys, rotSpeed).angle
  {
  }

  /** The rotation step with `cos` and `sin` standing for `cosf` and `sinf`:
      `dir` and `plane` are both rotated by the chosen angle; the position is
      kept. */
  function Rotated(p: Player, t: Turn, cos: real -> real, sin: real -> real): (q: Player)
    ensures q.pos == p.pos
    ensures t.NoTurn? ==> q == p
    ensures t.TurnBy? ==>
      q.dir == Rotate(p.dir, cos(t.angle), sin(t.angle)) && q.plane == Rotate(p.plane, cos(t.angle), sin(t.angle))
  {
    match t
    case NoTurn => p
    case TurnBy(a) => p.(dir := Rotate(p.dir, cos(a), sin(a)), plane := Rotate(p.plane, cos(a), sin(a)))
  }

  /** With exact trigonometry (`cos^2 + sin^2 = 1`), turning keeps the camera
      rigid: the lengths of `dir` and `plane` and the angle between them are
      unchanged, so a plane perpendicular to the view stays perpendicular. */
  lemma TurnKeepsCamera(p: Player, t: Turn, cos: real -> real, sin: real -> real)
    requires t.TurnBy? ==> cos(t.angle) * cos(t.angle) + sin(t.angle) * sin(t.angle) == 1.0
    ensures var q := Rotated(p, t, cos, sin);
      && Dot(q.dir, q.plane) == Dot(p.dir, p.plane)
      && Dot(q.dir, q.dir) == Dot(p.dir, p.dir)
      && Dot(q.plane, q.plane) == Dot(p.plane, p.plane)
  {
    if t.TurnBy? {
      var c, s := cos(t.angle), sin(t.angle);
      RotateScalesDot(p.dir, p.plane, c, s);
      RotateScalesDot(p.dir, p.dir, c, s);
      RotateScalesDot(p.plane, p.plane, c, s);
    }
  }
}
