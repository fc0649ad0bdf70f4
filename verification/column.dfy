/** `cast_column` and `render_frame`: one ray per screen column, walked through
    the grid, projected to a strip and drawn as sky, textured wall and floor. */
module Column {
  import opened Numeric
  import opened Geometry
  import opened Grid
  import opened Color
  import opened Image
  import opened Dda
  import opened Projection
  import opened Controller
  import opened Session

  /** `x_cam = 2x / WIN_W - 1`: the column's horizontal camera coordinate. */
  function CameraX(x: int, winW: int): (c: real)
    requires 1 <= winW
    ensures 0 <= x < winW ==> -1.0 <= c < 1.0
  {
    FractionBelowOne(x, winW);
    2.0 * (x as real) / (winW as real) - 1.0
  }

  lemma FractionBelowOne(x: int, n: int)
    requires 1 <= n
    ensures 0 <= x < n ==> 0.0 <= (x as real) / (n as real) < 1.0
  {
  }

  /** Columns at the same distance from the two screen edges look out at
      opposite camera offsets; column 0 is the left edge of the view. */
  lemma CameraXSymmetric(x: int, winW: int)
    requires 1 <= winW
    ensures CameraX(x, winW) + CameraX(winW - x, winW) == 0.0
    ensures CameraX(0, winW) == -1.0
  {
    var n := winW as real;
    assert 2.0 * (x as real) / n + 2.0 * ((winW - x) as real) / n == 2.0 * n / n;
  }

  /** `ray_dir = dir + plane * x_cam`. With the camera plane perpendicular to the view direction, as
      `setup_player` builds it, every column's ray has the same component
      along the view direction; it differs only along the plane, in proportion
      to the camera coordinate. */
  function RayDir(p: Player, x: int, winW: int): (rd: Vec)
    requires 1 <= winW
    ensures Dot(p.dir, p.plane) == 0.0 ==> Dot(rd, p.dir) == Dot(p.dir, p.dir)
    ensures Sub(rd, p.dir) == Scale(p.plane, CameraX(x, winW))
  {
    Add(p.dir, Scale(p.plane, CameraX(x, winW)))
  }

  /** The walk of column `x` after `n` moves. */
  function HitAfter(g: Game, x: int, n: nat): DdaState
    requires g.Valid()
  {
    var rd := RayDir(g.p, x, g.cfg.winW);
    StepN(Setup(rd), Start(g.p.pos, rd), n)
  }

  /** After `n` moves the walk of column `x` has reached its first wall. */
  predicate IsHit(g: Game, x: int, n: nat)
    requires g.Valid()
  {
    var rd := RayDir(g.p, x, g.cfg.winW);
    IsFirstWall(g.tiles, Setup(rd), Start(g.p.pos, rd), n)
  }

  /** What the hit decides about the column: the strip height, the texture
      column and whether the face is shaded. */
  datatype Span = Span(lineH: int, texX: int, shaded: bool)

  /** The faces whose texture column is counted from the other edge: a
      vertical face seen by a ray going +x, a horizontal one by a ray going -y. */
  predicate Mirrored(rd: Vec, hitSide: int)
  {
    (hitSide == 0 && rd.x > 0.0) || (hitSide == 1 && rd.y < 0.0)
  }

  /** On a vertical face `wall_x` grows with y, and the mirror is applied
      exactly when `RightOf(rd)` points toward -y; on a horizontal face
      `wall_x` grows with x, and the mirror is applied exactly when
      `RightOf(rd)` points toward -x. Either way `tex_x` grows along the face
      the way `RightOf(rd)` points, which with the camera of `setup_player` is
      away from `plane`, toward the side the left half of the screen shows
      (`ScreenSides`). */
  lemma MirroredAgainstRight(rd: Vec)
    ensures Mirrored(rd, 0) <==> RightOf(rd).y < 0.0
    ensures Mirrored(rd, 1) <==> RightOf(rd).x < 0.0
  {
  }

  /** With the camera of `setup_player`, a column left of centre
      (`x_cam < 0`) looks toward the side `RightOf(dir)` points to, and a
      column right of centre away from it: the ray's offset from `dir` has
      component `-x_cam * len * |dir|^2` along `RightOf(dir)`. Every ray's
      own quarter turn `RightOf(ray)` points away from `plane` by the same
      amount as `RightOf(dir)`. */
  lemma ScreenSides(p: Player, len: real, x: int, winW: int)
    requires 1 <= winW && SetupCamera(p, len)
    ensures Dot(Sub(RayDir(p, x, winW), p.dir), RightOf(p.dir))
         == -(CameraX(x, winW) * (len * Dot(p.dir, p.dir)))
    ensures 0.0 < Dot(p.dir, p.dir) ==>
      (0.0 < Dot(Sub(RayDir(p, x, winW), p.dir), RightOf(p.dir)) <==> CameraX(x, winW) < 0.0)
    ensures Dot(RightOf(RayDir(p, x, winW)), p.plane) == -(len * Dot(p.dir, p.dir))
  {
    var cx := CameraX(x, winW);
    var k := len * Dot(p.dir, p.dir);
    var rd := RayDir(p, x, winW);
    StrafeDAgainstPlane(p, len);
    DotScale(p.plane, RightOf(p.dir), cx);
    assert Dot(p.plane, RightOf(p.dir)) == -k;
    assert Dot(Sub(rd, p.dir), RightOf(p.dir)) == -(cx * k);
    if 0.0 < Dot(p.dir, p.dir) {
      PositiveProduct(len, Dot(p.dir, p.dir));
      SignOfProduct(cx, k);
    }
    RightOfLinear(p.dir, p.plane, p.plane, cx);
  }

  /** The product of two positive numbers is positive. */
  lemma PositiveProduct(a: real, b: real)
    requires 0.0 < a && 0.0 < b
    ensures 0.0 < a * b
  {
  }

  /** For a positive `k`, `-(c * k)` is positive exactly when `c` is
      negative. */
  lemma SignOfProduct(c: real, k: real)
    requires 0.0 < k
    ensures 0.0 < -(c * k) <==> c < 0.0
  {
    if c < 0.0 { assert 0.0 < (-c) * k; }
    if 0.0 <= c { assert 0.0 <= c * k; }
  }

  /** The per-hit quantities of `cast_column`. `wall_x` uses the distance before
      the clamp, `line_h` the clamped one. */
  function SpanOf(g: Game, rd: Vec, s: DdaState): (sp: Span)
    requires g.Valid()
    ensures 0 <= sp.lineH
    ensures 0 <= sp.texX < g.texWall.w
    ensures sp.shaded <==> s.hitSide == 1
    ensures sp.lineH == LineHeight(g.cfg.winH, ClampDistance(PerpDistance(g.p.pos, rd, Setup(rd), s)))
  {
    var rs := Setup(rd);
    var perp := PerpDistance(g.p.pos, rd, rs, s);
    var tx := TexColumn(WallX(g.p.pos, rd, rs, s), g.texWall.w);
    Span(LineHeight(g.cfg.winH, ClampDistance(perp)),
         if Mirrored(rd, s.hitSide) then Mirror(g.texWall.w, tx) else tx,
         s.hitSide == 1)
  }

  /** The texel a wall row shows: texture row from the scan position at row
      `y`, texture column from the span, halved in brightness on a shaded face. */
  function WallColor(g: Game, sp: Span, y: int): Pixel
    requires g.Valid() && 0 <= sp.lineH && 0 <= sp.texX < g.texWall.w
  {
    var step := TexStep(g.texWall.h, sp.lineH);
    var ty := TexRow(TexPosAt(g.cfg.winH, sp.lineH, step, y), g.texWall.h);
    var c := g.texWall.texels[ty][sp.texX];
    if sp.shaded then Shade(c) else c
  }

  /** The reference colour of row `y` of a column: sky above the strip, the
      wall texel inside it, floor below it. */
  function ColumnColor(g: Game, sp: Span, y: int): Pixel
    requires g.Valid() && 0 <= sp.lineH && 0 <= sp.texX < g.texWall.w
  {
    var strip := StripOf(g.cfg.winH, sp.lineH);
    if y < strip.drawStart then SKY
    else if y <= strip.drawEnd then WallColor(g, sp, y)
    else FLOOR
  }

  /** The colour column `x` gets at row `y` when its walk stops after `n` moves. */
  function PixelAt(g: Game, x: int, n: nat, y: int): Pixel
    requires g.Valid()
  {
    var rd := RayDir(g.p, x, g.cfg.winW);
    ColumnColor(g, SpanOf(g, rd, HitAfter(g, x, n)), y)
  }

  /** The rows `lo` to `hi - 1`. */
  function Band(lo: int, hi: int): (b: set<int>)
    decreases hi - lo
  {
    if hi <= lo then {} else {lo} + Band(lo + 1, hi)
  }

  lemma {:induction false} BandMembers(lo: int, hi: int, y: int)
    ensures y in Band(lo, hi) <==> lo <= y < hi
    decreases hi - lo
  {
    if lo < hi {
      BandMembers(lo + 1, hi, y);
    }
  }

  /** The sky rows, the wall rows and the floor rows of a column are disjoint,
      together are exactly the rows of the window, and the wall always holds
      the middle row. */
  lemma RowsPartition(winH: int, lineH: int)
    requires 1 <= winH && 0 <= lineH
    ensures var s := StripOf(winH, lineH);
      var sky := Band(0, s.drawStart);
      var wall := Band(s.drawStart, s.drawEnd + 1);
      var floor := Band(s.drawEnd + 1, winH);
      && sky !! wall && wall !! floor && sky !! floor
      && sky + wall + floor == Band(0, winH)
      && winH / 2 in wall
  {
    var s := StripOf(winH, lineH);
    forall y
      ensures y in Band(0, s.drawStart) <==> 0 <= y < s.drawStart
      ensures y in Band(s.drawStart, s.drawEnd + 1) <==> s.drawStart <= y <= s.drawEnd
      ensures y in Band(s.drawEnd + 1, winH) <==> s.drawEnd < y < winH
      ensures y in Band(0, winH) <==> 0 <= y < winH
    {
      BandMembers(0, s.drawStart, y);
      BandMembers(s.drawStart, s.drawEnd + 1, y);
      BandMembers(s.drawEnd + 1, winH, y);
      BandMembers(0, winH, y);
    }
  }

  /** Frames `f` and `r` agree everywhere outside column `x`. */
  predicate SameOutside(f: Frame, r: Frame, x: int)
    requires f.Valid() && r.Valid() && f.w == r.w && f.h == r.h
  {
    forall yy, xx :: 0 <= yy < r.h && 0 <= xx < r.w && xx != x ==> r.px[yy][xx] == f.px[yy][xx]
  }

  /** One of the flat loops of `cast_column`: rows `lo` to `hi - 1` of column
      `x` get colour `c`; nothing else changes. */
  method FillRows(f: Frame, x: int, lo: int, hi: int, c: Pixel) returns (r: Frame)
    requires f.Valid() && 0 <= lo <= hi <= f.h
    ensures r.Valid() && r.w == f.w && r.h == f.h && SameOutside(f, r, x)
    ensures 0 <= x < f.w ==> forall yy :: lo <= yy < hi ==> r.px[yy][x] == c
    ensures 0 <= x < f.w ==> forall yy :: 0 <= yy < lo || hi <= yy < f.h ==> r.px[yy][x] == f.px[yy][x]
  {
    r := f;
    var y := lo;
    while y < hi
      invariant lo <= y <= hi
      invariant r.Valid() && r.w == f.w && r.h == f.h && SameOutside(f, r, x)
      invariant 0 <= x < f.w ==> forall yy :: lo <= yy < y ==> r.px[yy][x] == c
      invariant 0 <= x < f.w ==> forall yy :: 0 <= yy < lo || y <= yy < f.h ==> r.px[yy][x] == f.px[yy][x]
    {
      r := PutPixel(r, x, y, c);
      y := y + 1;
    }
  }

  /** The textured loop of `cast_column`: from `draw_start` to `draw_end`
      inclusive, `tex_y` is the masked scan position, the scan advances by one
      step per row, and on a horizontal face (`hitSide == 1`) the texel is
      shaded. Only those rows of column `x` change. */
  method DrawWall(g: Game, f: Frame, x: int, sp: Span, hitSide: int) returns (r: Frame)
    requires g.Valid() && g.Fits(f) && 0 <= sp.lineH && 0 <= sp.texX < g.texWall.w
    requires sp.shaded <==> hitSide == 1
    ensures g.Fits(r) && SameOutside(f, r, x)
    ensures var s := StripOf(g.cfg.winH, sp.lineH);
      0 <= x < f.w ==> forall yy :: s.drawStart <= yy <= s.drawEnd ==> r.px[yy][x] == WallColor(g, sp, yy)
    ensures var s := StripOf(g.cfg.winH, sp.lineH);
      0 <= x < f.w ==> forall yy :: 0 <= yy < s.drawStart || s.drawEnd < yy < f.h ==> r.px[yy][x] == f.px[yy][x]
  {
    var winH := g.cfg.winH;
    var tw := g.texWall;
    var strip := StripOf(winH, sp.lineH);
    var ds, de := strip.drawStart, strip.drawEnd;
    var step := TexStep(tw.h, sp.lineH);
    var texPos := ((ds - winH / 2 + sp.lineH / 2) as real) * step;
    r := f;
    var y := ds;
    while y <= de
      invariant ds <= y <= de + 1
      invariant texPos == TexPosAt(winH, sp.lineH, step, y)
      invariant g.Fits(r) && SameOutside(f, r, x)
      invariant 0 <= x < f.w ==> forall yy :: ds <= yy < y ==> r.px[yy][x] == WallColor(g, sp, yy)
      invariant 0 <= x < f.w ==> forall yy :: 0 <= yy < ds || y <= yy < f.h ==> r.px[yy][x] == f.px[yy][x]
    {
      var ty := MaskInt(Trunc(texPos), tw.h - 1);
      TexPosAdvance(winH, sp.lineH, step, y);
      texPos := texPos + step;
      var color := tw.texels[ty][sp.texX];
      if hitSide == 1 {
        color := Shade(color);
      }
      r := PutPixel(r, x, y, color);
      y := y + 1;
    }
  }

  /** `cast_column`: walks column `x`'s ray to its first wall, then paints the
      sky rows, the floor rows and the wall rows of that column, in that order.
      Only column `x` changes; within the window every one of its rows gets
      its reference colour. */
  method CastColumn(g: Game, f: Frame, x: int) returns (r: Frame, steps: nat)
    requires g.Valid() && g.Fits(f)
    ensures g.Fits(r)
    ensures IsHit(g, x, steps)
    ensures SameOutside(f, r, x)
    ensures 0 <= x < r.w ==> forall y :: 0 <= y < r.h ==> r.px[y][x] == PixelAt(g, x, steps, y)
  {
    var rd := RayDir(g.p, x, g.cfg.winW);
    var s;
    s, steps := Walk(g.tiles, Setup(rd), Start(g.p.pos, rd));
    var sp := SpanOf(g, rd, s);
    var strip := StripOf(g.cfg.winH, sp.lineH);
    var r1 := FillRows(f, x, 0, strip.drawStart, SKY);
    var r2 := FillRows(r1, x, strip.drawEnd + 1, g.cfg.winH, FLOOR);
    r := DrawWall(g, r2, x, sp, s.hitSide);
    if 0 <= x < r.w {
      forall y | 0 <= y < r.h
        ensures r.px[y][x] == ColumnColor(g, sp, y)
      {
        if y < strip.drawStart {
          assert r1.px[y][x] == SKY;
        } else if strip.drawEnd < y {
          assert r2.px[y][x] == FLOOR;
        }
      }
    }
  }

  /** The frame `render_frame` leaves: column `x`'s walk stops after `hits[x]`
      moves, on its first wall, and every pixel has its reference colour. */
  predicate Rendered(g: Game, r: Frame, hits: seq<nat>)
    requires g.Valid()
  {
    && g.Fits(r) && |hits| == g.cfg.winW
    && (forall x :: 0 <= x < |hits| ==> IsHit(g, x, hits[x]))
    && (forall x, y :: 0 <= x < |hits| && 0 <= y < r.h ==> r.px[y][x] == PixelAt(g, x, hits[x], y))
  }

  /** `render_frame`: `cast_column` for every column of the window, left to right. */
  method RenderFrame(g: Game, f: Frame) returns (r: Frame, hits: seq<nat>)
    requires g.Valid() && g.Fits(f)
    ensures Rendered(g, r, hits)
  {
    r := f;
    hits := [];
    var x := 0;
    while x < g.cfg.winW
      invariant 0 <= x <= g.cfg.winW && |hits| == x
      invariant g.Fits(r)
      invariant forall xx :: 0 <= xx < x ==> IsHit(g, xx, hits[xx])
      invariant forall xx, y :: 0 <= xx < x && 0 <= y < r.h ==> r.px[y][xx] == PixelAt(g, xx, hits[xx], y)
    {
      var n;
      r, n := CastColumn(g, r, x);
      hits := hits + [n];
      x := x + 1;
    }
  }

  /** A rendered frame depends only on the game: every pixel of the previous
      frame is overwritten, and each column's walk length is forced. */
  lemma RenderedUnique(g: Game, r1: Frame, h1: seq<nat>, r2: Frame, h2: seq<nat>)
    requires g.Valid() && Rendered(g, r1, h1) && Rendered(g, r2, h2)
    ensures h1 == h2 && r1 == r2
  {
    forall x | 0 <= x < |h1|
      ensures h1[x] == h2[x]
    {
      var rd := RayDir(g.p, x, g.cfg.winW);
      FirstWallUnique(g.tiles, Setup(rd), Start(g.p.pos, rd), h1[x], h2[x]);
    }
    assert h1 == h2;
    forall y | 0 <= y < r1.h
      ensures r1.px[y] == r2.px[y]
    {
      forall x | 0 <= x < r1.w
        ensures r1.px[y][x] == r2.px[y][x]
      {
        assert r1.px[y][x] == PixelAt(g, x, h1[x], y);
      }
    }
    assert r1.px == r2.px;
  }

  /** `loop_hook`: the frame update, then a full render of the updated game. */
  method LoopHook(g: Game, f: Frame, cos: real -> real, sin: real -> real)
    returns (next: Game, r: Frame, hits: seq<nat>)
    requires g.Valid() && g.Fits(f)
    ensures next == MoveAndRotate(g, cos, sin)
    ensures next.Valid() && Rendered(next, r, hits)
    ensures Standing(g.tiles, g.p.pos) ==> Standing(next.tiles, next.p.pos)
  {
    next := MoveAndRotate(g, cos, sin);
    r, hits := RenderFrame(next, f);
  }
}
