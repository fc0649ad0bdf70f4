/** Worked cases on the built-in map `g_small_map`. */
module Scenario {
  import opened Numeric
  import opened Geometry
  import opened Grid
  import opened Color
  import opened Dda
  import opened Projection
  import opened Controller

  /** From the middle of cell (2, 2), a ray straight along +x crosses the open
      cell (3, 2) and stops on the wall at (4, 2), hit on a vertical face after
      two moves, one and a half cells away; on a 600-row window its strip
      is 400 rows tall. Its y component is zero, so y never moves. */
  lemma RayAlongRowTwo()
    ensures var pos, rd := Vec(2.5, 2.5), Vec(1.0, 0.0);
      var s := StepN(Setup(rd), Start(pos, rd), 2);
      && SMALL_MAP.Rectangular()
      && IsFirstWall(SMALL_MAP, Setup(rd), Start(pos, rd), 2)
      && s.mapX == 4 && s.mapY == 2 && s.hitSide == 0
      && PerpDistance(pos, rd, Setup(rd), s) == 1.5
      && LineHeight(600, ClampDistance(PerpDistance(pos, rd, Setup(rd), s))) == 400
  {
    SmallMapClosed();
    var pos, rd := Vec(2.5, 2.5), Vec(1.0, 0.0);
    var rs := Setup(rd);
    var s0 := Start(pos, rd);
    assert Trunc(2.5) == 2;
    assert s0 == DdaState(2, 2, 0.5, 0.5 * FAR, 0);
    assert StepN(rs, s0, 1) == DdaState(3, 2, 1.5, 0.5 * FAR, 0);
    assert StepN(rs, s0, 2) == DdaState(4, 2, 2.5, 0.5 * FAR, 0);
    assert !IsWall(SMALL_MAP, 2, 2) && !IsWall(SMALL_MAP, 3, 2) && IsWall(SMALL_MAP, 4, 2);
    var lh := LineHeight(600, 1.5);
    assert (lh as real) * 1.5 <= 600.0 < ((lh + 1) as real) * 1.5;
  }

  /** That walk length is the only one that stops on a first wall. */
  lemma RayAlongRowTwoUnique(n: nat)
    requires SMALL_MAP.Rectangular()
    requires IsFirstWall(SMALL_MAP, Setup(Vec(1.0, 0.0)), Start(Vec(2.5, 2.5), Vec(1.0, 0.0)), n)
    ensures n == 2
  {
    RayAlongRowTwo();
    FirstWallUnique(SMALL_MAP, Setup(Vec(1.0, 0.0)), Start(Vec(2.5, 2.5), Vec(1.0, 0.0)), n, 2);
  }

  /** Walking diagonally into the left wall from cell (1, 1): the x part of the
      step is refused, the y part is taken, so the player slides down the wall. */
  lemma SlideAlongLeftWall()
    ensures var p := Player(Vec(1.5, 1.5), Vec(-0.75, 0.75), Vec(0.0, 0.0));
      Move(SMALL_MAP, p, Keys(true, false, false, false, false, false), 1.0).pos == Vec(1.5, 2.25)
  {
    SmallMapClosed();
    assert Trunc(0.75) == 0 && Trunc(1.5) == 1 && Trunc(2.25) == 2;
    assert IsWall(SMALL_MAP, 0, 1) && !IsWall(SMALL_MAP, 1, 2);
  }

  /** A player at x = -0.5 truncates into cell 0. A ray along -x leaves it
      on the first move, and the closed-form distance to that face is
      negative: the non-negativity of `perp_dist` needs a non-negative
      coordinate. */
  lemma NegativeCoordinatePerp()
    ensures var pos, rd := Vec(-0.5, 0.5), Vec(-1.0, 0.0);
      var s := StepN(Setup(rd), Start(pos, rd), 1);
      && s.mapX == -1 && s.hitSide == 0
      && PerpDistance(pos, rd, Setup(rd), s) == -0.5
  {
    var pos, rd := Vec(-0.5, 0.5), Vec(-1.0, 0.0);
    assert Trunc(-0.5) == 0 && Trunc(0.5) == 0;
    assert Start(pos, rd) == DdaState(0, 0, -0.5, 0.5 * FAR, 0);
  }

  /** A ray along +x has a zero y component, but from a position 1e-35 below
      the grid line y = 3 its first y crossing, scaled by the `1e30`
      sentinel, is nearer than its first x crossing: the first iteration
      moves y. */
  lemma ZeroComponentMoves()
    ensures var pos, rd := Vec(2.5, 3.0 - 1.0 / 1e35), Vec(1.0, 0.0);
      var s := StepN(Setup(rd), Start(pos, rd), 1);
      && s.mapX == 2 && s.mapY == 3 && s.hitSide == 1
  {
    var pos, rd := Vec(2.5, 3.0 - 1.0 / 1e35), Vec(1.0, 0.0);
    assert Trunc(2.5) == 2 && Trunc(pos.y) == 2;
    assert Start(pos, rd).sideY < Start(pos, rd).sideX;
  }

  /** The sky colour `rgb(120, 180, 255)` as a packed value. */
  lemma SkyColour()
    ensures SKY == 0x78B4FF
  {
    assert Clamp(120) == 120 && Clamp(180) == 180 && Clamp(255) == 255;
    assert PackChannels(120, 180, 255) == 0x78B4FF;
  }

  /** The floor colour `rgb(60, 120, 60)` as a packed value. */
  lemma FloorColour()
    ensures FLOOR == 0x3C783C
  {
    assert Clamp(60) == 60 && Clamp(120) == 120;
    assert PackChannels(60, 120, 60) == 0x3C783C;
  }

  /** The sky colour as a shaded face would show it: every channel halved. */
  lemma ShadedSky()
    ensures Shade(SKY) == 0x3C5A7F
  {
    SkyColour();
  }
}
