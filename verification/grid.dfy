/** The tile map: rows of '1' (wall) and '0' (open) characters, with every cell
    outside the declared bounds counting as wall. */
module Grid {

  const WALL: char := '1'

  /** `rows[my][mx]` is the tile in column `mx` of row `my`; `w` and `h` are
      `map_w` and `map_h`. */
  datatype TileMap = TileMap(rows: seq<seq<char>>, w: int, h: int)
  {
    /** `map_h` counts the rows and every row is `map_w` long. The source only
        guards column indices against `map_w`, so shorter rows are not allowed. */
    predicate Rectangular()
    {
      0 <= w && h == |rows| && forall i :: 0 <= i < |rows| ==> |rows[i]| == w
    }

    predicate InBounds(mx: int, my: int)
    {
      0 <= mx < w && 0 <= my < h
    }
  }

  /** `is_wall`: off-map cells are solid; on-map cells are solid iff they hold '1'. */
  function IsWall(m: TileMap, mx: int, my: int): (solid: bool)
    requires m.Rectangular()
    ensures !m.InBounds(mx, my) ==> solid
    ensures m.InBounds(mx, my) ==> (solid <==> m.rows[my][mx] == WALL)
  {
    if mx < 0 || my < 0 || my >= m.h || mx >= m.w then true
    else m.rows[my][mx] == WALL
  }

  /** The map surrounded by an explicit ring of wall tiles, one cell wide. */
  function Framed(m: TileMap): (f: TileMap)
    requires m.Rectangular()
    ensures f.Rectangular() && f.w == m.w + 2 && f.h == m.h + 2
  {
    TileMap(
      seq(m.h + 2, i requires 0 <= i < m.h + 2 =>
        seq(m.w + 2, j requires 0 <= j < m.w + 2 =>
          if 1 <= i <= m.h && 1 <= j <= m.w then m.rows[i - 1][j - 1] else WALL)),
      m.w + 2, m.h + 2)
  }

  /** The implicit boundary is a real wall: `is_wall` on the map agrees with a
      plain lookup in the framed map over the framed map's whole extent, and the
      frame itself is solid all round. */
  lemma FramedAgrees(m: TileMap, mx: int, my: int)
    requires m.Rectangular()
    requires -1 <= mx <= m.w && -1 <= my <= m.h
    ensures IsWall(m, mx, my) <==> Framed(m).rows[my + 1][mx + 1] == WALL
    ensures (mx == -1 || mx == m.w || my == -1 || my == m.h) ==> Framed(m).rows[my + 1][mx + 1] == WALL
  {
  }

  /** The map literal `g_small_map` that `setup_map_small` copies. */
  const SMALL_MAP: TileMap := TileMap([
    "1111111111111",
    "1000000000001",
    "1000111100001",
    "1000100000001",
    "1000100111001",
    "1000000000001",
    "1111111111111"
  ], 13, 7)

  /** The literal is a 13 x 7 rectangle closed by walls on every edge. */
  lemma SmallMapClosed()
    ensures SMALL_MAP.Rectangular()
    ensures forall mx :: 0 <= mx < 13 ==> IsWall(SMALL_MAP, mx, 0) && IsWall(SMALL_MAP, mx, 6)
    ensures forall my :: 0 <= my < 7 ==> IsWall(SMALL_MAP, 0, my) && IsWall(SMALL_MAP, 12, my)
  {
    assert forall i :: 0 <= i < 7 ==> |SMALL_MAP.rows[i]| == 13;
  }
}
