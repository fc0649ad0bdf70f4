/** The game state `cast_column` and `move_and_rotate` read, with the build
    constants (`WIN_W`, `WIN_H`, `MOVE_SPEED`, `ROT_SPEED`) as a configuration.
    The frame being drawn is kept apart from it and passed explicitly. */
module Session {
  import opened Geometry
  import opened Grid
  import opened Image
  import opened Controller

  datatype Config = Config(winW: int, winH: int, moveSpeed: real, rotSpeed: real)

  /** The player, the held keys, the tile map and the wall texture. */
  datatype Game = Game(cfg: Config, p: Player, keys: Keys, tiles: TileMap, texWall: Texture)
  {
    /** A non-empty window, a rectangular map and a decoded wall texture. */
    predicate Valid()
    {
      1 <= cfg.winW && 1 <= cfg.winH && tiles.Rectangular() && texWall.Valid()
    }

    /** A frame the size of the window. */
    predicate Fits(f: Frame)
    {
      f.Valid() && f.w == cfg.winW && f.h == cfg.winH
    }
  }

  /** `move_and_rotate`: the four movement blocks, then the turn chosen by the
      arrow keys. `cos` and `sin` stand for `cosf` and `sinf`. */
  function MoveAndRotate(g: Game, cos: real -> real, sin: real -> real): (r: Game)
    requires g.Valid()
    ensures r.Valid() && r.cfg == g.cfg && r.keys == g.keys && r.tiles == g.tiles && r.texWall == g.texWall
    ensures Standing(g.tiles, g.p.pos) ==> Standing(r.tiles, r.p.pos)
    ensures r.p.pos == Move(g.tiles, g.p, g.keys, g.cfg.moveSpeed).pos
  {
    var moved := Move(g.tiles, g.p, g.keys, g.cfg.moveSpeed);
    g.(p := Rotated(moved, TurnOf(g.keys, g.cfg.rotSpeed), cos, sin))
  }

  /** A frame update keeps the camera rigid when the trigonometry is exact. */
  lemma UpdateKeepsCamera(g: Game, cos: real -> real, sin: real -> real)
    requires g.Valid()
    requires forall a :: cos(a) * cos(a) + sin(a) * sin(a) == 1.0
    ensures var r := MoveAndRotate(g, cos, sin);
      && Dot(r.p.dir, r.p.plane) == Dot(g.p.dir, g.p.plane)
      && Dot(r.p.dir, r.p.dir) == Dot(g.p.dir, g.p.dir)
      && Dot(r.p.plane, r.p.plane) == Dot(g.p.plane, g.p.plane)
  {
    var moved := Move(g.tiles, g.p, g.keys, g.cfg.moveSpeed);
    TurnKeepsCamera(moved, TurnOf(g.keys, g.cfg.rotSpeed), cos, sin);
  }
}
