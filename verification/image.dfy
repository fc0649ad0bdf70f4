/** The frame buffer and the wall texture as row-major grids of colours
    (`px[y][x]`), in place of the byte buffers the C code addresses through
    `bpp` and `line_len`. */
module Image {
  import opened Color

  datatype Frame = Frame(w: int, h: int, px: seq<seq<Pixel>>)
  {
    predicate Valid()
    {
      0 <= w && 0 <= h && |px| == h && forall y :: 0 <= y < h ==> |px[y]| == w
    }

    predicate InBounds(x: int, y: int)
    {
      0 <= x < w && 0 <= y < h
    }
  }

  /** `put_pixel`: a write outside the frame does nothing; a write inside it
      sets exactly that one pixel. */
  function PutPixel(f: Frame, x: int, y: int, c: Pixel): (r: Frame)
    requires f.Valid()
    ensures r.Valid() && r.w == f.w && r.h == f.h
    ensures !f.InBounds(x, y) ==> r == f
    ensures f.InBounds(x, y) ==> r.px[y][x] == c
    ensures forall yy, xx :: f.InBounds(xx, yy) && (xx != x || yy != y) ==> r.px[yy][xx] == f.px[yy][xx]
  {
    if x < 0 || x >= f.w || y < 0 || y >= f.h then f
    else f.(px := f.px[y := f.px[y][x := c]])
  }

  /** A decoded texture: `texels[ty][tx]` for `0 <= tx < w`, `0 <= ty < h`. */
  datatype Texture = Texture(w: int, h: int, texels: seq<seq<Pixel>>)
  {
    predicate Valid()
    {
      1 <= w && 1 <= h && |texels| == h && forall y :: 0 <= y < h ==> |texels[y]| == w
    }
  }
}
