/** Packed 0xRRGGBB colours: the `rgb` helper and the half-brightness shade
    used for walls hit on a horizontal face. A colour is the bit pattern of the
    C `int` that holds it. */
module Color {

  type Pixel = bv32

  function Red(c: Pixel): Pixel { (c >> 16) & 0xFF }
  function Green(c: Pixel): Pixel { (c >> 8) & 0xFF }
  function Blue(c: Pixel): Pixel { c & 0xFF }

  /** Clamps one channel into [0, 255]. */
  function Clamp(v: int): (c: int)
    ensures 0 <= c <= 255
    ensures 0 <= v <= 255 ==> c == v
    ensures v < 0 ==> c == 0
    ensures 255 < v ==> c == 255
  {
    if v < 0 then 0 else if v > 255 then 255 else v
  }

  /** `rgb`: packs the clamped channels as `(r << 16) | (g << 8) | b`. */
  function Rgb(r: int, g: int, b: int): (c: Pixel)
    ensures c <= 0xFFFFFF
    ensures Red(c) == Clamp(r) as Pixel
    ensures Green(c) == Clamp(g) as Pixel
    ensures Blue(c) == Clamp(b) as Pixel
  {
    PackChannels(Clamp(r) as Pixel, Clamp(g) as Pixel, Clamp(b) as Pixel)
  }

  function PackChannels(r: Pixel, g: Pixel, b: Pixel): (c: Pixel)
    requires r <= 0xFF && g <= 0xFF && b <= 0xFF
    ensures c <= 0xFFFFFF && Red(c) == r && Green(c) == g && Blue(c) == b
  {
    (r << 16) | (g << 8) | b
  }

  lemma ByteRoundTrip(v: Pixel)
    requires v <= 0xFF
    ensures Clamp(v as int) as Pixel == v
  {
    assert v as int <= 255;
  }

  /** Every 24-bit colour is the `rgb` of its own channels. */
  lemma RgbOfChannels(c: Pixel)
    requires c <= 0xFFFFFF
    ensures Rgb(Red(c) as int, Green(c) as int, Blue(c) as int) == c
  {
    ByteRoundTrip(Red(c));
    ByteRoundTrip(Green(c));
    ByteRoundTrip(Blue(c));
    PackOfChannels(c);
  }

  lemma PackOfChannels(c: Pixel)
    requires c <= 0xFFFFFF
    ensures PackChannels(Red(c), Green(c), Blue(c)) == c
  {
  }

  /** The shade `(color >> 1) & 0x7F7F7F`: each 8-bit channel is halved
      (rounding down) and the top byte is cleared. The C shift is on a signed
      `int`; whatever it shifts into bit 31 is removed by the mask. */
  function Shade(c: Pixel): (s: Pixel)
    ensures s <= 0x7F7F7F
    ensures Red(s) == Red(c) / 2
    ensures Green(s) == Green(c) / 2
    ensures Blue(s) == Blue(c) / 2
  {
    (c >> 1) & 0x7F7F7F
  }

  /** Shading an `rgb` colour is the `rgb` of the halved clamped channels. */
  lemma ShadeOfRgb(r: int, g: int, b: int)
    ensures Shade(Rgb(r, g, b)) == Rgb(Clamp(r) / 2, Clamp(g) / 2, Clamp(b) / 2)
  {
    var cr, cg, cb := Clamp(r), Clamp(g), Clamp(b);
    assert Clamp(cr / 2) == cr / 2 && Clamp(cg / 2) == cg / 2 && Clamp(cb / 2) == cb / 2;
    ShadePacked(cr, cg, cb);
  }

  lemma ShadePacked(r: int, g: int, b: int)
    requires 0 <= r <= 255 && 0 <= g <= 255 && 0 <= b <= 255
    ensures Shade(PackChannels(r as Pixel, g as Pixel, b as Pixel))
         == PackChannels((r / 2) as Pixel, (g / 2) as Pixel, (b / 2) as Pixel)
  {
    HalfByte(r);
    HalfByte(g);
    HalfByte(b);
    ShadeHalvesChannels(r as Pixel, g as Pixel, b as Pixel);
  }

  lemma ShadeHalvesChannels(r: Pixel, g: Pixel, b: Pixel)
    requires r <= 0xFF && g <= 0xFF && b <= 0xFF
    ensures Shade(PackChannels(r, g, b)) == PackChannels(r / 2, g / 2, b / 2)
  {
  }

  lemma HalfByte(v: int)
    requires 0 <= v <= 255
    ensures (v / 2) as Pixel == (v as Pixel) / 2
  {
  }

  /** The flat sky and floor colours `cast_column` paints. */
  const SKY: Pixel := Rgb(120, 180, 255)
  const FLOOR: Pixel := Rgb(60, 120, 60)
}
