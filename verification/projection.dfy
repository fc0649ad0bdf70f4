/** Turning a hit into a vertical strip on screen and into texture coordinates:
    the clamp on `perp_dist`, `line_h`, `draw_start` / `draw_end`, `tex_x` with
    its mirroring, and the `tex_pos` / `tex_y` scan down the strip. */
module Projection {
  import opened Numeric

  /** `1e-6f`, the smallest distance the projection divides by. */
  const EPS: real := 0.000001

  /** `if (perp_dist < 1e-6f) perp_dist = 1e-6f`. */
  function ClampDistance(d: real): (r: real)
    ensures EPS <= r
    ensures EPS <= d ==> r == d
    ensures d < EPS ==> r == EPS
  {
    if d < EPS then EPS else d
  }

  lemma ClampDistanceMonotone(a: real, b: real)
    requires a <= b
    ensures ClampDistance(a) <= ClampDistance(b)
  {
  }

  /** `line_h = (int)(WIN_H / perp_dist)`: the largest whole height whose
      product with the distance does not exceed the screen height. */
  function LineHeight(winH: int, perp: real): (lh: int)
    requires 1 <= winH && EPS <= perp
    ensures 0 <= lh
    ensures (lh as real) * perp <= winH as real < ((lh + 1) as real) * perp
  {
    var q := winH as real / perp;
    DivPositive(winH as real, perp);
    BelowScaled(winH as real, q, perp, Trunc(q) as real);
    AboveScaled(winH as real, q, perp, (Trunc(q) + 1) as real);
    Trunc(q)
  }

  lemma DivPositive(a: real, c: real)
    requires 0.0 < a && 0.0 < c
    ensures 0.0 < a / c && (a / c) * c == a
  {
  }

  lemma BelowScaled(total: real, q: real, c: real, a: real)
    requires 0.0 < c && q * c == total && a <= q
    ensures a * c <= total
  {
    MulRight(a, q, c);
  }

  lemma AboveScaled(total: real, q: real, c: real, b: real)
    requires 0.0 < c && q * c == total && q < b
    ensures total < b * c
  {
    MulRightStrict(q, b, c);
  }

  /** A farther wall never gets a taller strip. */
  lemma LineHeightAntitone(winH: int, p1: real, p2: real)
    requires 1 <= winH && EPS <= p1 <= p2
    ensures LineHeight(winH, p2) <= LineHeight(winH, p1)
  {
    HeightOrder(winH as real, p1, p2, LineHeight(winH, p2) as real, (LineHeight(winH, p1) + 1) as real);
  }

  lemma HeightOrder(total: real, p1: real, p2: real, a: real, b: real)
    requires 0.0 < p1 <= p2 && 0.0 <= a
    requires a * p2 <= total < b * p1
    ensures a < b
  {
    MulLeft(a, p1, p2);
    calc {
      a * p1;
    <= a * p2;
    <= total;
    <  b * p1;
    }
    MulRightCancel(a, b, p1);
  }

  lemma MulRightCancel(a: real, b: real, c: real)
    requires a * c < b * c && 0.0 < c
    ensures a < b
  {
    if b <= a {
      MulRight(b, a, c);
    }
  }

  lemma MulRight(a: real, b: real, c: real)
    requires a <= b && 0.0 < c
    ensures a * c <= b * c
  {
  }

  lemma MulRightStrict(a: real, b: real, c: real)
    requires a < b && 0.0 < c
    ensures a * c < b * c
  {
  }

  lemma MulLeft(a: real, b: real, c: real)
    requires 0.0 <= a && b <= c
    ensures a * b <= a * c
  {
  }

  /** Rows `drawStart` to `drawEnd`, both inclusive, hold the wall. */
  datatype Strip = Strip(drawStart: int, drawEnd: int)

  /** `draw_start = -line_h / 2 + WIN_H / 2` and `draw_end = line_h / 2 + WIN_H / 2`,
      then clipped to the screen: the band of half-height `line_h / 2` centred on
      row `WIN_H / 2`. */
  function StripOf(winH: int, lineH: int): (s: Strip)
    requires 1 <= winH && 0 <= lineH
    ensures 0 <= s.drawStart <= winH / 2 <= s.drawEnd <= winH - 1
    ensures s.drawStart == if winH / 2 < lineH / 2 then 0 else winH / 2 - lineH / 2
    ensures s.drawEnd == if winH - 1 < winH / 2 + lineH / 2 then winH - 1 else winH / 2 + lineH / 2
  {
    var start := CDiv(-lineH, 2) + winH / 2;
    var end := lineH / 2 + winH / 2;
    Strip(if start < 0 then 0 else start, if end >= winH then winH - 1 else end)
  }

  /** A taller strip contains a shorter one. */
  lemma StripNested(winH: int, l1: int, l2: int)
    requires 1 <= winH && 0 <= l1 <= l2
    ensures StripOf(winH, l2).drawStart <= StripOf(winH, l1).drawStart
    ensures StripOf(winH, l1).drawEnd <= StripOf(winH, l2).drawEnd
  {
  }

  /** As the distance grows the wall's rows shrink: the strip of a farther wall
      lies inside the strip of a nearer one. */
  lemma FartherWallNarrowerStrip(winH: int, d1: real, d2: real)
    requires 1 <= winH && d1 <= d2
    ensures var s1 := StripOf(winH, LineHeight(winH, ClampDistance(d1)));
      var s2 := StripOf(winH, LineHeight(winH, ClampDistance(d2)));
      s1.drawStart <= s2.drawStart && s2.drawEnd <= s1.drawEnd
  {
    ClampDistanceMonotone(d1, d2);
    LineHeightAntitone(winH, ClampDistance(d1), ClampDistance(d2));
    StripNested(winH, LineHeight(winH, ClampDistance(d2)), LineHeight(winH, ClampDistance(d1)));
  }

  /** `tex_x = (int)(wall_x * w)`: the texture column the hit point falls in. */
  function TexColumn(wallX: real, w: int): (tx: int)
    requires 0.0 <= wallX < 1.0 && 1 <= w
    ensures 0 <= tx < w
    ensures tx as real <= wallX * w as real < (tx + 1) as real
  {
    MulRightStrict(wallX, 1.0, w as real);
    MulRight(0.0, wallX, w as real);
    Trunc(wallX * w as real)
  }

  /** `w - tex_x - 1`: the same column counted from the other edge. */
  function Mirror(w: int, tx: int): (r: int)
    requires 0 <= tx < w
    ensures 0 <= r < w
    ensures r + tx == w - 1
  {
    w - tx - 1
  }

  lemma MirrorInvolution(w: int, tx: int)
    requires 0 <= tx < w
    ensures Mirror(w, Mirror(w, tx)) == tx
  {
  }

  /** `step = tex_h / line_h`: texture rows per screen row. For `line_h == 0` the
      C code divides by zero; the model uses 0 there. */
  function TexStep(texH: int, lineH: int): (step: real)
    requires 1 <= texH && 0 <= lineH
    ensures 0.0 <= step
    ensures 0 < lineH ==> step * lineH as real == texH as real
  {
    if lineH == 0 then 0.0 else texH as real / lineH as real
  }

  /** `tex_pos` at the first drawn row: the texture rows that the clip at the
      top of the screen cut off. It is 0 when nothing was cut. */
  function TexStart(winH: int, lineH: int, step: real): (t: real)
    requires 1 <= winH && 0 <= lineH && 0.0 <= step
    ensures 0.0 <= t
    ensures lineH / 2 <= winH / 2 ==> t == 0.0
  {
    var top := StripOf(winH, lineH).drawStart - winH / 2 + lineH / 2;
    assert 0 <= top;
    (top as real) * step
  }

  /** `tex_pos` when the scan reaches row `y`: the start advanced by one step per
      row drawn. */
  function TexPosAt(winH: int, lineH: int, step: real, y: int): real
    requires 1 <= winH && 0 <= lineH && 0.0 <= step
  {
    TexStart(winH, lineH, step) + ((y - StripOf(winH, lineH).drawStart) as real) * step
  }

  /** Each drawn row advances the scan by one step. */
  lemma TexPosAdvance(winH: int, lineH: int, step: real, y: int)
    requires 1 <= winH && 0 <= lineH && 0.0 <= step
    ensures TexPosAt(winH, lineH, step, y + 1) == TexPosAt(winH, lineH, step, y) + step
  {
    var d := (y - StripOf(winH, lineH).drawStart) as real;
    assert (d + 1.0) * step == d * step + step;
  }

  /** The scan is continuous across the clip: at any row it is the number of
      rows below the unclipped top of the strip, times the step. */
  lemma TexPosFromStripTop(winH: int, lineH: int, step: real, y: int)
    requires 1 <= winH && 0 <= lineH && 0.0 <= step
    ensures TexPosAt(winH, lineH, step, y) == ((y - (winH / 2 - lineH / 2)) as real) * step
  {
    var ds := StripOf(winH, lineH).drawStart;
    var top := ds - winH / 2 + lineH / 2;
    assert (top as real) * step + ((y - ds) as real) * step == ((top + y - ds) as real) * step;
  }

  /** `tex_y = (int)tex_pos & (tex_h - 1)`: always a row of the texture. */
  function TexRow(texPos: real, texH: int): (ty: int)
    requires 1 <= texH
    ensures 0 <= ty < texH
  {
    MaskInt(Trunc(texPos), texH - 1)
  }

  /** For a power-of-two height the mask wraps the row modulo the height. */
  lemma TexRowWraps(texPos: real, k: nat)
    requires k <= 32
    ensures TexRow(texPos, Pow2(k)) == Trunc(texPos) % Pow2(k)
  {
    MaskIntLowBits(Trunc(texPos), k);
  }

  /** When `line_h` is even and the strip is not clipped, `draw_end` is inclusive
      and the strip is `line_h + 1` rows tall, so its last row scans texture row
      `tex_h`, which a power-of-two mask wraps to row 0. */
  lemma EvenStripLastRowWraps(winH: int, lineH: int, k: nat)
    requires 1 <= winH && 2 <= lineH && lineH % 2 == 0 && k <= 32
    requires lineH / 2 <= winH / 2 && winH / 2 + lineH / 2 <= winH - 1
    ensures var s := StripOf(winH, lineH);
      && s.drawEnd - s.drawStart + 1 == lineH + 1
      && TexRow(TexPosAt(winH, lineH, TexStep(Pow2(k), lineH), s.drawEnd), Pow2(k)) == 0
  {
    var t := TexPosAt(winH, lineH, TexStep(Pow2(k), lineH), StripOf(winH, lineH).drawEnd);
    LastRowReachesTexHeight(winH, lineH, Pow2(k));
    assert Trunc(t) == Pow2(k);
    TexRowWraps(t, k);
  }

  /** On an even, unclipped strip the scan reaches `tex_h` exactly at the last row. */
  lemma LastRowReachesTexHeight(winH: int, lineH: int, texH: int)
    requires 1 <= winH && 2 <= lineH && lineH % 2 == 0 && 1 <= texH
    requires lineH / 2 <= winH / 2 && winH / 2 + lineH / 2 <= winH - 1
    ensures TexPosAt(winH, lineH, TexStep(texH, lineH), StripOf(winH, lineH).drawEnd) == texH as real
  {
    var step := TexStep(texH, lineH);
    var de := StripOf(winH, lineH).drawEnd;
    TexPosFromStripTop(winH, lineH, step, de);
    assert de - (winH / 2 - lineH / 2) == lineH;
  }
}
