/** The quality resolver of the image handler: a tier name gives a nominal
    box, and the box is fitted to the source's aspect ratio by keeping one
    axis at its nominal value and recomputing the other with `Math.round`.
    Arithmetic is exact: ratios are compared by cross-multiplying. */
module Quality {

  datatype Box = Box(width: int, height: int)

  /** The nominal box of a quality tier; any other name falls back to 1080p. */
  function NominalBox(tier: string): (b: Box)
    ensures b.width > 0 && b.height > 0
    ensures 9 * b.width == 16 * b.height
    ensures tier != "720p" && tier != "2K" && tier != "4K" ==> b == Box(1920, 1080)
  {
    if tier == "720p" then Box(1280, 720)
    else if tier == "1080p" then Box(1920, 1080)
    else if tier == "2K" then Box(2560, 1440)
    else if tier == "4K" then Box(3840, 2160)
    else Box(1920, 1080)
  }

  /** `Math.round(n / d)` for a non-negative quotient: the nearest integer,
      halves rounded up. */
  function RoundHalfUp(n: int, d: int): (q: int)
    requires n >= 0 && d > 0
    ensures q >= 0
    ensures 2 * (d * q) <= 2 * n + d < 2 * (d * q) + 2 * d
  {
    var q := (2 * n + d) / (2 * d);
    DivBounds(2 * n + d, 2 * d);
    q
  }

  lemma DivBounds(x: int, y: int)
    requires x >= 0 && y > 0
    ensures y * (x / y) <= x < y * (x / y) + y
    ensures x / y >= 0
  {
  }

  /** The source is strictly wider than the box (ties are not wider). */
  predicate Wider(box: Box, w: int, h: int) {
    w * box.height > box.width * h
  }

  /** Fits `box` to a `w`×`h` source: a wider source keeps the nominal width
      and gets height `round(width * h / w)`; otherwise the nominal height is
      kept and the width becomes `round(height * w / h)`. */
  function FitToSource(box: Box, w: int, h: int): (r: Box)
    requires box.width > 0 && box.height > 0 && w > 0 && h > 0
    ensures 0 <= r.width <= box.width && 0 <= r.height <= box.height
    ensures Wider(box, w, h) ==> r.width == box.width
    ensures !Wider(box, w, h) ==> r.height == box.height
  {
    if Wider(box, w, h) then
      var height := RoundHalfUp(box.width * h, w);
      assert box.width * h <= w * box.height;
      RoundedBelowBound(box.width * h, w, box.height);
      Box(box.width, height)
    else
      var width := RoundHalfUp(box.height * w, h);
      assert box.height * w <= h * box.width;
      RoundedBelowBound(box.height * w, h, box.width);
      Box(width, box.height)
  }

  /** The recomputed axis is the proportional value rounded half up: for a
      wider source, height = round(width * h / w); otherwise
      width = round(height * w / h). */
  lemma FitRounding(box: Box, w: int, h: int)
    requires box.width > 0 && box.height > 0 && w > 0 && h > 0
    ensures var r := FitToSource(box, w, h);
      Wider(box, w, h) ==> 2 * (w * r.height) <= 2 * (box.width * h) + w < 2 * (w * r.height) + 2 * w
    ensures var r := FitToSource(box, w, h);
      !Wider(box, w, h) ==> 2 * (h * r.width) <= 2 * (box.height * w) + h < 2 * (h * r.width) + 2 * h
  {
  }

  /** Rounding `n / d` cannot exceed an integer bound `b` that `n / d` does not exceed. */
  lemma RoundedBelowBound(n: int, d: int, b: int)
    requires n >= 0 && d > 0 && n <= d * b
    ensures RoundHalfUp(n, d) <= b
  {
    var q := RoundHalfUp(n, d);
    if q > b {
      assert d * q >= d * (b + 1) by { MulMono(d, b + 1, q); }
      assert false;
    }
  }

  lemma MulMono(d: int, a: int, b: int)
    requires d > 0 && a <= b
    ensures d * a <= d * b
  {
  }

  /** The target dimensions for a tier and a source of `w`×`h` pixels. */
  function Resolve(tier: string, w: int, h: int): (r: Box)
    requires w > 0 && h > 0
    ensures r.width <= NominalBox(tier).width && r.height <= NominalBox(tier).height
    ensures r.width == NominalBox(tier).width || r.height == NominalBox(tier).height
  {
    FitToSource(NominalBox(tier), w, h)
  }

  /** The fitted box keeps the source's aspect ratio up to half a pixel on the
      recomputed axis: |width/height - w/h| is at most half a pixel of the
      recomputed side over the kept side. */
  lemma AspectPreserved(box: Box, w: int, h: int)
    requires box.width > 0 && box.height > 0 && w > 0 && h > 0
    ensures var r := FitToSource(box, w, h);
      Wider(box, w, h) ==> -w <= 2 * (w * r.height) - 2 * (r.width * h) <= w
    ensures var r := FitToSource(box, w, h);
      !Wider(box, w, h) ==> -h <= 2 * (h * r.width) - 2 * (r.height * w) <= h
  {
    var r := FitToSource(box, w, h);
    FitRounding(box, w, h);
    if Wider(box, w, h) {
      assert r.width * h == box.width * h;
    } else {
      assert r.height * w == box.height * w;
    }
  }

  /** The nominal boxes of the four tiers and the fallback. */
  lemma TierTable(other: string)
    requires other !in {"720p", "1080p", "2K", "4K"}
    ensures NominalBox("720p") == Box(1280, 720)
    ensures NominalBox("1080p") == Box(1920, 1080)
    ensures NominalBox("2K") == Box(2560, 1440)
    ensures NominalBox("4K") == Box(3840, 2160)
    ensures NominalBox(other) == NominalBox("1080p")
  {
  }

  /** A 3000×2000 source at 720p is not wider than 16:9, so the height stays
      720 and the width becomes round(720 * 1.5) = 1080. */
  lemma Scenario720pLandscape()
    ensures Resolve("720p", 3000, 2000) == Box(1080, 720)
  {
  }

  /** Both axes can end at their nominal value: on an exact 16:9 tie, and also
      for a source that is strictly wider but rounds back to the full height. */
  lemma BothAxesCanBeNominal()
    ensures Resolve("1080p", 3840, 2160) == Box(1920, 1080)
    ensures Wider(NominalBox("1080p"), 19201, 10800)
    ensures Resolve("1080p", 19201, 10800) == Box(1920, 1080)
  {
    assert RoundHalfUp(1080 * 3840, 2160) == 1920;
    assert RoundHalfUp(1920 * 10800, 19201) == 1080;
  }

  /** A very wide source rounds its height down to zero pixels. Sharp refuses
      a zero dimension, so in the program such a run fails at the resize; the
      model lets it, since which call throws is a parameter of the run. */
  lemma ExtremeAspectGivesZeroHeight()
    ensures Resolve("720p", 3000, 1) == Box(1280, 0)
  {
    assert RoundHalfUp(1280 * 1, 3000) == 0;
  }

  /** On a wide source the recomputed height is at least one pixel exactly
      when `w <= 2 * width * h`. */
  lemma WideHeightPositiveIff(box: Box, w: int, h: int)
    requires box.width > 0 && box.height > 0 && w > 0 && h > 0
    requires Wider(box, w, h)
    ensures FitToSource(box, w, h).height >= 1 <==> w <= 2 * box.width * h
  {
    var q := FitToSource(box, w, h).height;
    FitRounding(box, w, h);
    if q == 0 {
      assert 2 * box.width * h + w < 2 * w;
    } else {
      MulMono(2 * w, 1, q);
    }
  }
}
