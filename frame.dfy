/** Pixel buffers as the canvas hands them to the recognition engine, the
    counting functions every detector is specified by, and the engine's result. */
module Frame {

  /** One sample of a canvas pixel buffer (a Uint8ClampedArray entry). */
  type byte = x: int | 0 <= x < 256

  /** The red, green and blue samples of one pixel; no detector reads alpha. */
  datatype Rgb = Rgb(r: byte, g: byte, b: byte)

  /** Browser ImageData: width × height pixels in row-major order, four
      samples (R, G, B, A) per pixel. */
  datatype ImageData = ImageData(width: nat, height: nat, data: seq<byte>)
  {
    predicate Valid() {
      |data| == 4 * width * height
    }
  }

  /** `data.length / 4`, the pixel count every detector divides by. */
  function TotalPixels(img: ImageData): (n: nat)
    requires img.Valid()
    ensures n == img.width * img.height
    ensures n > 0 <==> img.width > 0 && img.height > 0
  {
    |img.data| / 4
  }

  /** The pixel whose samples start at `data[4 * k]`. */
  function PixelAt(data: seq<byte>, k: nat): Rgb
    requires k < |data| / 4
  {
    Rgb(data[4 * k], data[4 * k + 1], data[4 * k + 2])
  }

  /** Unweighted mean of the three colour channels, the engine's exposure filter. */
  function Brightness(p: Rgb): real {
    (p.r + p.g + p.b) as real / 3.0
  }

  /** Number of the first `n` pixels of `data` that satisfy `P`: the value a
      detector's `for` loop leaves in its counter. */
  function Count(data: seq<byte>, n: nat, P: Rgb -> bool): (c: nat)
    requires n <= |data| / 4
    ensures c <= n
  {
    if n == 0 then 0
    else Count(data, n - 1, P) + (if P(PixelAt(data, n - 1)) then 1 else 0)
  }

  /** A count is zero exactly when no counted pixel satisfies the predicate. */
  lemma {:induction false} CountZero(data: seq<byte>, n: nat, P: Rgb -> bool)
    requires n <= |data| / 4
    ensures Count(data, n, P) == 0 <==> forall k :: 0 <= k < n ==> !P(PixelAt(data, k))
  {
    if n > 0 {
      CountZero(data, n - 1, P);
    }
  }

  /** Two buffers whose pixels agree on `P` and `Q` pixel by pixel have the same count. */
  lemma {:induction false} CountAgree(d1: seq<byte>, d2: seq<byte>, n: nat, P: Rgb -> bool, Q: Rgb -> bool)
    requires n <= |d1| / 4 && n <= |d2| / 4
    requires forall k :: 0 <= k < n ==> P(PixelAt(d1, k)) == Q(PixelAt(d2, k))
    ensures Count(d1, n, P) == Count(d2, n, Q)
  {
    if n > 0 {
      CountAgree(d1, d2, n - 1, P, Q);
    }
  }

  /** `count / total * 100`, the percentage form of every detector's counter. */
  function Percent(count: nat, total: nat): (pct: real)
    requires total > 0
    ensures pct * total as real == count as real * 100.0
    ensures 0.0 <= pct
    ensures count <= total ==> pct <= 100.0
  {
    (count as real / total as real) * 100.0
  }

  /** A percentage threshold is the integer comparison `count * 100` against
      `t * total`, so no rounding is involved in any detector's decision. */
  lemma PercentCompare(count: nat, total: nat, t: real)
    requires total > 0
    ensures Percent(count, total) > t <==> count as real * 100.0 > t * total as real
    ensures Percent(count, total) < t <==> count as real * 100.0 < t * total as real
  {
    var pct, T := Percent(count, total), total as real;
    if pct > t {
      assert (pct - t) * T > 0.0;
    }
    if pct < t {
      assert (t - pct) * T > 0.0;
    }
    if pct <= t {
      assert (t - pct) * T >= 0.0;
    }
    if pct >= t {
      assert (pct - t) * T >= 0.0;
    }
  }

  /** Percentages of disjoint counters add up. */
  lemma PercentAdd(a: nat, b: nat, total: nat)
    requires total > 0
    ensures Percent(a, total) + Percent(b, total) == Percent(a + b, total)
  {
    var pa, pb, pab, T := Percent(a, total), Percent(b, total), Percent(a + b, total), total as real;
    var d := pa + pb - pab;
    assert d * T == 0.0;
    assert d == (d * T) / T;
  }

  function Min(a: real, b: real): real {
    if a < b then a else b
  }

  function Max(a: real, b: real): real {
    if a > b then a else b
  }

  function Abs(x: int): nat {
    if x < 0 then -x else x
  }

  function AbsReal(x: real): real {
    if x < 0.0 then -x else x
  }

  /** The `detected` text of a result, as the data it is formatted from. */
  datatype Diagnostic =
    | EarthStats(bluePercent: real, greenPercent: real)
    | HeartStats(brightRedPercent: real, darkRedPercent: real, skinPercent: real)
    | BrainFeatures(organColorPercent: real, complexity: real, edgeDensity: real)
    | AiDetected(className: string, score: real)
    | TopPrediction(className: string, score: real)
    | NoPredictions
    | ModelNotLoaded
    | AiRecognitionFailed
    | WithFallback(primary: Diagnostic, fallback: Diagnostic)
    | UnknownTopic

  /** `{ match, confidence, detected }`, what every detector returns. */
  datatype Recognition = Recognition(matched: bool, confidence: real, detected: Diagnostic)
}
