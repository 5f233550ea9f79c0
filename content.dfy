/** The blank-frame check `hasSignificantContent`: the pooled standard
    deviation of the R, G and B samples must exceed 20. */
module Content {
  import opened Frame

  /** Sample `c` (0 = R, 1 = G, 2 = B) of a pixel. */
  function Channel(p: Rgb, c: nat): byte
    requires c < 3
  {
    if c == 0 then p.r else if c == 1 then p.g else p.b
  }

  /** Sum of channel `c` over the first `n` pixels. */
  function ChannelSum(data: seq<byte>, n: nat, c: nat): int
    requires c < 3 && n <= |data| / 4
  {
    if n == 0 then 0 else ChannelSum(data, n - 1, c) + Channel(PixelAt(data, n - 1), c)
  }

  function Square(x: real): (sq: real)
    ensures sq >= 0.0
  {
    x * x
  }

  /** Sum over the first `n` pixels of the squared deviations of all three
      channels from the means `mr`, `mg`, `mb`. */
  function Scatter(data: seq<byte>, n: nat, mr: real, mg: real, mb: real): (s: real)
    requires n <= |data| / 4
    ensures s >= 0.0
  {
    if n == 0 then 0.0
    else
      var p := PixelAt(data, n - 1);
      Scatter(data, n - 1, mr, mg, mb)
      + Square(p.r as real - mr) + Square(p.g as real - mg) + Square(p.b as real - mb)
  }

  /** Mean of channel `c` over the whole frame (`avgR`, `avgG`, `avgB`). */
  function Mean(img: ImageData, c: nat): real
    requires img.Valid() && c < 3 && TotalPixels(img) > 0
  {
    ChannelSum(img.data, TotalPixels(img), c) as real / TotalPixels(img) as real
  }

  /** The pooled variance `totalVariance / (totalPixels * 3)`. */
  function PooledVariance(img: ImageData): (v: real)
    requires img.Valid() && TotalPixels(img) > 0
    ensures v >= 0.0
  {
    var n := TotalPixels(img);
    Scatter(img.data, n, Mean(img, 0), Mean(img, 1), Mean(img, 2)) / (3 * n) as real
  }

  /** Whether the frame has significant content. `sqrt(v) > 20` is `v > 400`
      because `v >= 0`; an empty buffer gives NaN in the source, and NaN > 20
      is false. */
  predicate Significant(img: ImageData)
    requires img.Valid()
  {
    TotalPixels(img) > 0 && PooledVariance(img) > 400.0
  }

  /** hasSignificantContent: one loop summing each channel, one loop summing
      the squared deviations from the channel means. */
  method HasSignificantContent(img: ImageData) returns (significant: bool)
    requires img.Valid()
    ensures significant == Significant(img)
  {
    var data := img.data;
    var totalPixels := |data| / 4;
    var sumR, sumG, sumB: int := 0, 0, 0;
    for k := 0 to totalPixels
      invariant sumR == ChannelSum(data, k, 0)
      invariant sumG == ChannelSum(data, k, 1)
      invariant sumB == ChannelSum(data, k, 2)
    {
      sumR := sumR + data[4 * k] as int;
      sumG := sumG + data[4 * k + 1] as int;
      sumB := sumB + data[4 * k + 2] as int;
    }
    if totalPixels == 0 {
      return false;
    }
    var avgR := sumR as real / totalPixels as real;
    var avgG := sumG as real / totalPixels as real;
    var avgB := sumB as real / totalPixels as real;

    var totalVariance := 0.0;
    for k := 0 to totalPixels
      invariant totalVariance == Scatter(data, k, avgR, avgG, avgB)
    {
      totalVariance := totalVariance + Square(data[4 * k] as real - avgR);
      totalVariance := totalVariance + Square(data[4 * k + 1] as real - avgG);
      totalVariance := totalVariance + Square(data[4 * k + 2] as real - avgB);
    }
    totalVariance := totalVariance / (totalPixels * 3) as real;
    significant := totalVariance > 400.0;
  }

  /** Every pixel of the first `n` equals `p`. */
  predicate UniformPrefix(data: seq<byte>, n: nat, p: Rgb)
    requires n <= |data| / 4
  {
    forall k :: 0 <= k < n ==> PixelAt(data, k) == p
  }

  lemma {:induction false} UniformChannelSum(data: seq<byte>, n: nat, p: Rgb, c: nat)
    requires c < 3 && n <= |data| / 4 && UniformPrefix(data, n, p)
    ensures ChannelSum(data, n, c) == n * Channel(p, c)
  {
    if n > 0 {
      UniformChannelSum(data, n - 1, p, c);
    }
  }

  lemma {:induction false} UniformScatter(data: seq<byte>, n: nat, p: Rgb)
    requires n <= |data| / 4 && UniformPrefix(data, n, p)
    ensures Scatter(data, n, p.r as real, p.g as real, p.b as real) == 0.0
  {
    if n > 0 {
      UniformScatter(data, n - 1, p);
    }
  }

  lemma MeanOfConstant(n: real, x: real)
    requires n > 0.0
    ensures (n * x) / n == x
  {
  }

  lemma ZeroQuotient(d: real)
    requires d > 0.0
    ensures 0.0 / d == 0.0
  {
  }

  /** A uniform frame (every pixel the same colour) has pooled variance 0,
      so it is rejected as blank, whatever the topic. */
  lemma UniformFrameIsBlank(img: ImageData, p: Rgb)
    requires img.Valid() && UniformPrefix(img.data, TotalPixels(img), p)
    ensures !Significant(img)
  {
    var n := TotalPixels(img);
    if n > 0 {
      forall c | 0 <= c < 3
        ensures Mean(img, c) == Channel(p, c) as real
      {
        UniformChannelSum(img.data, n, p, c);
        MeanOfConstant(n as real, Channel(p, c) as real);
      }
      UniformScatter(img.data, n, p);
      ZeroQuotient(3.0 * n as real);
    }
  }
}
