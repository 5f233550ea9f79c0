/** The two colour-ratio detectors: `analyzeColorForEarth` (ocean blue and
    land green) and `analyzeShapeForHeart` (bright red, dark red, skin, blue). */
module ColorAnalysis {
  import opened Frame

  /** Pixels with brightness below 30 or above 240 are skipped by both detectors. */
  predicate InBand(p: Rgb) {
    !(Brightness(p) < 30.0 || Brightness(p) > 240.0)
  }

  /** The blue test shared by both detectors (oceans for Earth, exclusion for Heart). */
  predicate BlueDominant(p: Rgb) {
    p.b > p.r + 30 && p.b > p.g + 20 && p.b > 80
  }

  predicate GreenDominant(p: Rgb) {
    p.g > p.r + 20 && p.g > p.b + 20 && p.g > 60
  }

  /** A pixel that increments `blueCount` (Earth) or `bluePixels` (Heart). */
  predicate BluePixel(p: Rgb) {
    InBand(p) && BlueDominant(p)
  }

  /** A pixel that increments `greenCount`. */
  predicate GreenPixel(p: Rgb) {
    InBand(p) && GreenDominant(p)
  }

  // ---------------------------------------------------------------- Earth

  /** The Earth decision from its two counters: match iff more than 8% of
      the frame is ocean blue; confidence is blue% + half of green%, capped at 100. */
  function EarthVerdict(blueCount: nat, greenCount: nat, totalPixels: nat): (res: Recognition)
    requires 0 < totalPixels && blueCount <= totalPixels && greenCount <= totalPixels
    ensures res.matched <==> blueCount * 100 > 8 * totalPixels
    ensures 0.0 <= res.confidence <= 100.0
    ensures blueCount == 0 && greenCount == 0 ==> res.confidence == 0.0
  {
    var bluePercent := Percent(blueCount, totalPixels);
    var greenPercent := Percent(greenCount, totalPixels);
    var earthScore := bluePercent + greenPercent * 0.5;
    PercentCompare(blueCount, totalPixels, 8.0);
    Recognition(bluePercent > 8.0, Min(earthScore, 100.0), EarthStats(bluePercent, greenPercent))
  }

  /** What `analyzeColorForEarth` returns for a frame. */
  function EarthColor(img: ImageData): Recognition
    requires img.Valid() && TotalPixels(img) > 0
  {
    var n := TotalPixels(img);
    EarthVerdict(Count(img.data, n, BluePixel), Count(img.data, n, GreenPixel), n)
  }

  /** analyzeColorForEarth: one pass counting ocean-blue and land-green pixels. */
  method AnalyzeColorForEarth(img: ImageData) returns (res: Recognition)
    requires img.Valid() && TotalPixels(img) > 0
    ensures res == EarthColor(img)
  {
    var data := img.data;
    var totalPixels := |data| / 4;
    var blueCount, greenCount := 0, 0;
    for k := 0 to totalPixels
      invariant blueCount == Count(data, k, BluePixel)
      invariant greenCount == Count(data, k, GreenPixel)
    {
      var r: int, g: int, b: int := data[4 * k], data[4 * k + 1], data[4 * k + 2];
      var brightness := (r + g + b) as real / 3.0;
      if brightness < 30.0 || brightness > 240.0 {
        continue;
      }
      if b > r + 30 && b > g + 20 && b > 80 {
        blueCount := blueCount + 1;
      }
      if g > r + 20 && g > b + 20 && g > 60 {
        greenCount := greenCount + 1;
      }
    }
    res := EarthVerdict(blueCount, greenCount, totalPixels);
  }

  /** Same-sized frames that differ only in pixels both outside the
      brightness band 30..240 get the same Earth result. */
  lemma EarthIgnoresExtremePixels(img1: ImageData, img2: ImageData)
    requires img1.Valid() && img2.Valid() && |img1.data| == |img2.data| && TotalPixels(img1) > 0
    requires forall k :: 0 <= k < TotalPixels(img1) ==>
               PixelAt(img1.data, k) == PixelAt(img2.data, k)
               || (!InBand(PixelAt(img1.data, k)) && !InBand(PixelAt(img2.data, k)))
    ensures EarthColor(img1) == EarthColor(img2)
  {
    var n := TotalPixels(img1);
    CountAgree(img1.data, img2.data, n, BluePixel, BluePixel);
    CountAgree(img1.data, img2.data, n, GreenPixel, GreenPixel);
  }

  /** The Earth verdict depends on the blue pixels alone: frames that agree
      on which pixels are ocean blue agree on `match`, whatever their green. */
  lemma EarthMatchIgnoresGreen(img1: ImageData, img2: ImageData)
    requires img1.Valid() && img2.Valid() && |img1.data| == |img2.data| && TotalPixels(img1) > 0
    requires forall k :: 0 <= k < TotalPixels(img1) ==>
               BluePixel(PixelAt(img1.data, k)) == BluePixel(PixelAt(img2.data, k))
    ensures EarthColor(img1).matched == EarthColor(img2).matched
  {
    CountAgree(img1.data, img2.data, TotalPixels(img1), BluePixel, BluePixel);
  }

  /** A frame without a single ocean-blue or land-green pixel is not Earth
      and scores confidence 0. */
  lemma EarthNoSignal(img: ImageData)
    requires img.Valid() && TotalPixels(img) > 0
    requires forall k :: 0 <= k < TotalPixels(img) ==>
               !BluePixel(PixelAt(img.data, k)) && !GreenPixel(PixelAt(img.data, k))
    ensures !EarthColor(img).matched && EarthColor(img).confidence == 0.0
  {
    CountZero(img.data, TotalPixels(img), BluePixel);
    CountZero(img.data, TotalPixels(img), GreenPixel);
  }

  // ---------------------------------------------------------------- Heart

  predicate BrightRed(p: Rgb) {
    p.r > 120 && p.r > p.g + 40 && p.r > p.b + 40 && p.g < 100 && p.b < 100
  }

  predicate DarkRed(p: Rgb) {
    p.r > 80 && p.r < 150 && p.r > p.g + 30 && p.r > p.b + 30 && p.g < 80 && p.b < 80
  }

  predicate SkinTone(p: Rgb) {
    p.r > 140 && p.g > 100 && p.b > 80 && p.r - p.g < 50 && p.r - p.b < 80
  }

  predicate BrightRedPixel(p: Rgb) {
    InBand(p) && BrightRed(p)
  }

  predicate DarkRedPixel(p: Rgb) {
    InBand(p) && DarkRed(p)
  }

  predicate SkinPixel(p: Rgb) {
    InBand(p) && SkinTone(p)
  }

  /** The Heart decision from its four counters: match iff total red > 5%,
      bright red > 2%, skin < 70% and blue < 10%; confidence is twice the
      total red percentage, capped at 100. */
  function HeartVerdict(brightRed: nat, darkRed: nat, skin: nat, blue: nat, totalPixels: nat): (res: Recognition)
    requires 0 < totalPixels
    requires brightRed <= totalPixels && darkRed <= totalPixels && skin <= totalPixels && blue <= totalPixels
    ensures res.matched <==>
              (brightRed + darkRed) * 100 > 5 * totalPixels && brightRed * 100 > 2 * totalPixels
              && skin * 100 < 70 * totalPixels && blue * 100 < 10 * totalPixels
    ensures 0.0 <= res.confidence <= 100.0
    ensures brightRed == 0 && darkRed == 0 ==> !res.matched && res.confidence == 0.0
  {
    var brightRedPercent := Percent(brightRed, totalPixels);
    var darkRedPercent := Percent(darkRed, totalPixels);
    var bluePercent := Percent(blue, totalPixels);
    var skinPercent := Percent(skin, totalPixels);
    var totalRedPercent := brightRedPercent + darkRedPercent;
    PercentAdd(brightRed, darkRed, totalPixels);
    PercentCompare(brightRed + darkRed, totalPixels, 5.0);
    PercentCompare(brightRed, totalPixels, 2.0);
    PercentCompare(skin, totalPixels, 70.0);
    PercentCompare(blue, totalPixels, 10.0);
    var isHeart := totalRedPercent > 5.0 && brightRedPercent > 2.0 && skinPercent < 70.0 && bluePercent < 10.0;
    Recognition(isHeart, Min(totalRedPercent * 2.0, 100.0), HeartStats(brightRedPercent, darkRedPercent, skinPercent))
  }

  /** What `analyzeShapeForHeart` returns for a frame. */
  function HeartColor(img: ImageData): Recognition
    requires img.Valid() && TotalPixels(img) > 0
  {
    var n := TotalPixels(img);
    HeartVerdict(Count(img.data, n, BrightRedPixel), Count(img.data, n, DarkRedPixel),
                 Count(img.data, n, SkinPixel), Count(img.data, n, BluePixel), n)
  }

  /** analyzeShapeForHeart: one pass with four counters. */
  method AnalyzeShapeForHeart(img: ImageData) returns (res: Recognition)
    requires img.Valid() && TotalPixels(img) > 0
    ensures res == HeartColor(img)
  {
    var data := img.data;
    var totalPixels := |data| / 4;
    var brightRedPixels, darkRedPixels, bluePixels, skinTonePixels := 0, 0, 0, 0;
    for k := 0 to totalPixels
      invariant brightRedPixels == Count(data, k, BrightRedPixel)
      invariant darkRedPixels == Count(data, k, DarkRedPixel)
      invariant skinTonePixels == Count(data, k, SkinPixel)
      invariant bluePixels == Count(data, k, BluePixel)
    {
      var r: int, g: int, b: int := data[4 * k], data[4 * k + 1], data[4 * k + 2];
      var brightness := (r + g + b) as real / 3.0;
      if brightness < 30.0 || brightness > 240.0 {
        continue;
      }
      if r > 120 && r > g + 40 && r > b + 40 && g < 100 && b < 100 {
        brightRedPixels := brightRedPixels + 1;
      }
      if r > 80 && r < 150 && r > g + 30 && r > b + 30 && g < 80 && b < 80 {
        darkRedPixels := darkRedPixels + 1;
      }
      if r > 140 && g > 100 && b > 80 && r - g < 50 && r - b < 80 {
        skinTonePixels := skinTonePixels + 1;
      }
      if b > r + 30 && b > g + 20 && b > 80 {
        bluePixels := bluePixels + 1;
      }
    }
    res := HeartVerdict(brightRedPixels, darkRedPixels, skinTonePixels, bluePixels, totalPixels);
  }

  /** A frame with no pixel passing either red test never matches Heart and
      has confidence 0. */
  lemma HeartNoRed(img: ImageData)
    requires img.Valid() && TotalPixels(img) > 0
    requires forall k :: 0 <= k < TotalPixels(img) ==>
               !BrightRedPixel(PixelAt(img.data, k)) && !DarkRedPixel(PixelAt(img.data, k))
    ensures !HeartColor(img).matched && HeartColor(img).confidence == 0.0
  {
    CountZero(img.data, TotalPixels(img), BrightRedPixel);
    CountZero(img.data, TotalPixels(img), DarkRedPixel);
  }

  /** The two red categories are not exclusive: a pixel such as (130, 50, 50)
      passes both, so it is counted twice in `totalRedPercent`. */
  lemma RedCategoriesOverlap()
    ensures exists p :: BrightRedPixel(p) && DarkRedPixel(p)
  {
    var p := Rgb(130, 50, 50);
    assert BrightRedPixel(p) && DarkRedPixel(p);
  }

  /** The blue exclusion test and the skin test each exclude both red tests. */
  lemma HeartCategoriesExclusive(p: Rgb)
    ensures BluePixel(p) ==> !BrightRedPixel(p) && !DarkRedPixel(p)
    ensures SkinPixel(p) ==> !BrightRedPixel(p) && !DarkRedPixel(p)
  {
  }
}
