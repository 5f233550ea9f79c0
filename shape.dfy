/** The structural analyser `detectEdgesAndShapes` and the shape-based brain
    rule `analyzeShapeForBrain` built on it. */
module ShapeAnalysis {
  import opened Frame

  /** ITU-R BT.601 luma, the grey level the edge test compares. */
  function Gray(p: Rgb): real {
    0.299 * p.r as real + 0.587 * p.g as real + 0.114 * p.b as real
  }

  /** The right and lower neighbours of an interior pixel lie inside the frame. */
  lemma InteriorNeighbours(w: nat, h: nat, x: nat, y: nat)
    requires 1 <= x < w - 1 && 1 <= y < h - 1
    ensures y * w + x + 1 < w * h
    ensures y * w + x + w < w * h
  {
    assert (y + 1) * w <= (h - 1) * w;
    assert y * w + w == (y + 1) * w;
    assert (h - 1) * w + w == h * w;
  }

  /** Whether interior pixel (x, y) is marked in `edges`: the absolute grey
      differences to its right and lower neighbours sum to more than 25.
      (The code's comment says Sobel; the code is this two-neighbour difference.) */
  predicate IsEdge(img: ImageData, x: nat, y: nat)
    requires img.Valid()
    requires 1 <= x < img.width - 1 && 1 <= y < img.height - 1
  {
    Gradient(img, x, y) > 25.0
  }

  /** `|gray - grayRight| + |gray - grayDown|` at interior pixel (x, y). */
  function Gradient(img: ImageData, x: nat, y: nat): real
    requires img.Valid()
    requires 1 <= x < img.width - 1 && 1 <= y < img.height - 1
  {
    InteriorNeighbours(img.width, img.height, x, y);
    var k := y * img.width + x;
    var gray := Gray(PixelAt(img.data, k));
    var grayRight := Gray(PixelAt(img.data, k + 1));
    var grayDown := Gray(PixelAt(img.data, k + img.width));
    AbsReal(gray - grayRight) + AbsReal(gray - grayDown)
  }

  /** `max(side - 2, 0)`: how many interior positions 1, ..., side - 2 a
      side of that length has. */
  function InteriorCount(side: int): nat {
    if side <= 2 then 0 else side - 2
  }

  /** Edge pixels among x = 1, ..., xEnd - 1 of interior row y. */
  function RowEdgeCount(img: ImageData, y: nat, xEnd: nat): (c: nat)
    requires img.Valid() && 1 <= y < img.height - 1
    requires xEnd <= 1 || xEnd < img.width
    ensures xEnd <= 1 ==> c == 0
    ensures xEnd > 1 ==> c <= xEnd - 1
  {
    if xEnd <= 1 then 0
    else RowEdgeCount(img, y, xEnd - 1) + (if IsEdge(img, xEnd - 1, y) then 1 else 0)
  }

  /** Edge pixels in rows y = 1, ..., yEnd - 1. */
  function EdgeRows(img: ImageData, yEnd: nat): (c: nat)
    requires img.Valid() && 1 <= img.width
    requires yEnd <= 1 || yEnd < img.height
    ensures yEnd <= 1 ==> c == 0
    ensures yEnd > 1 ==> c <= (yEnd - 1) * InteriorCount(img.width)
  {
    if yEnd <= 1 then 0
    else
      MulStep(yEnd - 2, InteriorCount(img.width));
      EdgeRows(img, yEnd - 1) + RowEdgeCount(img, yEnd - 1, img.width - 1)
  }

  lemma MulStep(a: nat, k: nat)
    ensures (a + 1) * k == a * k + k
  {
  }

  /** `edgeCount`: the edge pixels of the whole frame. */
  function EdgeCount(img: ImageData): nat
    requires img.Valid() && 1 <= img.width && 1 <= img.height
  {
    EdgeRows(img, img.height - 1)
  }

  /** `{ edgeDensity, complexity }` of `detectEdgesAndShapes`; roundness is
      not part of this model. */
  datatype ShapeMetrics = ShapeMetrics(edgeDensity: real, complexity: real)

  /** What `detectEdgesAndShapes` computes for a frame. */
  function Shape(img: ImageData): ShapeMetrics
    requires img.Valid() && TotalPixels(img) > 0
  {
    var density := EdgeCount(img) as real / (img.width * img.height) as real;
    ShapeMetrics(density, density * 100.0)
  }

  /** Only interior pixels can be edges, so there are at most (w-2)(h-2) of
      them, the density lies in [0, 1), and complexity is 100 × density. */
  lemma ShapeBounds(img: ImageData)
    requires img.Valid() && TotalPixels(img) > 0
    ensures EdgeCount(img) <= InteriorCount(img.width) * InteriorCount(img.height)
    ensures EdgeCount(img) < img.width * img.height
    ensures 0.0 <= Shape(img).edgeDensity < 1.0
    ensures Shape(img).complexity == 100.0 * Shape(img).edgeDensity
  {
    var w, h := img.width, img.height;
    var a, b := InteriorCount(w), InteriorCount(h);
    MulMono(b, h, a);
    MulMono(a, w, h);
    var e := EdgeCount(img);
    var area := (w * h) as real;
    RatioBelowOne(e as real, area);
  }

  lemma RatioBelowOne(e: real, area: real)
    requires 0.0 <= e < area
    ensures 0.0 <= e / area < 1.0
  {
  }

  lemma MulMono(a: nat, b: nat, k: nat)
    requires a <= b
    ensures a * k <= b * k
    ensures a < b && k > 0 ==> a * k < b * k
  {
  }

  /** detectEdgesAndShapes: a nested loop over the interior pixels counting
      those whose luma gradient exceeds 25. */
  method DetectEdgesAndShapes(img: ImageData) returns (shape: ShapeMetrics)
    requires img.Valid() && TotalPixels(img) > 0
    ensures shape == Shape(img)
  {
    var width, height := img.width, img.height;
    var edgeCount := 0;
    var y := 1;
    while y < height - 1
      invariant 1 <= y && (y <= 1 || y < height)
      invariant edgeCount == EdgeRows(img, y)
    {
      var x := 1;
      while x < width - 1
        invariant 1 <= x && (x <= 1 || x < width)
        invariant edgeCount == EdgeRows(img, y) + RowEdgeCount(img, y, x)
      {
        var gradient := Gradient(img, x, y);
        if gradient > 25.0 {
          edgeCount := edgeCount + 1;
        }
        x := x + 1;
      }
      assert RowEdgeCount(img, y, x) == RowEdgeCount(img, y, width - 1);
      y := y + 1;
    }
    var edgeDensity := edgeCount as real / (width * height) as real;
    shape := ShapeMetrics(edgeDensity, edgeDensity * 100.0);
  }

  // ---------------------------------------------------------------- Brain

  /** The brain rule skips pixels with brightness below 20 or above 250. */
  predicate InBrainBand(p: Rgb) {
    !(Brightness(p) < 20.0 || Brightness(p) > 250.0)
  }

  /** Dominant red, skin tone, or near-neutral grey of moderate brightness
      (the last admits black-and-white diagrams). */
  predicate OrganColor(p: Rgb) {
    || (p.r > 100 && p.r > p.g && p.r > p.b)
    || (p.r > 120 && p.g > 100 && p.b > 100 && p.r > p.b)
    || (Abs(p.r - p.g) < 20 && Abs(p.r - p.b) < 20 && Abs(p.g - p.b) < 20
        && Brightness(p) > 50.0 && Brightness(p) < 230.0)
  }

  /** A pixel that increments `organColorCount`. */
  predicate OrganPixel(p: Rgb) {
    InBrainBand(p) && OrganColor(p)
  }

  /** The brain decision from the organ-colour counter and the shape metrics. */
  function BrainVerdict(organColorCount: nat, totalPixels: nat, shape: ShapeMetrics): (res: Recognition)
    requires 0 < totalPixels && organColorCount <= totalPixels
    ensures res.confidence <= 100.0
    ensures shape.edgeDensity > 0.1 && shape.complexity > 8.0 ==> res.confidence >= 60.0
    ensures res.matched ==> organColorCount * 100 > totalPixels
  {
    var organColorPercent := Percent(organColorCount, totalPixels);
    PercentCompare(organColorCount, totalPixels, 1.0);
    var isBrain := organColorPercent > 1.0 && shape.edgeDensity > 0.05 && shape.edgeDensity < 0.6
                   && shape.complexity > 5.0;
    var confidence := Min(organColorPercent + shape.complexity * 2.0 + shape.edgeDensity * 100.0, 100.0);
    var confidence' := if shape.edgeDensity > 0.1 && shape.complexity > 8.0 then Max(confidence, 60.0) else confidence;
    Recognition(isBrain, confidence', BrainFeatures(organColorPercent, shape.complexity, shape.edgeDensity))
  }

  /** What `analyzeShapeForBrain` returns for a frame. */
  function BrainShape(img: ImageData): Recognition
    requires img.Valid() && TotalPixels(img) > 0
  {
    var n := TotalPixels(img);
    BrainVerdict(Count(img.data, n, OrganPixel), n, Shape(img))
  }

  /** analyzeShapeForBrain: one pass counting organ-coloured pixels, then the
      edge metrics. */
  method AnalyzeShapeForBrain(img: ImageData) returns (res: Recognition)
    requires img.Valid() && TotalPixels(img) > 0
    ensures res == BrainShape(img)
  {
    var data := img.data;
    var totalPixels := |data| / 4;
    var organColorCount := 0;
    for k := 0 to totalPixels
      invariant organColorCount == Count(data, k, OrganPixel)
    {
      var r: int, g: int, b: int := data[4 * k], data[4 * k + 1], data[4 * k + 2];
      var brightness := (r + g + b) as real / 3.0;
      if brightness < 20.0 || brightness > 250.0 {
        continue;
      }
      if || (r > 100 && r > g && r > b)
         || (r > 120 && g > 100 && b > 100 && r > b)
         || (Abs(r - g) < 20 && Abs(r - b) < 20 && Abs(g - b) < 20 && brightness > 50.0 && brightness < 230.0)
      {
        organColorCount := organColorCount + 1;
      }
    }
    var shape := DetectEdgesAndShapes(img);
    res := BrainVerdict(organColorCount, totalPixels, shape);
  }

  /** On a real frame the rule reads: more than 1% organ colour and an edge
      density strictly between 0.05 and 0.6. The `complexity > 5` test adds
      nothing, since complexity is 100 × density; the confidence lies in
      [0, 100] and is at least 60 once the density exceeds 0.1. */
  lemma BrainRule(img: ImageData)
    requires img.Valid() && TotalPixels(img) > 0
    ensures BrainShape(img).matched <==>
              Count(img.data, TotalPixels(img), OrganPixel) * 100 > TotalPixels(img)
              && 0.05 < Shape(img).edgeDensity < 0.6
    ensures 0.0 <= BrainShape(img).confidence <= 100.0
    ensures Shape(img).edgeDensity > 0.1 ==> BrainShape(img).confidence >= 60.0
  {
    ShapeBounds(img);
    PercentCompare(Count(img.data, TotalPixels(img), OrganPixel), TotalPixels(img), 1.0);
  }

  /** A frame with no edge pixel has edge density 0 and is never a brain. */
  lemma NoEdgesNoBrain(img: ImageData)
    requires img.Valid() && TotalPixels(img) > 0
    requires EdgeCount(img) == 0
    ensures Shape(img).edgeDensity == 0.0 && !BrainShape(img).matched
  {
    ShapeBounds(img);
  }
}
