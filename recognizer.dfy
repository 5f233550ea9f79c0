/** The recognition step of `captureAndRecognize`: centre crop, blank-frame
    check, topic dispatch and the brain fusion rule. */
module Recognizer {
  import opened Frame
  import Content
  import ColorAnalysis
  import ShapeAnalysis
  import opened ClassifierAdapter
  import IndexPage

  /** Side of the square scanning frame, in canvas pixels. */
  const FrameSize: nat := 288

  /** `(cropX, cropY)`: the top-left corner of the scanning frame, centred
      on the video. */
  function CropOrigin(videoWidth: nat, videoHeight: nat): (origin: (real, real))
    ensures origin.0 + FrameSize as real / 2.0 == videoWidth as real / 2.0
    ensures origin.1 + FrameSize as real / 2.0 == videoHeight as real / 2.0
    ensures videoWidth >= FrameSize ==> 0.0 <= origin.0 && origin.0 + FrameSize as real <= videoWidth as real
    ensures videoHeight >= FrameSize ==> 0.0 <= origin.1 && origin.1 + FrameSize as real <= videoHeight as real
  {
    ((videoWidth - FrameSize) as real / 2.0, (videoHeight - FrameSize) as real / 2.0)
  }

  /** On a 288 × 288 frame no counter sits exactly on a percentage or
      density threshold of the detectors: each threshold times 82944 pixels
      is not a whole number. */
  lemma CameraFrameHasNoTies(count: nat)
    ensures var p := Percent(count, FrameSize * FrameSize);
            p != 1.0 && p != 2.0 && p != 5.0 && p != 8.0 && p != 10.0 && p != 70.0
    ensures var d := count as real / (FrameSize * FrameSize) as real;
            d != 0.05 && d != 0.08 && d != 0.1 && d != 0.6
  {
    var n := FrameSize * FrameSize;
    assert n == 82944;
    var p := Percent(count, n);
    assert p * 82944.0 == count as real * 100.0;
  }

  /** The topics the dispatch chain knows, by exact title. */
  datatype Topic = Earth | Brain | Heart | Unknown

  function TopicOf(topicTitle: string): (topic: Topic)
    ensures topic == Earth <==> topicTitle == "Planet Earth"
    ensures topic == Brain <==> topicTitle == "Human Brain"
    ensures topic == Heart <==> topicTitle == "Human Heart"
  {
    if topicTitle == "Planet Earth" then Earth
    else if topicTitle == "Human Brain" then Brain
    else if topicTitle == "Human Heart" then Heart
    else Unknown
  }

  /** Every topic of the catalogue has a detector: its title reaches a
      branch of the dispatch chain, and different topics reach different ones. */
  lemma CatalogueTopicsDispatch()
    ensures forall i :: 0 <= i < |IndexPage.Topics| ==> TopicOf(IndexPage.Topics[i].title) != Unknown
    ensures forall i, j :: 0 <= i < j < |IndexPage.Topics| ==>
              TopicOf(IndexPage.Topics[i].title) != TopicOf(IndexPage.Topics[j].title)
  {
    assert TopicOf(IndexPage.Topics[0].title) == Earth;
    assert TopicOf(IndexPage.Topics[1].title) == Brain;
    assert TopicOf(IndexPage.Topics[2].title) == Heart;
  }

  /** The classifier's result when it did not match, combined with the shape
      rule: the shape rule decides the match, the confidence is the larger one. */
  function Fuse(classified: Recognition, shape: Recognition): (res: Recognition)
    ensures res.matched == (classified.matched || shape.matched)
    ensures classified.matched ==> res == classified
    ensures !classified.matched ==> res.confidence >= classified.confidence && res.confidence >= shape.confidence
    ensures !classified.matched ==> res.confidence == classified.confidence || res.confidence == shape.confidence
  {
    if classified.matched then classified
    else Recognition(shape.matched, Max(classified.confidence, shape.confidence),
                     WithFallback(classified.detected, shape.detected))
  }

  /** How one press of the scan button ends. */
  datatype ScanOutcome =
    | BlankFrame                       // rejected before any detector ran
    | Completed(result: Recognition)   // the dispatch chain produced a result
    | RecognitionFailed                // an exception escaped the recognition block

  /** The dispatch chain on a frame with content. */
  function Dispatch(img: ImageData, topicTitle: string, model: ClassifierState): Recognition
    requires img.Valid() && TotalPixels(img) > 0
  {
    match TopicOf(topicTitle)
    case Earth => ColorAnalysis.EarthColor(img)
    case Brain =>
      if model.Loaded? then Fuse(Classify(model), ShapeAnalysis.BrainShape(img))
      else ShapeAnalysis.BrainShape(img)
    case Heart => ColorAnalysis.HeartColor(img)
    case Unknown => Recognition(false, 0.0, UnknownTopic)
  }

  /** The recognition step for a cropped frame; `thrown` stands for an
      exception raised inside the recognition block by code outside the model. */
  function Recognize(img: ImageData, topicTitle: string, model: ClassifierState, thrown: bool): ScanOutcome
    requires img.Valid()
  {
    if !Content.Significant(img) then BlankFrame
    else if thrown then RecognitionFailed
    else Completed(Dispatch(img, topicTitle, model))
  }

  /** Whether the outcome unlocks the 3D viewer (`onImageRecognized`). */
  predicate Unlocks(outcome: ScanOutcome) {
    outcome.Completed? && outcome.result.matched
  }

  /** The recognition step of captureAndRecognize, running the analysers. */
  method CaptureAndRecognize(img: ImageData, topicTitle: string, model: ClassifierState, thrown: bool)
    returns (outcome: ScanOutcome)
    requires img.Valid()
    ensures outcome == Recognize(img, topicTitle, model, thrown)
  {
    var significant := Content.HasSignificantContent(img);
    if !significant {
      return BlankFrame;
    }
    if thrown {
      return RecognitionFailed;
    }
    var result: Recognition;
    if topicTitle == "Planet Earth" {
      result := ColorAnalysis.AnalyzeColorForEarth(img);
    } else if topicTitle == "Human Brain" && model.Loaded? {
      result := RecognizeWithMobileNet(model);
      if !result.matched {
        var fallbackResult := ShapeAnalysis.AnalyzeShapeForBrain(img);
        result := Recognition(fallbackResult.matched, Max(result.confidence, fallbackResult.confidence),
                              WithFallback(result.detected, fallbackResult.detected));
      }
    } else if topicTitle == "Human Brain" {
      result := ShapeAnalysis.AnalyzeShapeForBrain(img);
    } else if topicTitle == "Human Heart" {
      result := ColorAnalysis.AnalyzeShapeForHeart(img);
    } else {
      result := Recognition(false, 0.0, UnknownTopic);
    }
    return Completed(result);
  }

  /** A blank frame ends the scan before any detector runs, whatever the
      topic, the classifier or the rest of the block would have done. */
  lemma BlankFrameShortCircuits(img: ImageData, topicTitle: string, model: ClassifierState, thrown: bool)
    requires img.Valid()
    ensures Recognize(img, topicTitle, model, thrown) == BlankFrame <==> !Content.Significant(img)
    ensures !Content.Significant(img) ==> !Unlocks(Recognize(img, topicTitle, model, thrown))
  {
  }

  /** A uniformly coloured frame never unlocks a topic. */
  lemma UniformFrameNeverUnlocks(img: ImageData, p: Rgb, topicTitle: string, model: ClassifierState, thrown: bool)
    requires img.Valid() && Content.UniformPrefix(img.data, TotalPixels(img), p)
    ensures Recognize(img, topicTitle, model, thrown) == BlankFrame
  {
    Content.UniformFrameIsBlank(img, p);
  }

  /** A title outside the three topics yields `{ false, 0, 'Unknown topic' }`
      for every frame with content. */
  lemma UnknownTopicNeverMatches(img: ImageData, topicTitle: string, model: ClassifierState)
    requires img.Valid() && Content.Significant(img)
    requires topicTitle !in ["Planet Earth", "Human Brain", "Human Heart"]
    ensures Recognize(img, topicTitle, model, false) == Completed(Recognition(false, 0.0, UnknownTopic))
  {
  }

  /** With a loaded classifier that does not match, "Human Brain" takes its
      match from the shape rule and the larger of the two confidences; with
      no classifier the shape rule alone decides. */
  lemma BrainFusion(img: ImageData, model: ClassifierState)
    requires img.Valid() && Content.Significant(img)
    ensures model.Loaded? && !Classify(model).matched ==>
              var r := Recognize(img, "Human Brain", model, false).result;
              r.matched == ShapeAnalysis.BrainShape(img).matched
              && r.confidence == Max(Classify(model).confidence, ShapeAnalysis.BrainShape(img).confidence)
    ensures model.Loaded? && Classify(model).matched ==>
              Recognize(img, "Human Brain", model, false) == Completed(Classify(model))
    ensures model.NotLoaded? ==>
              Recognize(img, "Human Brain", model, false) == Completed(ShapeAnalysis.BrainShape(img))
  {
  }

  /** Every completed scan reports a confidence in [0, 100], given that the
      classifier's probabilities lie in [0, 1]. */
  lemma ConfidenceBounded(img: ImageData, topicTitle: string, model: ClassifierState, thrown: bool)
    requires img.Valid()
    requires model.Loaded? && model.outcome.Returned? ==>
               forall i :: 0 <= i < |model.outcome.predictions| ==>
                 0.0 <= model.outcome.predictions[i].probability <= 1.0
    ensures Recognize(img, topicTitle, model, thrown).Completed? ==>
              0.0 <= Recognize(img, topicTitle, model, thrown).result.confidence <= 100.0
  {
    if Content.Significant(img) {
      ClassifyConfidenceBounded(model);
      ShapeAnalysis.BrainRule(img);
    }
  }
}
