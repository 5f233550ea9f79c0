/** The keyword adapter `recognizeWithMobileNet` over the external image
    classifier. The classifier itself is not modelled: its presence and what
    `classify` produced for the frame are given. */
module ClassifierAdapter {
  import opened Frame
  import opened Text

  /** One entry of `model.classify(image, 5)`. */
  datatype Prediction = Prediction(className: string, probability: real)

  /** What `model.classify` did for this frame: threw, or returned a ranked list. */
  datatype ClassifyOutcome = Threw | Returned(predictions: seq<Prediction>)

  /** The lazily loaded classifier: absent until loading has succeeded. */
  datatype ClassifierState = NotLoaded | Loaded(outcome: ClassifyOutcome)

  const BrainKeywords: seq<string> := ["brain", "head", "skull", "cerebrum", "neuron", "neural"]

  /** The lower-cased class name includes one of the brain keywords. */
  predicate MentionsBrain(className: string) {
    exists j :: 0 <= j < |BrainKeywords| && Contains(Lower(className), BrainKeywords[j])
  }

  /** `highestBrainScore` and `brainPrediction`. */
  datatype BrainBest = BrainBest(score: real, className: string)

  /** The running maximum after the first `n` predictions: a brain-related
      prediction replaces it only when strictly more probable. */
  function BestBrain(predictions: seq<Prediction>, n: nat): BrainBest
    requires n <= |predictions|
  {
    if n == 0 then BrainBest(0.0, "")
    else
      var best := BestBrain(predictions, n - 1);
      var p := predictions[n - 1];
      if MentionsBrain(p.className) && p.probability > best.score
      then BrainBest(p.probability, Lower(p.className))
      else best
  }

  /** A brain-related prediction among the first `n`. */
  predicate BrainAt(predictions: seq<Prediction>, i: int) {
    0 <= i < |predictions| && MentionsBrain(predictions[i].className)
  }

  /** The running maximum is the largest probability of a brain-related
      prediction (0 when there is none above 0), and it comes from the FIRST
      prediction reaching that probability. */
  lemma {:induction false} BestBrainIsFirstMaximum(predictions: seq<Prediction>, n: nat)
    requires n <= |predictions|
    ensures BestBrain(predictions, n).score >= 0.0
    ensures forall i :: 0 <= i < n && BrainAt(predictions, i) ==>
              predictions[i].probability <= BestBrain(predictions, n).score
    ensures BestBrain(predictions, n).score > 0.0 ==>
              exists i :: 0 <= i < n && BrainAt(predictions, i)
                && predictions[i].probability == BestBrain(predictions, n).score
                && BestBrain(predictions, n).className == Lower(predictions[i].className)
                && forall j :: 0 <= j < i && BrainAt(predictions, j) ==>
                     predictions[j].probability < BestBrain(predictions, n).score
  {
    if n > 0 {
      BestBrainIsFirstMaximum(predictions, n - 1);
      var best := BestBrain(predictions, n - 1);
      var p := predictions[n - 1];
      if MentionsBrain(p.className) && p.probability > best.score {
        assert BrainAt(predictions, n - 1);
      }
    }
  }

  /** The adapter's decision over a returned prediction list. */
  function Adapt(predictions: seq<Prediction>): (res: Recognition)
    ensures res.matched <==> exists i :: BrainAt(predictions, i) && predictions[i].probability > 0.1
    ensures res.matched ==> exists i :: BrainAt(predictions, i) && res.confidence == predictions[i].probability * 100.0
    ensures res.matched ==> forall i :: BrainAt(predictions, i) ==> predictions[i].probability * 100.0 <= res.confidence
    ensures !res.matched && |predictions| > 0 ==> res.confidence == predictions[0].probability * 100.0
    ensures predictions == [] ==> res == Recognition(false, 0.0, NoPredictions)
  {
    var best := BestBrain(predictions, |predictions|);
    BestBrainIsFirstMaximum(predictions, |predictions|);
    if best.score > 0.1 then
      Recognition(true, best.score * 100.0, AiDetected(best.className, best.score * 100.0))
    else if |predictions| > 0 then
      Recognition(false, predictions[0].probability * 100.0,
                  TopPrediction(predictions[0].className, predictions[0].probability * 100.0))
    else
      Recognition(false, 0.0, NoPredictions)
  }

  /** What `recognizeWithMobileNet` resolves to. */
  function Classify(model: ClassifierState): (res: Recognition)
    ensures model.NotLoaded? ==> res == Recognition(false, 0.0, ModelNotLoaded)
    ensures model == Loaded(Threw) ==> res == Recognition(false, 0.0, AiRecognitionFailed)
  {
    match model
    case NotLoaded => Recognition(false, 0.0, ModelNotLoaded)
    case Loaded(Threw) => Recognition(false, 0.0, AiRecognitionFailed)
    case Loaded(Returned(predictions)) => Adapt(predictions)
  }

  /** recognizeWithMobileNet: for each prediction, the first keyword its
      lower-cased name includes decides whether it competes for the maximum. */
  method RecognizeWithMobileNet(model: ClassifierState) returns (res: Recognition)
    ensures res == Classify(model)
  {
    if model.NotLoaded? {
      return Recognition(false, 0.0, ModelNotLoaded);
    }
    if model.outcome.Threw? {
      return Recognition(false, 0.0, AiRecognitionFailed);
    }
    var predictions := model.outcome.predictions;
    var highestBrainScore := 0.0;
    var brainPrediction := "";
    for i := 0 to |predictions|
      invariant BrainBest(highestBrainScore, brainPrediction) == BestBrain(predictions, i)
    {
      var className := Lower(predictions[i].className);
      var probability := predictions[i].probability;
      var j := 0;
      while j < |BrainKeywords|
        invariant 0 <= j <= |BrainKeywords|
        invariant forall m :: 0 <= m < j ==> !Contains(className, BrainKeywords[m])
        invariant BrainBest(highestBrainScore, brainPrediction) == BestBrain(predictions, i)
      {
        if Contains(className, BrainKeywords[j]) {
          if probability > highestBrainScore {
            highestBrainScore := probability;
            brainPrediction := className;
          }
          break;
        }
        j := j + 1;
      }
    }
    if highestBrainScore > 0.1 {
      return Recognition(true, highestBrainScore * 100.0, AiDetected(brainPrediction, highestBrainScore * 100.0));
    }
    if |predictions| > 0 {
      return Recognition(false, predictions[0].probability * 100.0,
                         TopPrediction(predictions[0].className, predictions[0].probability * 100.0));
    }
    return Recognition(false, 0.0, NoPredictions);
  }

  /** With probabilities in [0, 1], as the classifier reports them, the
      adapter's confidence lies in [0, 100]. */
  lemma ClassifyConfidenceBounded(model: ClassifierState)
    requires model.Loaded? && model.outcome.Returned? ==>
               forall i :: 0 <= i < |model.outcome.predictions| ==>
                 0.0 <= model.outcome.predictions[i].probability <= 1.0
    ensures 0.0 <= Classify(model).confidence <= 100.0
  {
    if model.Loaded? && model.outcome.Returned? {
      var predictions := model.outcome.predictions;
      BestBrainIsFirstMaximum(predictions, |predictions|);
    }
  }

  /** A single prediction "Skull" at probability 0.15 unlocks the brain with
      confidence 15, reported under its lower-cased name. */
  lemma SkullExample()
    ensures Adapt([Prediction("Skull", 0.15)]) == Recognition(true, 15.0, AiDetected("skull", 15.0))
  {
    var predictions := [Prediction("Skull", 0.15)];
    assert Lower("Skull") == "skull";
    assert StartsWith("skull", "skull");
    assert Contains(Lower("Skull"), BrainKeywords[2]);
    assert MentionsBrain("Skull");
    assert BestBrain(predictions, 1) == BrainBest(0.15, "skull");
  }
}
