# AR topic scanner — recognition engine and landing page

This project models the two pieces of logic in the AR learning app that make decisions:

- **The frame recognition engine of the AR camera** (`src/components/ARCamera.tsx`). Scanning takes a 288 × 288 RGBA crop from the centre of the video. A blank frame (pooled channel standard deviation of 20 or less) is rejected. Otherwise the frame goes to the detector for the selected topic:
  - "Planet Earth": ocean-blue and land-green pixel ratios.
  - "Human Heart": bright-red, dark-red, skin and blue ratios.
  - "Human Brain": the image classifier's keyword adapter, falling back to an organ-colour and edge-density rule and fusing the two.

  Each detector returns `{ match, confidence, detected }`. A match unlocks the 3D viewer.
- **The landing page state** (`src/pages/Index.tsx`): the case-insensitive topic search over the fixed catalogue, and the page state `selectedTopic` / `showCamera` / `showModel` that switches between the list, the camera and the viewer.

Layout, one module per file:

| file | module | contents |
|---|---|---|
| `frame.dfy` | `Frame` | pixel buffers, the generic pixel counter `Count`, percentages, the result type |
| `content.dfy` | `Content` | the blank-frame check |
| `color.dfy` | `ColorAnalysis` | the Earth and Heart colour detectors |
| `shape.dfy` | `ShapeAnalysis` | edge metrics and the shape-based brain rule |
| `text.dfy` | `Text` | `toLowerCase` and `includes` |
| `classifier.dfy` | `ClassifierAdapter` | the keyword adapter over the classifier's predictions |
| `recognizer.dfy` | `Recognizer` | crop arithmetic, blank-frame short cut, topic dispatch and brain fusion |
| `index_page.dfy` | `IndexPage` | the search filter and the page as a class with its handlers |

How the model is built:

- **Detectors.** Each detector is a `method` with the source's loop. It is proved equal to a specification function: a pure count over the buffer (`Count` with a per-pixel predicate) fed into a verdict function. The lemmas state the detector's rule in terms of those counts.
- **Numbers.** JavaScript numbers are modelled as exact reals. Over the reals, every percentage threshold is an integer comparison of counts (`Frame.PercentCompare`). On the 288 × 288 frames the camera produces, no counter lies exactly on a percentage or density threshold (`Recognizer.CameraFrameHasNoTies`). The smallest distance to a threshold is then far larger than double rounding error, so the exact-real decisions are the ones the code takes. That last step is an argument about doubles and is not proved here.
- **Page state.** The page is a class whose handlers update its fields in place.

## Model

| member | source | states |
|---|---|---|
| Frame.TotalPixels | src/components/ARCamera.tsx:73 | `data.length / 4` is width × height, positive exactly when both sides are |
| Frame.Count | src/components/ARCamera.tsx:106-123 | a pixel counter never exceeds the number of pixels visited |
| Frame.CountZero | src/components/ARCamera.tsx:106-123 | a counter is zero iff no visited pixel passes its test |
| Frame.CountAgree | src/components/ARCamera.tsx:106-123 | buffers that agree pixel by pixel on a test give the same count |
| Frame.Percent | src/components/ARCamera.tsx:125-126 | `count / total * 100` times total is 100 × count; it lies in [0, 100] when count ≤ total |
| Frame.PercentCompare | src/components/ARCamera.tsx:128 | a percentage threshold `pct > t` / `pct < t` is exactly `count*100 > t*total` / `< t*total` |
| Frame.PercentAdd | src/components/ARCamera.tsx:319 | adding two percentages is the percentage of the summed counters |
| Content.Scatter | src/components/ARCamera.tsx:86-90 | the accumulated squared deviations are non-negative |
| Content.PooledVariance | src/components/ARCamera.tsx:91 | the pooled variance is non-negative, so `sqrt(v) > 20` is `v > 400` |
| Content.HasSignificantContent | src/components/ARCamera.tsx:69-98 | the two loops return true iff the frame has pixels and pooled variance > 400 |
| Content.UniformChannelSum | src/components/ARCamera.tsx:76-80 | on a one-colour frame each channel sum is n × that channel |
| Content.UniformScatter | src/components/ARCamera.tsx:86-90 | on a one-colour frame the deviations from that colour sum to 0 |
| Content.UniformFrameIsBlank | src/components/ARCamera.tsx:69-98 | a frame with every pixel the same colour is never significant |
| ColorAnalysis.EarthVerdict | src/components/ARCamera.tsx:125-134 | match iff blueCount·100 > 8·totalPixels; confidence in [0, 100]; 0 when neither colour is present |
| ColorAnalysis.AnalyzeColorForEarth | src/components/ARCamera.tsx:100-135 | the loop's counters and result equal the Earth specification on the frame |
| ColorAnalysis.EarthIgnoresExtremePixels | src/components/ARCamera.tsx:111-112 | frames that differ only in pixels outside brightness 30..240 get the same Earth result |
| ColorAnalysis.EarthMatchIgnoresGreen | src/components/ARCamera.tsx:128 | frames with the same blue pixels agree on the match whatever their green |
| ColorAnalysis.EarthNoSignal | src/components/ARCamera.tsx:125-132 | no blue and no green pixel gives no match and confidence 0 |
| ColorAnalysis.HeartVerdict | src/components/ARCamera.tsx:315-337 | match iff red% > 5, bright red% > 2, skin% < 70, blue% < 10 (as integer count comparisons); confidence in [0, 100]; no red gives no match and 0 |
| ColorAnalysis.AnalyzeShapeForHeart | src/components/ARCamera.tsx:273-338 | the loop's four counters and result equal the Heart specification on the frame |
| ColorAnalysis.HeartNoRed | src/components/ARCamera.tsx:294-301 | a frame with no pixel passing either red test never matches and has confidence 0 |
| ColorAnalysis.RedCategoriesOverlap | src/components/ARCamera.tsx:294-301 | some pixel passes both red tests, so it is counted twice in the total red |
| ColorAnalysis.HeartCategoriesExclusive | src/components/ARCamera.tsx:294-312 | a blue pixel or a skin pixel passes neither red test |
| ShapeAnalysis.InteriorNeighbours | src/components/ARCamera.tsx:149-154 | the right and lower neighbours of an interior pixel lie inside the buffer |
| ShapeAnalysis.RowEdgeCount | src/components/ARCamera.tsx:148-167 | a row has at most one edge per column visited, none before column 1 |
| ShapeAnalysis.EdgeRows | src/components/ARCamera.tsx:146-168 | the rows visited have at most (rows visited) × (w − 2) edges |
| ShapeAnalysis.ShapeBounds | src/components/ARCamera.tsx:146-206 | edgeCount ≤ (w−2)(h−2) and < w·h, edge density in [0, 1), complexity = 100 × density |
| ShapeAnalysis.DetectEdgesAndShapes | src/components/ARCamera.tsx:137-170 | the nested loop's edge count and metrics equal the specification on the frame |
| ShapeAnalysis.BrainVerdict | src/components/ARCamera.tsx:242-270 | confidence ≤ 100; ≥ 60 when density > 0.1 and complexity > 8; a match needs more than 1% organ colour |
| ShapeAnalysis.AnalyzeShapeForBrain | src/components/ARCamera.tsx:211-271 | the organ-colour loop and result equal the brain shape specification on the frame |
| ShapeAnalysis.BrainRule | src/components/ARCamera.tsx:253-264 | match iff organ colour > 1% and 0.05 < density < 0.6 (the complexity test is implied); confidence in [0, 100]; ≥ 60 once density > 0.1 |
| ShapeAnalysis.NoEdgesNoBrain | src/components/ARCamera.tsx:146-170 | a frame without a single edge pixel has density 0 and is never a brain |
| Text.Lower | src/pages/Index.tsx:87-88 | lower-casing keeps the length, maps each character and leaves no upper-case letter |
| Text.LowerIdempotent | src/pages/Index.tsx:87-88 | lower-casing twice is lower-casing once |
| Text.ContainsAt | src/pages/Index.tsx:87-88 | `includes` holds iff the needle occurs at some index |
| Text.ContainsEmpty | src/pages/Index.tsx:87-88 | every string includes the empty string |
| ClassifierAdapter.BestBrainIsFirstMaximum | src/components/ARCamera.tsx:353-370 | the running score is ≥ 0, at least every brain-keyword probability, and comes from the first prediction reaching it |
| ClassifierAdapter.Adapt | src/components/ARCamera.tsx:352-390 | match iff some brain-keyword label has probability > 0.1, with confidence 100 × the largest such; otherwise the top prediction's probability × 100; empty list gives `No predictions` |
| ClassifierAdapter.Classify | src/components/ARCamera.tsx:340-394 | no model gives `{false, 0, Model not loaded}`; a throwing classifier gives `{false, 0, AI recognition failed}` |
| ClassifierAdapter.RecognizeWithMobileNet | src/components/ARCamera.tsx:340-395 | the nested keyword loop with `break` returns exactly the adapter's result |
| ClassifierAdapter.ClassifyConfidenceBounded | src/components/ARCamera.tsx:373-390 | with probabilities in [0, 1] the adapter's confidence is in [0, 100] |
| ClassifierAdapter.SkullExample | src/components/ARCamera.tsx:352-379 | a single "Skull" prediction at 0.15 matches with confidence 15 under the name "skull" |
| Recognizer.CameraFrameHasNoTies | src/components/ARCamera.tsx:409 | on a 288 × 288 frame no count gives a percentage of exactly 1, 2, 5, 8, 10 or 70, nor a density of exactly 0.05, 0.08, 0.1 or 0.6 |
| Recognizer.TopicOf | src/components/ARCamera.tsx:443-474 | the chain compares the title exactly: Earth, Brain and Heart each for exactly one title, anything else Unknown |
| Recognizer.CatalogueTopicsDispatch | src/components/ARCamera.tsx:443-474 | every catalogue topic's title reaches its own detector branch, never the unknown-topic one |
| Recognizer.CropOrigin | src/components/ARCamera.tsx:409-415 | the crop is centred on the video and lies inside it when the video is at least 288 on that side |
| Recognizer.Fuse | src/components/ARCamera.tsx:459-467 | a classifier match stands; otherwise the shape rule's match with the larger confidence |
| Recognizer.CaptureAndRecognize | src/components/ARCamera.tsx:433-489 | the blank check and dispatch chain return exactly the recognition outcome of the frame |
| Recognizer.BlankFrameShortCircuits | src/components/ARCamera.tsx:434-438 | the scan ends as blank iff the frame is not significant, and a blank frame never unlocks |
| Recognizer.UniformFrameNeverUnlocks | src/components/ARCamera.tsx:434-438 | a one-colour frame is rejected as blank for every topic |
| Recognizer.UnknownTopicNeverMatches | src/components/ARCamera.tsx:473-475 | an unknown title yields `{false, 0, Unknown topic}` |
| Recognizer.BrainFusion | src/components/ARCamera.tsx:445-470 | brain with a non-matching classifier takes the shape match and the larger confidence; a classifier match stands; without a model the shape rule alone decides |
| Recognizer.ConfidenceBounded | src/components/ARCamera.tsx:440-475 | every completed scan's confidence lies in [0, 100] |
| IndexPage.FilterTopics | src/pages/Index.tsx:86-89 | the result is no longer than the list and holds exactly the topics whose lower-cased title or description includes the lower-cased query |
| IndexPage.FilterIsSubsequence | src/pages/Index.tsx:86-89 | the filtered list keeps the catalogue's order |
| IndexPage.FilterIgnoresCase | src/pages/Index.tsx:86-89 | queries equal up to letter case find the same topics |
| IndexPage.EmptyQueryKeepsAll | src/pages/Index.tsx:86-89 | the empty query keeps every topic |
| IndexPage.Index.CameraVisible | src/pages/Index.tsx:156 | the camera is shown only when `showCamera` is set and a topic is selected |
| IndexPage.Index.ViewerVisible | src/pages/Index.tsx:164 | the viewer is shown only when `showModel` is set and a topic is selected |
| IndexPage.Index.constructor | src/pages/Index.tsx:80-83 | no topic selected, camera and viewer closed, the full catalogue listed |
| IndexPage.Index.HandleSearch | src/pages/Index.tsx:85-97 | the list becomes the filter of the full catalogue, never of the previous list; the "no topics" notice appears iff it is empty, otherwise the count is reported |
| IndexPage.Index.HandleViewAR | src/pages/Index.tsx:99-102 | selects the topic and opens the camera, which becomes visible; the viewer flag and list are unchanged |
| IndexPage.Index.HandleImageRecognized | src/pages/Index.tsx:104-107 | closes the camera and opens the viewer on the same topic |
| IndexPage.Index.HandleCloseModel | src/pages/Index.tsx:109-112 | closes the viewer and clears the topic, so neither camera nor viewer is visible |
| IndexPage.Index.CloseCamera | src/pages/Index.tsx:158 | only the camera flag changes; viewer visibility is what it was |
| IndexPage.VisitTopic | src/pages/Index.tsx:99-112 | choose, recognise and close leads back to the list with nothing selected |

Observations made while stating the rules:

- **Redundant complexity test.** `complexity` is always 100 × `edgeDensity` (`ShapeBounds`). So the brain rule's `complexity > 5` is implied by `edgeDensity > 0.05`, and `complexity > 8` by `edgeDensity > 0.1` (`BrainRule`).
- **Overlapping red tests.** The bright-red and dark-red tests overlap, so a pixel such as (130, 50, 50) adds to both (`RedCategoriesOverlap`). The total red percentage can therefore exceed the share of red pixels.

## Left out

- **Camera and canvas I/O.** Camera start and stop, `drawImage`, `getImageData`, `toDataURL` and the image `onload` wait are browser I/O. The model takes the cropped pixel buffer as input, and `CropOrigin` only states where the crop is taken.
- **The image classifier.** Loading and `classify` are foreign asynchronous calls. Whether the model is loaded and what `classify` returned (a ranked list, or an exception) are parameters (`ClassifierState`).
- **Outer exception.** An exception escaping the recognition block is a flag that yields `RecognitionFailed`.
- **Roundness.** Roundness, the edge centroid and the 2-D `edges` map feed a value that is only logged. They are not modelled, and neither is the claim that roundness is 0 without edges.
- **Unused counter.** `highContrastCount` is computed but never read.
- **Floating point.** Numbers are exact reals; IEEE rounding of the percentages, grey levels, variance and confidences is not modelled. On frames of other sizes a count can sit exactly on a threshold, and there doubles can decide differently from the model. For example, a 260-pixel frame with 12 bright-red and 1 dark-red-only pixel has a red percentage of exactly 5 in the model, so no match. In doubles the sum is 5.000000000000001, so the code matches. The blank check's variance and the gradient test against 25 are compared as reals without such a margin. The reported confidences can differ from the code's in the last bits.
- **Output text.** The `detected` strings are the `Diagnostic` data they are formatted from; `toFixed` formatting is not modelled. Toasts, console logging and the `isScanning` flag are not modelled either.
- **Unicode case.** `toLowerCase` is modelled on ASCII letters only; the catalogue and keywords are ASCII.
- **Empty frame.** For a frame with no pixels the source computes NaN, and NaN > 20 is false. The model returns false directly. Its detectors require at least one pixel, which the blank-frame check guarantees before any detector runs.
- **Search box guard.** The search box ignores queries that are blank after trimming and passes the others untrimmed, so "heart " with a trailing space finds no topic. That component is not part of this model; `HandleSearch` accepts any query as typed.
- **Presentational components.** Cards, hero, backgrounds, quotes, animations and the 3D viewer have no decision logic.
- **Edge comment.** The comment in `detectEdgesAndShapes` names a Sobel operator, but the code takes the difference to the right and lower neighbours only. The model follows the code (`ShapeAnalysis.Gradient`).
