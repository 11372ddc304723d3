/** The in-browser experiment runner (`BrowserImageClassifier.runExperiment`):
    it walks the labelled images in order, asks the classification capability
    about each, turns authentication failures into a fatal abort and every other
    failure into an Unsure record, and finally aggregates counts, a confusion
    matrix and an accuracy. The capability is the oracle `answers`, one outcome
    per image; the callbacks and pauses become the event trace. */
module BrowserClassifier {
  import opened Common
  import opened Text
  import opened Verdicts
  import opened Traces

  /** `'ai' | 'real'`. */
  datatype GroundTruth = Ai | Real

  /** One labelled input image. */
  datatype LabeledImage = LabeledImage(id: string, url: string, groundTruth: GroundTruth, fileName: string)

  /** `ClassificationResult`: one record per processed image. */
  datatype ClassificationResult = ClassificationResult(
    imageId: string,
    fileName: string,
    prediction: Verdict,
    rawResponse: string,
    groundTruth: GroundTruth,
    correct: bool,
    error: Option<string>)

  datatype ConfusionMatrix = ConfusionMatrix(
    truePositive: nat,
    trueNegative: nat,
    falsePositive: nat,
    falseNegative: nat)

  /** `ExperimentResults` without the timestamp; `accuracy` is a count pair. */
  datatype ExperimentResults = ExperimentResults(
    totalImages: nat,
    correct: nat,
    incorrect: nat,
    unsure: nat,
    accuracy: Ratio,
    confusionMatrix: ConfusionMatrix,
    results: seq<ClassificationResult>)

  /** A run either completes with results or throws the fatal failure it met at `index`. */
  datatype Run = Completed(value: ExperimentResults) | Fatal(message: string, index: nat)

  /** A run together with the events it produced before it returned or threw. */
  datatype RunTrace = RunTrace(run: Run, events: seq<Event>)

  /** The fixed, case-sensitive substrings that mark an authentication failure. */
  const CriticalMarkers: seq<string> :=
    ["Incorrect API key", "invalid_api_key", "authentication", "401", "unauthorized"]

  /** The test in the `catch` block that decides whether a failure ends the run. */
  predicate IsCriticalError(message: string) {
    || Contains(message, "Incorrect API key")
    || Contains(message, "invalid_api_key")
    || Contains(message, "authentication")
    || Contains(message, "401")
    || Contains(message, "unauthorized")
  }

  /** A message is critical exactly when it contains one of the markers. */
  lemma CriticalMeansMarker(message: string)
    ensures IsCriticalError(message) <==>
      exists k :: 0 <= k < |CriticalMarkers| && Contains(message, CriticalMarkers[k])
  {
    if IsCriticalError(message) {
      var k :| 0 <= k < 5 && Contains(message, CriticalMarkers[k]) by {
        if Contains(message, CriticalMarkers[0]) {
        } else if Contains(message, CriticalMarkers[1]) {
        } else if Contains(message, CriticalMarkers[2]) {
        } else if Contains(message, CriticalMarkers[3]) {
        } else {
          assert Contains(message, CriticalMarkers[4]);
        }
      }
    }
  }

  /** The call for image `k` failed with a critical message. */
  predicate CriticalAt(answers: seq<Outcome>, k: nat)
    requires k < |answers|
  {
    answers[k].Failure? && IsCriticalError(answers[k].message)
  }

  /** No call from image `i` on fails critically. */
  predicate NoCriticalFrom(answers: seq<Outcome>, i: nat) {
    forall k :: i <= k < |answers| ==> !CriticalAt(answers, k)
  }

  /** `j` is the first image at or after `i` whose call fails critically. */
  predicate FirstCriticalFrom(answers: seq<Outcome>, i: nat, j: nat) {
    i <= j < |answers| && CriticalAt(answers, j)
    && forall k :: i <= k < j ==> !CriticalAt(answers, k)
  }

  /** "Yes" is correct for an AI image and "No" for a real one; Unsure never is. */
  predicate IsCorrect(prediction: Verdict, truth: GroundTruth) {
    (prediction == Yes && truth == Ai) || (prediction == No && truth == Real)
  }

  /** What the record for `image` must hold when its call ended with `o`. */
  predicate Describes(r: ClassificationResult, image: LabeledImage, o: Outcome) {
    && r.imageId == image.id
    && r.fileName == image.fileName
    && r.groundTruth == image.groundTruth
    && r.correct == IsCorrect(r.prediction, image.groundTruth)
    && match o
       case Success(text) => r.prediction == NormalizePrediction(text) && r.rawResponse == text && r.error == None
       case Failure(message) => r.prediction == Unsure && r.rawResponse == "" && r.error == Some(message)
  }

  /** The record pushed after a successful call. */
  function SuccessRecord(image: LabeledImage, rawResponse: string): (r: ClassificationResult)
    ensures r.correct <==> r.prediction != Unsure && (r.prediction == Yes <==> image.groundTruth == Ai)
  {
    var prediction := NormalizePrediction(rawResponse);
    ClassificationResult(image.id, image.fileName, prediction, rawResponse, image.groundTruth,
                         IsCorrect(prediction, image.groundTruth), None)
  }

  /** The record pushed after a recoverable failure. */
  function ErrorRecord(image: LabeledImage, message: string): ClassificationResult {
    ClassificationResult(image.id, image.fileName, Unsure, "", image.groundTruth, false, Some(message))
  }

  /** The state of the loop from image `i` on: either every remaining image was
      processed, or the run threw at `index`. */
  datatype Walked =
    | Done(records: seq<ClassificationResult>, events: seq<Event>)
    | Aborted(message: string, index: nat, events: seq<Event>)

  function Prepend(r: ClassificationResult, head: seq<Event>, w: Walked): Walked {
    match w
    case Done(records, events) => Done([r] + records, head + events)
    case Aborted(message, index, events) => Aborted(message, index, head + events)
  }

  /** The `for` loop of `runExperiment` from image `i` on. */
  function Walk(images: seq<LabeledImage>, answers: seq<Outcome>, i: nat): (w: Walked)
    requires |answers| == |images| && i <= |images|
    decreases |images| - i
  {
    if i == |images| then Done([], [])
    else
      var head := StepEvents(i, |images|, answers[i]);
      match answers[i]
      case Success(text) => Prepend(SuccessRecord(images[i], text), head, Walk(images, answers, i + 1))
      case Failure(message) =>
        if IsCriticalError(message) then Aborted(message, i, head)
        else Prepend(ErrorRecord(images[i], message), head, Walk(images, answers, i + 1))
  }

  /** The loop finishes exactly when no remaining call fails critically, and
      otherwise throws at the first one that does. */
  lemma {:induction false} WalkStops(images: seq<LabeledImage>, answers: seq<Outcome>, i: nat)
    requires |answers| == |images| && i <= |images|
    ensures Walk(images, answers, i).Done? <==> NoCriticalFrom(answers, i)
    ensures Walk(images, answers, i).Aborted? ==>
      FirstCriticalFrom(answers, i, Walk(images, answers, i).index)
      && answers[Walk(images, answers, i).index] == Failure(Walk(images, answers, i).message)
    decreases |images| - i
  {
    if i < |images| {
      WalkStops(images, answers, i + 1);
      var w := Walk(images, answers, i);
      var rest := Walk(images, answers, i + 1);
      if CriticalAt(answers, i) {
        assert w.Aborted? && w.index == i;
        assert !NoCriticalFrom(answers, i);
      } else {
        assert w.Done? <==> rest.Done?;
        assert NoCriticalFrom(answers, i) <==> NoCriticalFrom(answers, i + 1);
        assert w.Aborted? ==> w.index == rest.index && w.message == rest.message;
      }
    }
  }

  /** A finished loop leaves one record per image, in image order, each
      describing its image and the outcome of its call. */
  lemma {:induction false} WalkRecords(images: seq<LabeledImage>, answers: seq<Outcome>, i: nat)
    requires |answers| == |images| && i <= |images|
    ensures Walk(images, answers, i).Done? ==> |Walk(images, answers, i).records| == |images| - i
    ensures Walk(images, answers, i).Done? ==>
      forall k :: 0 <= k < |images| - i ==>
        Describes(Walk(images, answers, i).records[k], images[i + k], answers[i + k])
    decreases |images| - i
  {
    if i < |images| {
      var w := Walk(images, answers, i);
      var rest := Walk(images, answers, i + 1);
      WalkRecords(images, answers, i + 1);
      if w.Done? {
        assert rest.Done? && w.records == [w.records[0]] + rest.records;
        assert Describes(w.records[0], images[i], answers[i]);
        forall k | 1 <= k < |images| - i
          ensures Describes(w.records[k], images[i + k], answers[i + k])
        {
          assert w.records[k] == rest.records[k - 1];
        }
      }
    }
  }

  /** The loop's events are the per-image blocks of every image it reached. */
  lemma {:induction false} WalkEvents(images: seq<LabeledImage>, answers: seq<Outcome>, i: nat)
    requires |answers| == |images| && i <= |images|
    ensures Walk(images, answers, i).Done? ==> Walk(images, answers, i).events == Steps(answers, i, |images|)
    ensures Walk(images, answers, i).Aborted? ==>
      i <= Walk(images, answers, i).index < |images|
      && Walk(images, answers, i).events == Steps(answers, i, Walk(images, answers, i).index + 1)
    decreases |images| - i
  {
    if i < |images| {
      WalkEvents(images, answers, i + 1);
      var w := Walk(images, answers, i);
      if w.Aborted? && w.index == i {
        assert Steps(answers, i + 1, i + 1) == [];
      }
    }
  }

  /** The filters of the metrics block: the three outcome classes and the four cells. */
  datatype Tally =
    | Correct | Incorrect | Undecided
    | TruePositive | TrueNegative | FalsePositive | FalseNegative

  predicate Counts(t: Tally, r: ClassificationResult) {
    match t
    case Correct => r.correct && r.prediction != Unsure
    case Incorrect => !r.correct && r.prediction != Unsure
    case Undecided => r.prediction == Unsure
    case TruePositive => r.prediction == Yes && r.groundTruth == Ai
    case TrueNegative => r.prediction == No && r.groundTruth == Real
    case FalsePositive => r.prediction == Yes && r.groundTruth == Real
    case FalseNegative => r.prediction == No && r.groundTruth == Ai
  }

  /** `results.filter(...).length` for the filter `t`. */
  function Count(rs: seq<ClassificationResult>, t: Tally): (c: nat)
    ensures c <= |rs|
  {
    if |rs| == 0 then 0 else (if Counts(t, rs[0]) then 1 else 0) + Count(rs[1..], t)
  }

  /** Correct, incorrect and unsure split the records. */
  lemma {:induction false} OutcomeClassesPartition(rs: seq<ClassificationResult>)
    ensures Count(rs, Correct) + Count(rs, Incorrect) + Count(rs, Undecided) == |rs|
  {
    if |rs| > 0 {
      OutcomeClassesPartition(rs[1..]);
    }
  }

  /** The metrics block: counts, confusion matrix and accuracy over the records.
      The accuracy divides by the decided records but guards only the empty run. */
  function Summarize(rs: seq<ClassificationResult>): (e: ExperimentResults)
    ensures e.results == rs && e.totalImages == |rs|
    ensures e.correct + e.incorrect + e.unsure == e.totalImages
    ensures |rs| == 0 ==> e.accuracy == Zero
    ensures |rs| > 0 ==> e.accuracy == Ratio(e.correct, e.correct + e.incorrect)
  {
    var correct := Count(rs, Correct);
    var incorrect := Count(rs, Incorrect);
    var unsure := Count(rs, Undecided);
    OutcomeClassesPartition(rs);
    var accuracy := if |rs| > 0 then Ratio(correct, |rs| - unsure) else Zero;
    var matrix := ConfusionMatrix(Count(rs, TruePositive), Count(rs, TrueNegative),
                                  Count(rs, FalsePositive), Count(rs, FalseNegative));
    ExperimentResults(|rs|, correct, incorrect, unsure, accuracy, matrix, rs)
  }

  /** How many images got their call: all of them, or those up to the fatal one. */
  function Processed(run: Run, n: nat): nat {
    match run
    case Completed(_) => n
    case Fatal(_, index) => index + 1
  }

  /** `runExperiment(images, prompt, delayMs, onProgress)` with the capability
      replaced by `answers`. */
  function RunExperiment(images: seq<LabeledImage>, answers: seq<Outcome>): (t: RunTrace)
    requires |answers| == |images|
    ensures t.run.Completed? <==> NoCriticalFrom(answers, 0)
    ensures t.run.Completed? ==> t.run.value == Summarize(t.run.value.results)
    ensures t.run.Completed? ==> |t.run.value.results| == |images|
    ensures t.run.Completed? ==>
      forall k :: 0 <= k < |images| ==> Describes(t.run.value.results[k], images[k], answers[k])
    ensures t.run.Fatal? ==>
      FirstCriticalFrom(answers, 0, t.run.index) && answers[t.run.index] == Failure(t.run.message)
    ensures Processed(t.run, |images|) <= |images|
    ensures t.events == Steps(answers, 0, Processed(t.run, |images|))
  {
    WalkStops(images, answers, 0);
    WalkRecords(images, answers, 0);
    WalkEvents(images, answers, 0);
    match Walk(images, answers, 0)
    case Done(records, events) => RunTrace(Completed(Summarize(records)), events)
    case Aborted(message, index, events) => RunTrace(Fatal(message, index), events)
  }
}
