/** How the three consumers of a classification treat the same answers. The
    browser runner aborts on an authentication failure and leaves Unsure out of
    both its matrix and its accuracy; the command-line script never aborts and
    tallies Unsure on its own; the offline metrics count Unsure as a miss: a
    false negative for an AI image, a false positive for a real one. */
module Policies {
  import opened Common
  import opened Verdicts
  import opened Traces
  import opened BrowserClassifier
  import BrowserProperties
  import GeneratePredictions
  import VisualizePredictions

  /** The `prediction` strings of browser records, as a prediction file would hold them. */
  function Labels(rs: seq<ClassificationResult>): (ls: seq<string>)
    ensures |ls| == |rs|
    ensures forall k :: 0 <= k < |rs| ==> ls[k] == Label(rs[k].prediction)
  {
    if |rs| == 0 then [] else Labels(rs[..|rs| - 1]) + [Label(rs[|rs| - 1].prediction)]
  }

  /** A tally over records, taken from the back. */
  lemma {:induction false} CountFromBack(rs: seq<ClassificationResult>, t: Tally)
    requires 0 < |rs|
    ensures Count(rs, t) == Count(rs[..|rs| - 1], t) + (if Counts(t, rs[|rs| - 1]) then 1 else 0)
  {
    if |rs| > 1 {
      CountFromBack(rs[1..], t);
      assert rs[1..][..|rs| - 2] == rs[..|rs| - 1][1..];
    }
  }

  /** A tally over a concatenation is the sum of the tallies. */
  lemma {:induction false} CountAppend(a: seq<ClassificationResult>, b: seq<ClassificationResult>, t: Tally)
    ensures Count(a + b, t) == Count(a, t) + Count(b, t)
  {
    if |a| == 0 {
      assert a + b == b;
    } else {
      CountAppend(a[1..], b, t);
      assert (a + b)[1..] == a[1..] + b;
    }
  }

  /** On records of AI images, the offline metrics count the browser's true
      positives as true positives, and its false negatives and its unsure
      records together as false negatives. */
  lemma {:induction false} AiFolderUnsureIsMiss(rs: seq<ClassificationResult>)
    requires forall k :: 0 <= k < |rs| ==> rs[k].groundTruth == Ai
    ensures VisualizePredictions.CountLabel(Labels(rs), "Yes") == Count(rs, TruePositive)
    ensures |rs| - VisualizePredictions.CountLabel(Labels(rs), "Yes")
            == Count(rs, FalseNegative) + Count(rs, Undecided)
    ensures Count(rs, TrueNegative) == 0 && Count(rs, FalsePositive) == 0
  {
    if |rs| > 0 {
      var init := rs[..|rs| - 1];
      var last := rs[|rs| - 1];
      AiFolderUnsureIsMiss(init);
      assert Labels(rs)[..|rs| - 1] == Labels(init);
      CountFromBack(rs, TruePositive);
      CountFromBack(rs, FalseNegative);
      CountFromBack(rs, Undecided);
      CountFromBack(rs, TrueNegative);
      CountFromBack(rs, FalsePositive);
      assert last.groundTruth == Ai;
    }
  }

  /** On records of real images, the offline metrics count the browser's true
      negatives as true negatives, and its false positives and its unsure
      records together as false positives. */
  lemma {:induction false} RealFolderUnsureIsFalseAlarm(rs: seq<ClassificationResult>)
    requires forall k :: 0 <= k < |rs| ==> rs[k].groundTruth == Real
    ensures VisualizePredictions.CountLabel(Labels(rs), "No") == Count(rs, TrueNegative)
    ensures |rs| - VisualizePredictions.CountLabel(Labels(rs), "No")
            == Count(rs, FalsePositive) + Count(rs, Undecided)
    ensures Count(rs, TruePositive) == 0 && Count(rs, FalseNegative) == 0
  {
    if |rs| > 0 {
      var init := rs[..|rs| - 1];
      var last := rs[|rs| - 1];
      RealFolderUnsureIsFalseAlarm(init);
      assert Labels(rs)[..|rs| - 1] == Labels(init);
      CountFromBack(rs, TruePositive);
      CountFromBack(rs, FalseNegative);
      CountFromBack(rs, Undecided);
      CountFromBack(rs, TrueNegative);
      CountFromBack(rs, FalsePositive);
      assert last.groundTruth == Real;
    }
  }

  /** The two accuracies over the same AI and real records share their numerator,
      and the offline one's denominator exceeds the browser one's by exactly the
      unsure records; OfflineAccuracyNoHigher draws the consequence. */
  lemma AccuracyPolicies(aiRecords: seq<ClassificationResult>, realRecords: seq<ClassificationResult>)
    requires forall k :: 0 <= k < |aiRecords| ==> aiRecords[k].groundTruth == Ai
    requires forall k :: 0 <= k < |realRecords| ==> realRecords[k].groundTruth == Real
    requires BrowserProperties.ConsistentRecords(aiRecords + realRecords)
    requires 0 < |aiRecords| + |realRecords|
    ensures var e := Summarize(aiRecords + realRecords);
      var yes := VisualizePredictions.CountLabel(Labels(aiRecords), "Yes");
      var no := VisualizePredictions.CountLabel(Labels(realRecords), "No");
      && yes + no == e.accuracy.num
      && |aiRecords| + |realRecords| == e.accuracy.den + e.unsure
  {
    var rs := aiRecords + realRecords;
    AiFolderUnsureIsMiss(aiRecords);
    RealFolderUnsureIsFalseAlarm(realRecords);
    CountAppend(aiRecords, realRecords, TruePositive);
    CountAppend(aiRecords, realRecords, TrueNegative);
    BrowserProperties.CellsReconcile(rs);
  }

  /** The offline accuracy never exceeds the browser's: both have the numerator
      `yes + no`, and num / (all records) <= num / den is compared without
      division. */
  lemma OfflineAccuracyNoHigher(aiRecords: seq<ClassificationResult>, realRecords: seq<ClassificationResult>)
    requires forall k :: 0 <= k < |aiRecords| ==> aiRecords[k].groundTruth == Ai
    requires forall k :: 0 <= k < |realRecords| ==> realRecords[k].groundTruth == Real
    requires BrowserProperties.ConsistentRecords(aiRecords + realRecords)
    requires 0 < |aiRecords| + |realRecords|
    ensures var e := Summarize(aiRecords + realRecords);
      var yes := VisualizePredictions.CountLabel(Labels(aiRecords), "Yes");
      var no := VisualizePredictions.CountLabel(Labels(realRecords), "No");
      && yes + no == e.accuracy.num
      && e.accuracy.num * e.accuracy.den <= e.accuracy.num * (|aiRecords| + |realRecords|)
  {
    AccuracyPolicies(aiRecords, realRecords);
    var e := Summarize(aiRecords + realRecords);
    NoSmallerShare(e.accuracy.num, e.accuracy.den, |aiRecords| + |realRecords|);
  }

  /** A numerator over a larger denominator is no larger a share. */
  lemma NoSmallerShare(num: nat, den: nat, total: nat)
    requires den <= total
    ensures num * den <= num * total
  {
    assert num * total == num * den + num * (total - den);
  }

  /** The command-line tally of a verdict over predictions that agree, image by
      image, with browser records. */
  lemma {:induction false} TalliesAgree(ps: seq<GeneratePredictions.Prediction>, rs: seq<ClassificationResult>)
    requires |ps| == |rs|
    requires forall k :: 0 <= k < |ps| ==> ps[k].prediction == rs[k].prediction
    ensures GeneratePredictions.CountVerdict(ps, Yes) == Count(rs, TruePositive) + Count(rs, FalsePositive)
    ensures GeneratePredictions.CountVerdict(ps, No) == Count(rs, TrueNegative) + Count(rs, FalseNegative)
    ensures GeneratePredictions.CountVerdict(ps, Unsure) == Count(rs, Undecided)
  {
    if |ps| > 0 {
      assert forall k :: 0 <= k < |ps| - 1 ==> ps[1..][k] == ps[k + 1] && rs[1..][k] == rs[k + 1];
      TalliesAgree(ps[1..], rs[1..]);
      assert ps[0].prediction == rs[0].prediction;
    }
  }

  /** When the browser run completes, the command-line script over the same
      answers reaches the same verdict for every image, and its summary regroups
      the browser's matrix: Yes is a true or false positive, No a true or false
      negative, and the unsure counts coincide. */
  lemma CliAgreesWithCompletedRun(images: seq<LabeledImage>, files: seq<string>, answers: seq<Outcome>)
    requires |images| == |files| == |answers|
    requires RunExperiment(images, answers).run.Completed?
    ensures var e := RunExperiment(images, answers).run.value;
      var cli := GeneratePredictions.RunBatch(files, answers);
      && (forall k :: 0 <= k < |images| ==> cli.predictions[k].prediction == e.results[k].prediction)
      && cli.summary.aiGenerated == e.confusionMatrix.truePositive + e.confusionMatrix.falsePositive
      && cli.summary.realCount == e.confusionMatrix.trueNegative + e.confusionMatrix.falseNegative
      && cli.summary.unsure == e.unsure
      && cli.events == RunExperiment(images, answers).events
  {
    var e := RunExperiment(images, answers).run.value;
    var cli := GeneratePredictions.RunBatch(files, answers);
    forall k | 0 <= k < |images|
      ensures cli.predictions[k].prediction == e.results[k].prediction
    {
      assert Describes(e.results[k], images[k], answers[k]);
      assert GeneratePredictions.Records(cli.predictions[k], files[k], answers[k]);
    }
    TalliesAgree(cli.predictions, e.results);
  }

  /** Where the browser run aborts on an authentication failure, the command-line
      script records that image as Unsure with the message after "ERROR: " and
      goes on to call every remaining file. */
  lemma CliSurvivesFatalFailure(images: seq<LabeledImage>, files: seq<string>, answers: seq<Outcome>)
    requires |images| == |files| == |answers|
    requires RunExperiment(images, answers).run.Fatal?
    ensures var j := RunExperiment(images, answers).run.index;
      var cli := GeneratePredictions.RunBatch(files, answers);
      && j < |files|
      && cli.predictions[j].prediction == Unsure
      && cli.predictions[j].rawResponse == "ERROR: " + RunExperiment(images, answers).run.message
      && CallIndices(cli.events) == Range(0, |files|)
      && CallIndices(RunExperiment(images, answers).events) == Range(0, j + 1)
  {
    var j := RunExperiment(images, answers).run.index;
    var cli := GeneratePredictions.RunBatch(files, answers);
    assert GeneratePredictions.Records(cli.predictions[j], files[j], answers[j]);
    StepsShape(answers, 0, |files|);
    BrowserProperties.CallsStopAtFatal(images, answers);
  }
}
