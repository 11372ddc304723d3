/** What a browser run guarantees: the counts reconcile with the records and the
    confusion matrix, a fatal failure stops the run before any later image is
    touched, the pauses follow the pacing rule, and worked cases come out as
    expected. */
module BrowserProperties {
  import opened Common
  import opened Text
  import opened Verdicts
  import opened Traces
  import opened BrowserClassifier

  /** Every record's `correct` flag agrees with its prediction and ground truth. */
  predicate ConsistentRecords(rs: seq<ClassificationResult>) {
    forall k :: 0 <= k < |rs| ==> rs[k].correct == IsCorrect(rs[k].prediction, rs[k].groundTruth)
  }

  /** On consistent records the correct ones are the diagonal of the matrix and
      the incorrect ones its off-diagonal. */
  lemma {:induction false} CellsReconcile(rs: seq<ClassificationResult>)
    requires ConsistentRecords(rs)
    ensures Count(rs, TruePositive) + Count(rs, TrueNegative) == Count(rs, Correct)
    ensures Count(rs, FalsePositive) + Count(rs, FalseNegative) == Count(rs, Incorrect)
  {
    if |rs| > 0 {
      assert ConsistentRecords(rs[1..]) by {
        forall k | 0 <= k < |rs| - 1 ensures rs[1..][k] == rs[k + 1] { }
      }
      CellsReconcile(rs[1..]);
      assert rs[0].correct == IsCorrect(rs[0].prediction, rs[0].groundTruth);
    }
  }

  /** The records of a completed run are those `RunExperiment` promises. */
  lemma CompletedRecordsConsistent(images: seq<LabeledImage>, answers: seq<Outcome>)
    requires |answers| == |images|
    requires RunExperiment(images, answers).run.Completed?
    ensures ConsistentRecords(RunExperiment(images, answers).run.value.results)
  {
    var rs := RunExperiment(images, answers).run.value.results;
    forall k | 0 <= k < |rs|
      ensures rs[k].correct == IsCorrect(rs[k].prediction, rs[k].groundTruth)
    {
      assert Describes(rs[k], images[k], answers[k]);
    }
  }

  /** The counts of a completed run reconcile: every image is correct, incorrect
      or unsure; the correct ones are the true positives and negatives; the
      incorrect ones the false positives and negatives; so the four cells and
      the unsure count add up to the number of images. */
  lemma CountsReconcile(images: seq<LabeledImage>, answers: seq<Outcome>)
    requires |answers| == |images|
    requires RunExperiment(images, answers).run.Completed?
    ensures var e := RunExperiment(images, answers).run.value;
      && e.totalImages == |e.results| == |images|
      && e.correct + e.incorrect + e.unsure == e.totalImages
      && e.confusionMatrix.truePositive + e.confusionMatrix.trueNegative == e.correct
      && e.confusionMatrix.falsePositive + e.confusionMatrix.falseNegative == e.incorrect
      && e.confusionMatrix.truePositive + e.confusionMatrix.trueNegative
         + e.confusionMatrix.falsePositive + e.confusionMatrix.falseNegative + e.unsure == |images|
  {
    CompletedRecordsConsistent(images, answers);
    CellsReconcile(RunExperiment(images, answers).run.value.results);
  }

  /** The accuracy of a completed run is the diagonal over the whole matrix for a
      non-empty run, and the literal 0 for an empty one. */
  lemma AccuracyOfRun(images: seq<LabeledImage>, answers: seq<Outcome>)
    requires |answers| == |images|
    requires RunExperiment(images, answers).run.Completed?
    ensures var e := RunExperiment(images, answers).run.value;
      var m := e.confusionMatrix;
      && (|images| == 0 ==> e.accuracy == Zero)
      && (|images| > 0 ==> e.accuracy == Ratio(m.truePositive + m.trueNegative,
            m.truePositive + m.trueNegative + m.falsePositive + m.falseNegative))
      && e.accuracy.num <= e.accuracy.den
  {
    CountsReconcile(images, answers);
  }

  /** An image counts as unsure exactly when its call failed or its answer reads
      as neither yes nor no. */
  lemma UnsureImages(images: seq<LabeledImage>, answers: seq<Outcome>, k: nat)
    requires |answers| == |images| && k < |images|
    requires RunExperiment(images, answers).run.Completed?
    ensures var r := RunExperiment(images, answers).run.value.results[k];
      r.prediction == Unsure <==>
        (answers[k].Failure? || (!AnswersWith(answers[k].text, "yes") && !AnswersWith(answers[k].text, "no")))
  {
    var r := RunExperiment(images, answers).run.value.results[k];
    assert Describes(r, images[k], answers[k]);
    if answers[k].Success? {
      NormalizeMeaning(answers[k].text);
    }
  }

  /** When no record of a non-empty run is decided, the source divides zero by
      zero: the accuracy's denominator is 0 and the matrix is empty. */
  lemma AllUnsureRun(images: seq<LabeledImage>, answers: seq<Outcome>)
    requires |answers| == |images| && 0 < |images|
    requires forall k :: 0 <= k < |answers| ==> answers[k].Failure? && !IsCriticalError(answers[k].message)
    ensures RunExperiment(images, answers).run.Completed?
    ensures var e := RunExperiment(images, answers).run.value;
      && e.unsure == |images| && e.correct == 0 && e.incorrect == 0
      && e.accuracy == Ratio(0, 0)
      && e.confusionMatrix == ConfusionMatrix(0, 0, 0, 0)
  {
    var e := RunExperiment(images, answers).run.value;
    forall k | 0 <= k < |images| ensures e.results[k].prediction == Unsure {
      assert Describes(e.results[k], images[k], answers[k]);
    }
    CountsReconcile(images, answers);
    AllUndecided(e.results);
  }

  /** On records that are all unsure, only the unsure filter matches. */
  lemma {:induction false} AllUndecided(rs: seq<ClassificationResult>)
    requires forall k :: 0 <= k < |rs| ==> rs[k].prediction == Unsure
    ensures Count(rs, Undecided) == |rs|
    ensures Count(rs, TruePositive) == 0 && Count(rs, TrueNegative) == 0
    ensures Count(rs, FalsePositive) == 0 && Count(rs, FalseNegative) == 0
  {
    if |rs| > 0 {
      AllUndecided(rs[1..]);
      assert rs[0].prediction == Unsure;
    }
  }

  /** A run calls the images in order, announcing each with its one-based
      position, and calls nothing after a fatal failure: a completed run made a
      call for every image, an aborted one for exactly the images up to and
      including the failing one. */
  lemma CallsStopAtFatal(images: seq<LabeledImage>, answers: seq<Outcome>)
    requires |answers| == |images|
    ensures var t := RunExperiment(images, answers);
      && (t.run.Completed? ==> CallIndices(t.events) == Range(0, |images|))
      && (t.run.Fatal? ==> CallIndices(t.events) == Range(0, t.run.index + 1))
      && (t.run.Fatal? ==> forall p :: 0 <= p < |t.events| && t.events[p].Call? ==> t.events[p].index <= t.run.index)
      && ProgressMarks(t.events) == Range(1, Processed(t.run, |images|) + 1)
  {
    var t := RunExperiment(images, answers);
    StepsShape(answers, 0, Processed(t.run, |images|));
    if t.run.Fatal? {
      forall p | 0 <= p < |t.events| && t.events[p].Call?
        ensures t.events[p].index <= t.run.index
      {
        CallIndexBound(t.events, p, t.run.index);
      }
    }
  }

  /** A call event's index appears among the trace's call indices. */
  lemma {:induction false} CallIndexBound(events: seq<Event>, p: nat, last: nat)
    requires p < |events| && events[p].Call?
    requires CallIndices(events) == Range(0, last + 1)
    ensures events[p].index <= last
  {
    CallIndexListed(events, p);
  }

  lemma {:induction false} CallIndexListed(events: seq<Event>, p: nat)
    requires p < |events| && events[p].Call?
    ensures events[p].index in CallIndices(events)
  {
    if p > 0 {
      CallIndexListed(events[1..], p - 1);
      assert events[1..][p - 1] == events[p];
    }
  }

  /** Every run, completed or not, keeps the pacing rules. */
  lemma RunPaced(images: seq<LabeledImage>, answers: seq<Outcome>)
    requires |answers| == |images|
    ensures WellPaced(RunExperiment(images, answers).events, answers)
  {
    StepsShape(answers, 0, Processed(RunExperiment(images, answers).run, |images|));
  }

  /** A run over `n > 0` images whose calls all succeed pauses `n - 1` times. */
  lemma SuccessfulRunDelays(images: seq<LabeledImage>, answers: seq<Outcome>)
    requires |answers| == |images| && 0 < |images|
    requires forall k :: 0 <= k < |answers| ==> answers[k].Success?
    ensures RunExperiment(images, answers).run.Completed?
    ensures DelayCount(RunExperiment(images, answers).events) == |images| - 1
  {
    AllSuccessDelays(answers, 0);
  }

  /** The empty run completes with nothing counted and accuracy 0. */
  lemma EmptyRun()
    ensures var t := RunExperiment([], []);
      && t.run == Completed(ExperimentResults(0, 0, 0, 0, Zero, ConfusionMatrix(0, 0, 0, 0), []))
      && t.events == []
  {
  }

  /** A substring that holds a character absent from `s` does not occur in it. */
  lemma AbsentCharacter(s: string, t: string, j: nat)
    requires j < |t| && forall i :: 0 <= i < |s| ==> s[i] != t[j]
    ensures !Contains(s, t)
  {
  }

  /** A substring longer than `s` does not occur in it. */
  lemma LongerAbsent(s: string, t: string)
    requires |s| < |t|
    ensures !Contains(s, t)
  {
  }

  /** A substring as long as `s` occurs in it only as `s` itself. */
  lemma SameLengthContains(s: string, t: string)
    requires |s| == |t|
    ensures Contains(s, t) <==> s == t
  {
    if Contains(s, t) {
      var i :| OccursAt(s, t, i);
      assert i == 0 && s[0..|t|] == s;
    }
    if s == t {
      assert OccursAt(s, t, 0);
    }
  }

  /** A message of at most twelve characters, with no '4' in it, that is not
      "unauthorized" itself holds none of the markers: the first three are
      longer, "401" needs a '4', and "unauthorized" is twelve characters long. */
  lemma ShortMessageRecoverable(s: string)
    requires |s| <= 12 && s != "unauthorized"
    requires forall i :: 0 <= i < |s| ==> s[i] != '4'
    ensures !IsCriticalError(s)
  {
    LongerAbsent(s, "Incorrect API key");
    LongerAbsent(s, "invalid_api_key");
    LongerAbsent(s, "authentication");
    AbsentCharacter(s, "401", 0);
    if |s| < 12 {
      LongerAbsent(s, "unauthorized");
    } else {
      SameLengthContains(s, "unauthorized");
    }
  }

  /** `includes` is case-sensitive: a capitalised "Unauthorized" does not end the run. */
  lemma CapitalisedUnauthorizedIsRecoverable()
    ensures !IsCriticalError("Unauthorized")
  {
    var s := "Unauthorized";
    assert s[0] != "unauthorized"[0];
    ShortMessageRecoverable(s);
  }

  /** A transport failure is recoverable. */
  lemma TimeoutIsRecoverable()
    ensures !IsCriticalError("timeout")
  {
    ShortMessageRecoverable("timeout");
  }

  /** A message carrying the status code 401 is fatal. */
  lemma StatusCodeIsFatal(prefix: string)
    ensures IsCriticalError(prefix + "401")
  {
    assert OccursAt(prefix + "401", "401", |prefix|);
  }

  const ExampleImages: seq<LabeledImage> :=
    [LabeledImage("a", "/a.jpg", Ai, "a.jpg"),
     LabeledImage("b", "/b.jpg", Real, "b.jpg"),
     LabeledImage("c", "/c.jpg", Ai, "c.jpg")]

  const ExampleAnswers: seq<Outcome> := [Success("Yes"), Success("Yes"), Failure("timeout")]

  /** The worked case has no fatal failure, so it completes. */
  lemma ThreeImageCompletes()
    ensures RunExperiment(ExampleImages, ExampleAnswers).run.Completed?
  {
    TimeoutIsRecoverable();
    assert !CriticalAt(ExampleAnswers, 2);
    assert NoCriticalFrom(ExampleAnswers, 0);
  }

  /** The records of the worked case: a true positive, a false positive, an unsure. */
  lemma ThreeImageRecords()
    ensures RunExperiment(ExampleImages, ExampleAnswers).run.Completed?
    ensures var rs := RunExperiment(ExampleImages, ExampleAnswers).run.value.results;
      && |rs| == 3
      && rs[0].prediction == Yes && rs[0].groundTruth == Ai && rs[0].correct
      && rs[1].prediction == Yes && rs[1].groundTruth == Real && !rs[1].correct
      && rs[2].prediction == Unsure && rs[2].groundTruth == Ai && !rs[2].correct
  {
    ThreeImageCompletes();
    OpensWithYes("Yes");
    var rs := RunExperiment(ExampleImages, ExampleAnswers).run.value.results;
    assert Describes(rs[0], ExampleImages[0], ExampleAnswers[0]);
    assert Describes(rs[1], ExampleImages[1], ExampleAnswers[1]);
    assert Describes(rs[2], ExampleImages[2], ExampleAnswers[2]);
  }

  /** The per-image blocks of the worked case. */
  lemma ExampleSteps()
    ensures Steps(ExampleAnswers, 0, 3)
      == [Progress(1, 3), Call(0), Delay, Progress(2, 3), Call(1), Delay, Progress(3, 3), Call(2)]
  {
    var a := ExampleAnswers;
    var e0 := StepEvents(0, 3, a[0]);
    var e1 := StepEvents(1, 3, a[1]);
    var e2 := StepEvents(2, 3, a[2]);
    assert e0 == [Progress(1, 3), Call(0), Delay];
    assert e1 == [Progress(2, 3), Call(1), Delay];
    assert e2 == [Progress(3, 3), Call(2)];
    assert Steps(a, 2, 3) == e2 + Steps(a, 3, 3) == e2;
    assert Steps(a, 0, 3) == e0 + (e1 + e2);
  }

  /** The events of the worked case: two pauses, none after the failed last call. */
  lemma ThreeImageEvents()
    ensures RunExperiment(ExampleImages, ExampleAnswers).events
      == [Progress(1, 3), Call(0), Delay, Progress(2, 3), Call(1), Delay, Progress(3, 3), Call(2)]
  {
    ExampleSteps();
  }

  /** A tally over three records counts each of them once. */
  lemma CountOfThree(rs: seq<ClassificationResult>, t: Tally)
    requires |rs| == 3
    ensures Count(rs, t) == (if Counts(t, rs[0]) then 1 else 0) + (if Counts(t, rs[1]) then 1 else 0)
                            + (if Counts(t, rs[2]) then 1 else 0)
  {
    var r1 := rs[1..];
    var r2 := r1[1..];
    assert r1[0] == rs[1] && r2[0] == rs[2] && r2[1..] == [];
    assert Count(r2, t) == (if Counts(t, rs[2]) then 1 else 0) + Count(r2[1..], t);
    assert Count(r1, t) == (if Counts(t, rs[1]) then 1 else 0) + Count(r2, t);
  }

  /** The tallies of three records shaped like the worked case. */
  lemma ThreeRecordCounts(rs: seq<ClassificationResult>)
    requires |rs| == 3
    requires rs[0].prediction == Yes && rs[0].groundTruth == Ai && rs[0].correct
    requires rs[1].prediction == Yes && rs[1].groundTruth == Real && !rs[1].correct
    requires rs[2].prediction == Unsure && rs[2].groundTruth == Ai && !rs[2].correct
    ensures var e := Summarize(rs);
      && e.correct == 1 && e.incorrect == 1 && e.unsure == 1
      && e.accuracy == Ratio(1, 2)
      && e.confusionMatrix == ConfusionMatrix(1, 0, 1, 0)
  {
    CountOfThree(rs, Correct);
    CountOfThree(rs, Incorrect);
    CountOfThree(rs, Undecided);
    CountOfThree(rs, TruePositive);
    CountOfThree(rs, TrueNegative);
    CountOfThree(rs, FalsePositive);
    CountOfThree(rs, FalseNegative);
  }

  /** The worked case: an AI image read as Yes, a real image read as Yes, and a
      recoverable failure give one correct, one incorrect and one unsure record,
      accuracy 1/2, one true and one false positive, and two pauses. */
  lemma ThreeImageExample()
    ensures var t := RunExperiment(ExampleImages, ExampleAnswers);
      && t.run.Completed?
      && t.run.value.correct == 1 && t.run.value.incorrect == 1 && t.run.value.unsure == 1
      && t.run.value.accuracy == Ratio(1, 2)
      && t.run.value.confusionMatrix == ConfusionMatrix(1, 0, 1, 0)
      && t.events == [Progress(1, 3), Call(0), Delay, Progress(2, 3), Call(1), Delay, Progress(3, 3), Call(2)]
  {
    ThreeImageRecords();
    ThreeImageEvents();
    ThreeRecordCounts(RunExperiment(ExampleImages, ExampleAnswers).run.value.results);
  }

  /** The fail-fast case: a fatal 401 on image 2 of 5 throws, after calls for
      images 1 and 2 only. */
  lemma FatalOnSecondOfFive(images: seq<LabeledImage>, rest: seq<Outcome>)
    requires |images| == 5 && |rest| == 3
    ensures var answers := [Success("No"), Failure("Request failed with status code 401")] + rest;
      var t := RunExperiment(images, answers);
      && t.run == Fatal("Request failed with status code 401", 1)
      && CallIndices(t.events) == [0, 1]
  {
    var answers := [Success("No"), Failure("Request failed with status code 401")] + rest;
    StatusCodeIsFatal("Request failed with status code ");
    assert "Request failed with status code " + "401" == "Request failed with status code 401";
    assert CriticalAt(answers, 1) && !CriticalAt(answers, 0);
    assert FirstCriticalFrom(answers, 0, 1);
    var t := RunExperiment(images, answers);
    assert t.run.Fatal?;
    CallsStopAtFatal(images, answers);
    assert Range(0, 2) == [0, 1];
  }
}
