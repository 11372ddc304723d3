/** The classification capability as an oracle, and the observable event trace a
    batch run produces: a progress announcement before each image, the call for
    it, and a pause between calls. Both runners (the browser one and the
    command-line one) emit the same events per image. */
module Traces {
  import opened Common

  /** What the classification capability does for one image: it returns raw text
      or fails with a message. */
  datatype Outcome = Success(text: string) | Failure(message: string)

  /** `Progress(i + 1, n)` is the callback (or console line) before image `i` of
      `n`; `Call(i)` is the classification call for image `i`; `Delay` is the
      rate-limiting pause. */
  datatype Event = Progress(current: nat, total: nat) | Call(index: nat) | Delay

  /** The events for image `i` of `n` whose call ended with `o`: the progress
      announcement, the call, and a pause only after a successful call that is
      not the last one. */
  function StepEvents(i: nat, n: nat, o: Outcome): seq<Event> {
    [Progress(i + 1, n), Call(i)] + (if o.Success? && i < n - 1 then [Delay] else [])
  }

  /** The events for images `lo` up to (excluding) `hi`, one block after another. */
  function Steps(answers: seq<Outcome>, lo: nat, hi: nat): seq<Event>
    requires lo <= hi <= |answers|
    decreases hi - lo
  {
    if lo == hi then [] else StepEvents(lo, |answers|, answers[lo]) + Steps(answers, lo + 1, hi)
  }

  /** The image indices of the calls, in the order they were made. */
  function CallIndices(events: seq<Event>): seq<nat> {
    if |events| == 0 then []
    else (if events[0].Call? then [events[0].index] else []) + CallIndices(events[1..])
  }

  /** The `current` values of the progress announcements, in order. */
  function ProgressMarks(events: seq<Event>): seq<nat> {
    if |events| == 0 then []
    else (if events[0].Progress? then [events[0].current] else []) + ProgressMarks(events[1..])
  }

  function DelayCount(events: seq<Event>): nat {
    if |events| == 0 then 0
    else (if events[0].Delay? then 1 else 0) + DelayCount(events[1..])
  }

  /** Every call for image `k` comes right after the announcement `Progress(k + 1, n)`. */
  ghost predicate ProgressPrecedesCalls(events: seq<Event>, n: nat) {
    forall p :: 0 <= p < |events| && events[p].Call? ==>
      0 < p && events[p - 1] == Progress(events[p].index + 1, n)
  }

  /** Every pause comes right after a successful call that is not the last one. */
  ghost predicate DelaysFollowSuccesses(events: seq<Event>, answers: seq<Outcome>) {
    forall p :: 0 <= p < |events| && events[p].Delay? ==>
      0 < p && events[p - 1].Call? && events[p - 1].index + 1 < |answers|
      && answers[events[p - 1].index].Success?
  }

  /** Every successful call that is not the last one is followed right away by a pause. */
  ghost predicate SuccessesFollowedByDelay(events: seq<Event>, answers: seq<Outcome>) {
    forall p :: (0 <= p < |events| && events[p].Call? && events[p].index + 1 < |answers|
                 && answers[events[p].index].Success?) ==>
      p + 1 < |events| && events[p + 1] == Delay
  }

  /** The pacing rules of a run over `answers`. */
  ghost predicate WellPaced(events: seq<Event>, answers: seq<Outcome>) {
    && ProgressPrecedesCalls(events, |answers|)
    && DelaysFollowSuccesses(events, answers)
    && SuccessesFollowedByDelay(events, answers)
  }

  lemma {:induction false} CallIndicesAppend(a: seq<Event>, b: seq<Event>)
    ensures CallIndices(a + b) == CallIndices(a) + CallIndices(b)
  {
    if |a| > 0 {
      assert (a + b)[1..] == a[1..] + b;
      CallIndicesAppend(a[1..], b);
    } else {
      assert a + b == b;
    }
  }

  lemma {:induction false} ProgressMarksAppend(a: seq<Event>, b: seq<Event>)
    ensures ProgressMarks(a + b) == ProgressMarks(a) + ProgressMarks(b)
  {
    if |a| > 0 {
      assert (a + b)[1..] == a[1..] + b;
      ProgressMarksAppend(a[1..], b);
    } else {
      assert a + b == b;
    }
  }

  lemma {:induction false} DelayCountAppend(a: seq<Event>, b: seq<Event>)
    ensures DelayCount(a + b) == DelayCount(a) + DelayCount(b)
  {
    if |a| > 0 {
      assert (a + b)[1..] == a[1..] + b;
      DelayCountAppend(a[1..], b);
    } else {
      assert a + b == b;
    }
  }

  /** One image's block holds one call and one announcement, and a pause exactly
      when its call succeeded and it is not the last image. */
  lemma StepEventsCounts(i: nat, n: nat, o: Outcome)
    ensures CallIndices(StepEvents(i, n, o)) == [i]
    ensures ProgressMarks(StepEvents(i, n, o)) == [i + 1]
    ensures DelayCount(StepEvents(i, n, o)) == if o.Success? && i < n - 1 then 1 else 0
  {
    var e := StepEvents(i, n, o);
    if o.Success? && i < n - 1 {
      assert e == [Progress(i + 1, n), Call(i), Delay];
      assert e[1..][1..] == [Delay] && e[1..][1..][1..] == [];
      assert CallIndices(e[1..][1..]) == [] && ProgressMarks(e[1..][1..]) == [] && DelayCount(e[1..][1..]) == 1;
    } else {
      assert e == [Progress(i + 1, n), Call(i)];
      assert e[1..][1..] == [];
      assert CallIndices(e[1..][1..]) == [] && ProgressMarks(e[1..][1..]) == [] && DelayCount(e[1..][1..]) == 0;
    }
  }

  /** The pacing rules hold of one image's block. */
  lemma StepEventsPaced(answers: seq<Outcome>, i: nat)
    requires i < |answers|
    ensures WellPaced(StepEvents(i, |answers|, answers[i]), answers)
  {
  }

  /** The pacing rules survive concatenation of two well-paced traces. */
  lemma AppendPaced(a: seq<Event>, b: seq<Event>, answers: seq<Outcome>)
    requires WellPaced(a, answers) && WellPaced(b, answers)
    ensures WellPaced(a + b, answers)
  {
    var ab := a + b;
    forall p | 0 <= p < |ab| && ab[p].Call?
      ensures 0 < p && ab[p - 1] == Progress(ab[p].index + 1, |answers|)
    {
      if p >= |a| {
        assert ab[p] == b[p - |a|];
        assert ab[p - 1] == b[p - |a| - 1];
      }
    }
    forall p | 0 <= p < |ab| && ab[p].Delay?
      ensures 0 < p && ab[p - 1].Call? && ab[p - 1].index + 1 < |answers|
              && answers[ab[p - 1].index].Success?
    {
      if p >= |a| {
        assert ab[p] == b[p - |a|];
        assert ab[p - 1] == b[p - |a| - 1];
      }
    }
    forall p | 0 <= p < |ab| && ab[p].Call? && ab[p].index + 1 < |answers|
      && answers[ab[p].index].Success?
      ensures p + 1 < |ab| && ab[p + 1] == Delay
    {
      if p >= |a| {
        assert ab[p] == b[p - |a|];
        assert ab[p + 1] == b[p - |a| + 1];
      }
    }
  }

  /** Consecutive blocks: the calls are made for `lo, ..., hi - 1` in that order,
      each announced once with `lo + 1, ..., hi`, and the trace is well paced. */
  lemma {:induction false} StepsShape(answers: seq<Outcome>, lo: nat, hi: nat)
    requires lo <= hi <= |answers|
    ensures CallIndices(Steps(answers, lo, hi)) == Range(lo, hi)
    ensures ProgressMarks(Steps(answers, lo, hi)) == Range(lo + 1, hi + 1)
    ensures WellPaced(Steps(answers, lo, hi), answers)
    decreases hi - lo
  {
    if lo < hi {
      var head := StepEvents(lo, |answers|, answers[lo]);
      var rest := Steps(answers, lo + 1, hi);
      StepsShape(answers, lo + 1, hi);
      CallIndicesAppend(head, rest);
      ProgressMarksAppend(head, rest);
      StepEventsCounts(lo, |answers|, answers[lo]);
      StepEventsPaced(answers, lo);
      AppendPaced(head, rest, answers);
    }
  }

  /** With every call succeeding, a run over `n > 0` images pauses exactly `n - 1` times. */
  lemma {:induction false} AllSuccessDelays(answers: seq<Outcome>, lo: nat)
    requires lo < |answers|
    requires forall k :: 0 <= k < |answers| ==> answers[k].Success?
    ensures DelayCount(Steps(answers, lo, |answers|)) == |answers| - 1 - lo
    decreases |answers| - lo
  {
    var head := StepEvents(lo, |answers|, answers[lo]);
    DelayCountAppend(head, Steps(answers, lo + 1, |answers|));
    if lo + 1 < |answers| {
      AllSuccessDelays(answers, lo + 1);
    }
    StepEventsCounts(lo, |answers|, answers[lo]);
  }
}
