/** The offline metrics of `scripts/visualize_predictions.py`: a confusion matrix
    per labelled prediction file, the combined matrix and accuracy of a prompt,
    and recall per generation method. Predictions are the `prediction` strings
    of the JSON files the command-line script writes; ground truth is the string
    "Yes" for the AI folder and anything else for the real one. */
module VisualizePredictions {
  import opened Common
  import opened Text
  import opened Verdicts
  import GeneratePredictions

  /** The 2x2 array `[[tn, fp], [fn, tp]]`: rows are the actual class, columns
      the predicted one, index 0 is "No" and 1 is "Yes". */
  datatype Matrix = Matrix(tn: nat, fp: nat, fn: nat, tp: nat)

  /** `cm[i, j]`. */
  function Cell(m: Matrix, i: nat, j: nat): nat
    requires i < 2 && j < 2
  {
    if i == 0 then (if j == 0 then m.tn else m.fp)
    else (if j == 0 then m.fn else m.tp)
  }

  /** `cm.sum()`. */
  function Sum(m: Matrix): nat {
    m.tn + m.fp + m.fn + m.tp
  }

  /** `cm_ai + cm_real`: the element-wise sum. */
  function Add(a: Matrix, b: Matrix): (m: Matrix)
    ensures forall i, j :: 0 <= i < 2 && 0 <= j < 2 ==> Cell(m, i, j) == Cell(a, i, j) + Cell(b, i, j)
    ensures Sum(m) == Sum(a) + Sum(b)
  {
    Matrix(a.tn + b.tn, a.fp + b.fp, a.fn + b.fn, a.tp + b.tp)
  }

  /** How many of the labels equal `wanted`, counted from the front. */
  function CountLabel(labels: seq<string>, wanted: string): (c: nat)
    ensures c <= |labels|
  {
    if |labels| == 0 then 0
    else CountLabel(labels[..|labels| - 1], wanted) + (if labels[|labels| - 1] == wanted then 1 else 0)
  }

  /** Counting one more label of a prefix adds one exactly when it matches. */
  lemma CountLabelExtend(labels: seq<string>, i: nat, wanted: string)
    requires i < |labels|
    ensures CountLabel(labels[..i + 1], wanted)
      == CountLabel(labels[..i], wanted) + (if labels[i] == wanted then 1 else 0)
  {
    assert labels[..i + 1][..i] == labels[..i];
  }

  /** `calculate_confusion_matrix(predictions, ground_truth)`. For the AI folder
      ("Yes") a prediction other than "Yes", "Unsure" included, is a false
      negative; for any other folder a prediction other than "No" is a false
      positive. */
  method CalculateConfusionMatrix(predictions: seq<string>, groundTruth: string) returns (m: Matrix)
    ensures Sum(m) == |predictions|
    ensures groundTruth == "Yes" ==>
      m == Matrix(0, 0, |predictions| - CountLabel(predictions, "Yes"), CountLabel(predictions, "Yes"))
    ensures groundTruth != "Yes" ==>
      m == Matrix(CountLabel(predictions, "No"), |predictions| - CountLabel(predictions, "No"), 0, 0)
  {
    var tp, fp, tn, fn := 0, 0, 0, 0;
    var i := 0;
    while i < |predictions|
      invariant 0 <= i <= |predictions|
      invariant tp + fp + tn + fn == i
      invariant groundTruth == "Yes" ==> tn == 0 && fp == 0 && tp == CountLabel(predictions[..i], "Yes")
      invariant groundTruth != "Yes" ==> tp == 0 && fn == 0 && tn == CountLabel(predictions[..i], "No")
    {
      var prediction := predictions[i];
      CountLabelExtend(predictions, i, "Yes");
      CountLabelExtend(predictions, i, "No");
      if groundTruth == "Yes" {
        if prediction == "Yes" {
          tp := tp + 1;
        } else {
          fn := fn + 1;
        }
      } else {
        if prediction == "No" {
          tn := tn + 1;
        } else {
          fp := fp + 1;
        }
      }
      i := i + 1;
    }
    assert predictions[..i] == predictions;
    m := Matrix(tn, fp, fn, tp);
  }

  /** One prompt's panel of `plot_confusion_matrices`: the AI folder's matrix plus
      the real folder's, and accuracy as the diagonal over the total, with no
      guard (two empty folders divide zero by zero). */
  method PromptConfusion(aiPredictions: seq<string>, realPredictions: seq<string>)
    returns (cm: Matrix, accuracy: Ratio)
    ensures cm == Matrix(CountLabel(realPredictions, "No"), |realPredictions| - CountLabel(realPredictions, "No"),
                         |aiPredictions| - CountLabel(aiPredictions, "Yes"), CountLabel(aiPredictions, "Yes"))
    ensures accuracy == Ratio(CountLabel(aiPredictions, "Yes") + CountLabel(realPredictions, "No"),
                              |aiPredictions| + |realPredictions|)
    ensures accuracy.num <= accuracy.den
  {
    var cmAi := CalculateConfusionMatrix(aiPredictions, "Yes");
    var cmReal := CalculateConfusionMatrix(realPredictions, "No");
    cm := Add(cmAi, cmReal);
    accuracy := Ratio(Cell(cm, 0, 0) + Cell(cm, 1, 1), Sum(cm));
  }

  /** The two fields of a prediction the recall plot reads. */
  datatype Row = Row(filename: string, prediction: string)

  /** A prediction as it reads back from the JSON file the command-line script writes. */
  function RowOf(p: GeneratePredictions.Prediction): Row {
    Row(p.filename, Label(p.prediction))
  }

  /** The rows of a prediction file, in order. */
  function RowsOf(ps: seq<GeneratePredictions.Prediction>): (rows: seq<Row>)
    ensures |rows| == |ps|
  {
    if |ps| == 0 then [] else [RowOf(ps[0])] + RowsOf(ps[1..])
  }

  /** `[p for p in ai_preds if p['filename'].startswith(method)]`. */
  function FilterByPrefix(rows: seq<Row>, prefix: string): (r: seq<Row>)
    ensures |r| <= |rows|
  {
    if |rows| == 0 then []
    else if StartsWith(rows[0].filename, prefix) then [rows[0]] + FilterByPrefix(rows[1..], prefix)
    else FilterByPrefix(rows[1..], prefix)
  }

  /** A row is kept exactly when it is one of the rows and its file name starts
      with the prefix. */
  lemma {:induction false} FilterByPrefixMembers(rows: seq<Row>, prefix: string, x: Row)
    ensures x in FilterByPrefix(rows, prefix) <==> x in rows && StartsWith(x.filename, prefix)
  {
    if |rows| > 0 {
      FilterByPrefixMembers(rows[1..], prefix, x);
      assert rows == [rows[0]] + rows[1..];
    }
  }

  /** Filtering a concatenation filters each part: the filter keeps the order
      and the copies of the rows it keeps. */
  lemma {:induction false} FilterByPrefixAppend(a: seq<Row>, b: seq<Row>, prefix: string)
    ensures FilterByPrefix(a + b, prefix) == FilterByPrefix(a, prefix) + FilterByPrefix(b, prefix)
  {
    if |a| == 0 {
      assert a + b == b;
    } else {
      var keep := StartsWith(a[0].filename, prefix);
      var tail := FilterByPrefix(a[1..], prefix);
      var rest := FilterByPrefix(b, prefix);
      assert (a + b)[0] == a[0] && (a + b)[1..] == a[1..] + b;
      FilterByPrefixAppend(a[1..], b, prefix);
      if keep {
        assert FilterByPrefix(a + b, prefix) == [a[0]] + (tail + rest);
        assert [a[0]] + (tail + rest) == ([a[0]] + tail) + rest;
      } else {
        assert FilterByPrefix(a + b, prefix) == tail + rest;
      }
    }
  }

  /** A single row is kept exactly when its file name starts with the prefix. */
  lemma FilterByPrefixOne(x: Row, prefix: string)
    ensures FilterByPrefix([x], prefix) == if StartsWith(x.filename, prefix) then [x] else []
  {
    assert [x][1..] == [];
  }

  /** How many rows predict "Yes". */
  function CountYes(rows: seq<Row>): (c: nat)
    ensures c <= |rows|
  {
    if |rows| == 0 then 0 else (if rows[0].prediction == "Yes" then 1 else 0) + CountYes(rows[1..])
  }

  /** A prediction file read back has as many "Yes" rows as the script counted
      Yes verdicts. */
  lemma {:induction false} RowsOfCountYes(ps: seq<GeneratePredictions.Prediction>)
    ensures CountYes(RowsOf(ps)) == GeneratePredictions.CountVerdict(ps, Yes)
  {
    if |ps| > 0 {
      RowsOfCountYes(ps[1..]);
      assert RowsOf(ps)[1..] == RowsOf(ps[1..]);
    }
  }

  /** The recall of one generation method: the share of its AI images predicted
      "Yes", and 0 when the generator has no images. */
  function MethodRecall(rows: seq<Row>, generator: string): (r: Ratio)
    ensures 0 < r.den && r.num <= r.den
    ensures r.den == |FilterByPrefix(rows, generator)| || (r == Zero && |FilterByPrefix(rows, generator)| == 0)
    ensures r.num == CountYes(FilterByPrefix(rows, generator))
  {
    var methodRows := FilterByPrefix(rows, generator);
    var correct := CountYes(methodRows);
    var total := |methodRows|;
    if total > 0 then Ratio(correct, total) else Zero
  }

  /** The generation methods in chronological order. */
  const Methods: seq<string> := ["gan", "diffusion1", "diffusion2", "diffusion3", "diffusion4"]

  /** The recalls of the given methods, in order. */
  function Recalls(rows: seq<Row>, names: seq<string>): (rs: seq<Ratio>)
    ensures |rs| == |names|
    ensures forall k :: 0 <= k < |names| ==> rs[k] == MethodRecall(rows, names[k])
  {
    if |names| == 0 then []
    else
      var rest := Recalls(rows, names[1..]);
      assert forall k :: 1 <= k < |names| ==> names[1..][k - 1] == names[k];
      [MethodRecall(rows, names[0])] + rest
  }

  /** The sum of the numerators. */
  function Numerators(rs: seq<Ratio>): nat {
    if |rs| == 0 then 0 else rs[0].num + Numerators(rs[1..])
  }

  /** How many of the names a file name starts with. */
  function Matches(filename: string, names: seq<string>): (c: nat)
    ensures c <= |names|
  {
    if |names| == 0 then 0
    else (if StartsWith(filename, names[0]) then 1 else 0) + Matches(filename, names[1..])
  }

  /** The rows whose file name starts with no method name: the plot counts them
      toward no recall. */
  function Unmatched(rows: seq<Row>): (r: seq<Row>)
    ensures |r| <= |rows|
  {
    if |rows| == 0 then []
    else if Matches(rows[0].filename, Methods) == 0 then [rows[0]] + Unmatched(rows[1..])
    else Unmatched(rows[1..])
  }

  /** The rows of each name, added up over the names. */
  function MethodTotals(rows: seq<Row>, names: seq<string>): nat {
    if |names| == 0 then 0 else |FilterByPrefix(rows, names[0])| + MethodTotals(rows, names[1..])
  }

  /** The "Yes" rows of each name, added up over the names. */
  function MethodYes(rows: seq<Row>, names: seq<string>): nat {
    if |names| == 0 then 0 else CountYes(FilterByPrefix(rows, names[0])) + MethodYes(rows, names[1..])
  }

  /** One prompt's line of `plot_recall_over_time`: the recall of each method,
      in chronological order, each in [0, 1]. No "Yes" row is counted twice: the
      numerators and the "Yes" rows of no method together are all the "Yes"
      rows. */
  function RecallOverTime(rows: seq<Row>): (rs: seq<Ratio>)
    ensures |rs| == |Methods|
    ensures forall k :: 0 <= k < |rs| ==> rs[k] == MethodRecall(rows, Methods[k])
    ensures forall k :: 0 <= k < |rs| ==> 0 < rs[k].den && rs[k].num <= rs[k].den
    ensures Numerators(rs) + CountYes(Unmatched(rows)) == CountYes(rows)
  {
    RecallsNumerators(rows, Methods);
    YesSplitByMethod(rows);
    Recalls(rows, Methods)
  }

  /** The numerators of the line are the "Yes" rows of each method. */
  lemma {:induction false} RecallsNumerators(rows: seq<Row>, names: seq<string>)
    ensures Numerators(Recalls(rows, names)) == MethodYes(rows, names)
  {
    if |names| > 0 {
      RecallsNumerators(rows, names[1..]);
      assert Recalls(rows, names)[1..] == Recalls(rows, names[1..]);
    }
  }

  /** A string that starts with `prefix` agrees with it position by position. */
  lemma PrefixAt(s: string, prefix: string, k: nat)
    ensures StartsWith(s, prefix) && k < |prefix| ==> s[k] == prefix[k]
  {
    if StartsWith(s, prefix) && k < |prefix| {
      assert s[..|prefix|][k] == s[k];
    }
  }

  /** No method name is a prefix of another, so a file name counts toward at most
      one method's recall: "gan" differs from the others in its first letter,
      and the four diffusion names in their tenth. */
  lemma MethodsDisjoint(filename: string, i: nat, j: nat)
    requires i < |Methods| && j < |Methods| && i != j
    ensures !(StartsWith(filename, Methods[i]) && StartsWith(filename, Methods[j]))
  {
    PrefixAt(filename, Methods[i], 0);
    PrefixAt(filename, Methods[j], 0);
    PrefixAt(filename, Methods[i], 9);
    PrefixAt(filename, Methods[j], 9);
  }

  /** When no two names prefix the same file name, at most one does. */
  lemma {:induction false} MatchesAtMostOne(filename: string, names: seq<string>)
    requires forall i, j :: 0 <= i < j < |names| ==> !(StartsWith(filename, names[i]) && StartsWith(filename, names[j]))
    ensures Matches(filename, names) <= 1
  {
    if |names| > 0 {
      MatchesAtMostOne(filename, names[1..]);
      if StartsWith(filename, names[0]) {
        NoMatches(filename, names[1..]);
      }
    }
  }

  lemma {:induction false} NoMatches(filename: string, names: seq<string>)
    requires forall i :: 0 <= i < |names| ==> !StartsWith(filename, names[i])
    ensures Matches(filename, names) == 0
  {
    if |names| > 0 {
      assert !StartsWith(filename, names[0]);
      NoMatches(filename, names[1..]);
    }
  }

  /** Every file name starts with at most one method name. */
  lemma AtMostOneMethod(filename: string)
    ensures Matches(filename, Methods) <= 1
  {
    forall i, j | 0 <= i < j < |Methods|
      ensures !(StartsWith(filename, Methods[i]) && StartsWith(filename, Methods[j]))
    {
      MethodsDisjoint(filename, i, j);
    }
    MatchesAtMostOne(filename, Methods);
  }

  /** No rows count toward any name. */
  lemma {:induction false} TotalsEmpty(rows: seq<Row>, names: seq<string>)
    requires |rows| == 0
    ensures MethodTotals(rows, names) == 0 && MethodYes(rows, names) == 0
  {
    if |names| > 0 {
      TotalsEmpty(rows, names[1..]);
    }
  }

  /** A row in front adds one per name it starts with. */
  lemma {:induction false} TotalsCons(x: Row, rest: seq<Row>, names: seq<string>)
    ensures MethodTotals([x] + rest, names) == Matches(x.filename, names) + MethodTotals(rest, names)
    ensures MethodYes([x] + rest, names)
      == (if x.prediction == "Yes" then Matches(x.filename, names) else 0) + MethodYes(rest, names)
  {
    var rows := [x] + rest;
    assert rows[0] == x && rows[1..] == rest;
    if |names| > 0 {
      TotalsCons(x, rest, names[1..]);
      var kept := FilterByPrefix(rows, names[0]);
      if StartsWith(x.filename, names[0]) {
        assert kept == [x] + FilterByPrefix(rest, names[0]);
        assert ([x] + FilterByPrefix(rest, names[0]))[1..] == FilterByPrefix(rest, names[0]);
      } else {
        assert kept == FilterByPrefix(rest, names[0]);
      }
    }
  }

  /** Every row counts toward exactly one method or toward none: the method
      totals and the unmatched rows together are all the rows. */
  lemma {:induction false} RowsSplitByMethod(rows: seq<Row>)
    ensures MethodTotals(rows, Methods) + |Unmatched(rows)| == |rows|
  {
    TotalsEmpty([], Methods);
    if |rows| > 0 {
      var x, rest := rows[0], rows[1..];
      RowsSplitByMethod(rest);
      assert rows == [x] + rest;
      TotalsCons(x, rest, Methods);
      AtMostOneMethod(x.filename);
      var m := Matches(x.filename, Methods);
      assert MethodTotals(rows, Methods) == m + MethodTotals(rest, Methods);
      assert |Unmatched(rows)| == (if m == 0 then 1 else 0) + |Unmatched(rest)|;
    }
  }

  /** The same split, counting only the "Yes" rows. */
  lemma {:induction false} YesSplitByMethod(rows: seq<Row>)
    ensures MethodYes(rows, Methods) + CountYes(Unmatched(rows)) == CountYes(rows)
  {
    TotalsEmpty([], Methods);
    if |rows| > 0 {
      YesSplitByMethod(rows[1..]);
      assert rows == [rows[0]] + rows[1..];
      TotalsCons(rows[0], rows[1..], Methods);
      AtMostOneMethod(rows[0].filename);
      if Matches(rows[0].filename, Methods) == 0 {
        assert Unmatched(rows)[1..] == Unmatched(rows[1..]);
      }
    }
  }
}
