/** The three-way verdict and the prefix rule that maps a model's free-text
    answer onto it (`normalizePrediction`). */
module Verdicts {
  import opened Text

  /** `Yes` means AI-generated, `No` means real, `Unsure` means undecided. */
  datatype Verdict = Yes | No | Unsure

  /** The string the verdict is written as in a prediction file. */
  function Label(v: Verdict): string {
    match v
    case Yes => "Yes"
    case No => "No"
    case Unsure => "Unsure"
  }

  /** Trim, lower-case, then test the prefixes "yes" and "no" in that order. */
  function NormalizePrediction(response: string): Verdict {
    var trimmed := Lower(Trim(response));
    if StartsWith(trimmed, "yes") then Yes
    else if StartsWith(trimmed, "no") then No
    else Unsure
  }

  /** After some (possibly no) leading whitespace, `s` begins with `word` in any
      letter case. This is the reading of an answer independent of `Trim`. */
  ghost predicate AnswersWith(s: string, word: string) {
    exists k :: 0 <= k <= |s| && AllWhitespace(s[..k]) && StartsWith(Lower(s[k..]), word)
  }

  /** A word without whitespace, the shape of "yes" and "no". */
  predicate IsWord(w: string) {
    0 < |w| && forall j :: 0 <= j < |w| ==> !IsWhitespace(w[j])
  }

  /** The trimmed answer starts with `w` only if the untrimmed answer, after its
      leading whitespace, does. */
  lemma TrimmedPrefixSound(s: string, w: string)
    requires IsWord(w)
    requires StartsWith(Lower(Trim(s)), w)
    ensures AnswersWith(s, w)
  {
    var f := TrimStart(s);
    var L := |s| - |f|;
    var r := TrimEnd(f);
    TrimStartShape(s);
    TrimEndShape(f);
    assert Trim(s) == r;
    assert forall j :: 0 <= j < |w| ==> Lower(f)[j] == Lower(r)[j];
    assert Lower(s[L..])[..|w|] == w;
    assert AllWhitespace(s[..L]) && StartsWith(Lower(s[L..]), w);
  }

  /** Where a word can start: only after all of the leading whitespace. */
  lemma WordStartsAfterWhitespace(s: string, w: string, k: nat)
    requires IsWord(w)
    requires k <= |s| && AllWhitespace(s[..k]) && StartsWith(Lower(s[k..]), w)
    ensures TrimStart(s) == s[k..]
  {
    assert LowerChar(s[k]) == Lower(s[k..])[0] == w[0];
    TrimStartAt(s, k);
  }

  /** Trailing whitespace never cuts into a leading word. */
  lemma TrimEndKeepsWord(f: string, w: string)
    requires IsWord(w)
    requires StartsWith(Lower(f), w)
    ensures StartsWith(Lower(TrimEnd(f)), w)
  {
    var r := TrimEnd(f);
    TrimEndShape(f);
    var last := |w| - 1;
    assert LowerChar(f[last]) == Lower(f)[last] == w[last];
    assert !IsWhitespace(f[last]);
    if |r| < |w| {
      assert false;
    }
    assert forall j :: 0 <= j < |w| ==> Lower(r)[j] == Lower(f)[j];
    assert Lower(r)[..|w|] == w;
  }

  /** The prefix test on the trimmed, lower-cased answer is exactly `AnswersWith`. */
  lemma TrimmedPrefix(s: string, w: string)
    requires IsWord(w)
    ensures StartsWith(Lower(Trim(s)), w) <==> AnswersWith(s, w)
  {
    if StartsWith(Lower(Trim(s)), w) {
      TrimmedPrefixSound(s, w);
    }
    if AnswersWith(s, w) {
      var k :| 0 <= k <= |s| && AllWhitespace(s[..k]) && StartsWith(Lower(s[k..]), w);
      WordStartsAfterWhitespace(s, w, k);
      TrimEndKeepsWord(s[k..], w);
    }
  }

  /** The verdict, read without `Trim`: Yes when the answer opens with "yes",
      No when it opens with "no" but not "yes", Unsure otherwise. */
  lemma NormalizeMeaning(s: string)
    ensures NormalizePrediction(s) == Yes <==> AnswersWith(s, "yes")
    ensures NormalizePrediction(s) == No <==> !AnswersWith(s, "yes") && AnswersWith(s, "no")
    ensures NormalizePrediction(s) == Unsure <==> !AnswersWith(s, "yes") && !AnswersWith(s, "no")
  {
    TrimmedPrefix(s, "yes");
    TrimmedPrefix(s, "no");
  }

  /** Upper-casing a character keeps whether it is whitespace and how it lower-cases. */
  lemma CaseOfUpper(c: char)
    ensures IsWhitespace(UpperChar(c)) <==> IsWhitespace(c)
    ensures LowerChar(UpperChar(c)) == LowerChar(c)
  {
  }

  /** Upper-casing keeps which leading characters are whitespace. */
  lemma UpperWhitespace(s: string, k: nat)
    requires k <= |s|
    ensures AllWhitespace(Upper(s)[..k]) <==> AllWhitespace(s[..k])
  {
    var u := Upper(s)[..k];
    var t := s[..k];
    forall j | 0 <= j < k ensures IsWhitespace(u[j]) <==> IsWhitespace(t[j]) {
      assert u[j] == UpperChar(s[j]) && t[j] == s[j];
      CaseOfUpper(s[j]);
    }
  }

  /** Upper-casing keeps the lower-case reading of every suffix. */
  lemma UpperLower(s: string, k: nat)
    requires k <= |s|
    ensures Lower(Upper(s)[k..]) == Lower(s[k..])
  {
    var u := Upper(s)[k..];
    var t := s[k..];
    var a := Lower(u);
    var b := Lower(t);
    forall j | 0 <= j < |t| ensures a[j] == b[j] {
      assert u[j] == UpperChar(s[k + j]) && t[j] == s[k + j];
      CaseOfUpper(s[k + j]);
    }
  }

  /** Upper-casing the answer does not change how it is read. */
  lemma AnswersWithUpper(s: string, w: string)
    ensures AnswersWith(Upper(s), w) <==> AnswersWith(s, w)
  {
    var u := Upper(s);
    if AnswersWith(s, w) {
      var k :| 0 <= k <= |s| && AllWhitespace(s[..k]) && StartsWith(Lower(s[k..]), w);
      UpperWhitespace(s, k);
      UpperLower(s, k);
      assert AllWhitespace(u[..k]) && StartsWith(Lower(u[k..]), w);
    }
    if AnswersWith(u, w) {
      var k :| 0 <= k <= |u| && AllWhitespace(u[..k]) && StartsWith(Lower(u[k..]), w);
      UpperWhitespace(s, k);
      UpperLower(s, k);
      assert AllWhitespace(s[..k]) && StartsWith(Lower(s[k..]), w);
    }
  }

  /** Letter case is ignored: the upper-cased answer reads the same. */
  lemma NormalizeIgnoresCase(s: string)
    ensures NormalizePrediction(Upper(s)) == NormalizePrediction(s)
  {
    NormalizeMeaning(s);
    NormalizeMeaning(Upper(s));
    AnswersWithUpper(s, "yes");
    AnswersWithUpper(s, "no");
  }

  /** Trimming is idempotent, so a pre-trimmed answer reads the same. */
  lemma NormalizeIgnoresTrim(s: string)
    ensures Trim(Trim(s)) == Trim(s)
    ensures NormalizePrediction(Trim(s)) == NormalizePrediction(s)
  {
    var t := Trim(s);
    TrimShape(s);
    assert TrimStart(t) == t;
    assert TrimEnd(t) == t;
  }

  /** An answer with no surrounding whitespace is only lower-cased before the test. */
  lemma TrimmedAlready(s: string)
    requires 0 < |s| && !IsWhitespace(s[0]) && !IsWhitespace(s[|s| - 1])
    ensures Trim(s) == s
  {
    assert TrimStart(s) == s;
    assert TrimEnd(s) == s;
  }

  /** An answer that opens with "Yes" (no leading whitespace) is Yes, whatever follows. */
  lemma OpensWithYes(s: string)
    requires StartsWith(s, "Yes")
    ensures NormalizePrediction(s) == Yes
  {
    var l := Lower(s);
    assert l[0] == 'y' && l[1] == 'e' && l[2] == 's';
    assert s[..0] == [] && s[0..] == s;
    assert AllWhitespace(s[..0]) && StartsWith(Lower(s[0..]), "yes");
    TrimmedPrefix(s, "yes");
  }

  /** A reply that opens with "Yes" and goes on is Yes. */
  lemma NormalizeYesExample()
    ensures NormalizePrediction("Yes, I think so") == Yes
  {
    OpensWithYes("Yes, I think so");
  }

  lemma NormalizeNoExample()
    ensures NormalizePrediction("  NO.") == No
  {
    var s := "  NO.";
    assert s[1..] == " NO." && s[1..][1..] == "NO.";
    assert TrimStart(s) == "NO.";
    TrimmedAlready("NO.");
    var l := Lower("NO.");
    assert l[0] == 'n' && l[1] == 'o';
    assert StartsWith(l, "no") && !StartsWith(l, "yes");
  }

  /** An answer whose first character is a letter other than y or n is Unsure. */
  lemma OtherInitialIsUnsure(s: string)
    requires 0 < |s| && !IsWhitespace(s[0])
    requires LowerChar(s[0]) != 'y' && LowerChar(s[0]) != 'n'
    ensures NormalizePrediction(s) == Unsure
  {
    assert TrimStart(s) == s;
    TrimEndShape(s);
    var t := TrimEnd(s);
    if |t| == 0 {
      assert false;
    }
    var l := Lower(t);
    assert l[0] == LowerChar(s[0]);
    assert !StartsWith(l, "yes") && !StartsWith(l, "no") by {
      if |l| >= 2 {
        assert l[..2][0] == l[0];
      }
      if |l| >= 3 {
        assert l[..3][0] == l[0];
      }
    }
  }

  lemma NormalizeUnsureExample()
    ensures NormalizePrediction("I'm not sure") == Unsure
  {
    OtherInitialIsUnsure("I'm not sure");
  }

  lemma NormalizeEmptyExample()
    ensures NormalizePrediction("") == Unsure
  {
  }

  lemma NormalizeLateNoExample()
    ensures NormalizePrediction("I think no") == Unsure
  {
    OtherInitialIsUnsure("I think no");
  }

  lemma NormalizeNotSureExample()
    ensures NormalizePrediction("Not sure") == No
  {
    var s := "Not sure";
    TrimmedAlready(s);
    var l := Lower(s);
    assert l[0] == 'n' && l[1] == 'o';
    assert StartsWith(l, "no") && !StartsWith(l, "yes");
  }

  lemma NormalizeNopeExample()
    ensures NormalizePrediction("nope") == No
  {
    var s := "nope";
    TrimmedAlready(s);
    var l := Lower(s);
    assert l[0] == 'n' && l[1] == 'o';
    assert StartsWith(l, "no") && !StartsWith(l, "yes");
  }
}
