/** The browser page's state (`App`): which images are shown and selected, the
    prompt tab and text, and the API-key dialog. Each handler is a transition of
    one immutable state; a disabled control or a control hidden behind the
    modal dialog ignores its click. The prompt texts are opaque parameters. */
module App {
  import opened Text
  import opened BrowserClassifier
  import opened Manifest

  /** `filterType`: `'all' | 'ai' | 'real'`. */
  datatype Filter = All | OnlyAi | OnlyReal

  /** The test of the `testImages.filter` callback. */
  predicate Keeps(f: Filter, img: LabeledImage) {
    match f
    case All => true
    case OnlyAi => img.groundTruth == Ai
    case OnlyReal => img.groundTruth == Real
  }

  /** `filteredImages`: the images the filter keeps, in their original order. */
  function FilteredImages(images: seq<LabeledImage>, f: Filter): (r: seq<LabeledImage>)
    ensures |r| <= |images|
  {
    if |images| == 0 then []
    else (if Keeps(f, images[0]) then [images[0]] else []) + FilteredImages(images[1..], f)
  }

  /** An image is shown exactly when it is in the list and the filter keeps it. */
  lemma {:induction false} FilterMembers(images: seq<LabeledImage>, f: Filter, img: LabeledImage)
    ensures img in FilteredImages(images, f) <==> img in images && Keeps(f, img)
  {
    if |images| > 0 {
      FilterMembers(images[1..], f, img);
      assert images == [images[0]] + images[1..];
    }
  }

  /** Filtering a concatenation filters each part, so the kept images stay in order. */
  lemma {:induction false} FilterAppend(a: seq<LabeledImage>, b: seq<LabeledImage>, f: Filter)
    ensures FilteredImages(a + b, f) == FilteredImages(a, f) + FilteredImages(b, f)
  {
    if |a| == 0 {
      assert a + b == b;
    } else {
      var head := if Keeps(f, a[0]) then [a[0]] else [];
      var tail := FilteredImages(a[1..], f);
      assert (a + b)[0] == a[0] && (a + b)[1..] == a[1..] + b;
      FilterAppend(a[1..], b, f);
      assert FilteredImages(a + b, f) == head + (tail + FilteredImages(b, f));
      assert head + (tail + FilteredImages(b, f)) == (head + tail) + FilteredImages(b, f);
    }
  }

  /** A filter that keeps every image returns the list unchanged; one that keeps
      none returns nothing. */
  lemma {:induction false} FilterUniform(images: seq<LabeledImage>, f: Filter)
    ensures (forall k :: 0 <= k < |images| ==> Keeps(f, images[k])) ==> FilteredImages(images, f) == images
    ensures (forall k :: 0 <= k < |images| ==> !Keeps(f, images[k])) ==> FilteredImages(images, f) == []
  {
    if |images| > 0 {
      FilterUniform(images[1..], f);
      assert forall k :: 1 <= k < |images| ==> images[k] == images[1..][k - 1];
      assert images == [images[0]] + images[1..];
    }
  }

  /** A list of 100 images whose first 50 are AI-generated and last 50 real, as
      the manifest is. */
  predicate Halved(images: seq<LabeledImage>) {
    |images| == 100 && forall p :: 0 <= p < 100 ==> (images[p].groundTruth == Ai <==> p < 50)
  }

  /** "all" shows every image; any other filter shows exactly the images of that
      ground truth: on the manifest, its first 50 or its last 50. */
  lemma ManifestFilter(f: Filter)
    ensures FilteredImages(TestImages(), f) == TestImages()[FirstShown(f)..LastShown(f)]
  {
    ManifestHalves();
    ShowsSlice(TestImages(), f);
  }

  lemma ShowsSlice(images: seq<LabeledImage>, f: Filter)
    requires Halved(images)
    ensures FilteredImages(images, f) == images[FirstShown(f)..LastShown(f)]
  {
    if f == All {
      FilterUniform(images, All);
      assert images[0..100] == images;
    } else {
      ShowsHalf(images, f);
    }
  }

  lemma ShowsHalf(images: seq<LabeledImage>, f: Filter)
    requires Halved(images) && f != All
    ensures FilteredImages(images, f) == images[FirstShown(f)..LastShown(f)]
  {
    assert images == images[..50] + images[50..];
    FilterAppend(images[..50], images[50..], f);
    if f == OnlyAi {
      AiHalfKept(images);
    } else {
      RealHalfKept(images);
    }
  }

  /** The "ai" filter keeps the first half of a halved list and drops the rest. */
  lemma AiHalfKept(images: seq<LabeledImage>)
    requires Halved(images)
    ensures FilteredImages(images[..50], OnlyAi) == images[..50]
    ensures FilteredImages(images[50..], OnlyAi) == []
  {
    assert forall k :: 0 <= k < 50 ==> images[..50][k] == images[k];
    assert forall k :: 0 <= k < 50 ==> images[50..][k] == images[50 + k];
    FilterUniform(images[..50], OnlyAi);
    FilterUniform(images[50..], OnlyAi);
  }

  /** The "real" filter drops the first half of a halved list and keeps the rest. */
  lemma RealHalfKept(images: seq<LabeledImage>)
    requires Halved(images)
    ensures FilteredImages(images[..50], OnlyReal) == []
    ensures FilteredImages(images[50..], OnlyReal) == images[50..]
  {
    assert forall k :: 0 <= k < 50 ==> images[..50][k] == images[k];
    assert forall k :: 0 <= k < 50 ==> images[50..][k] == images[50 + k];
    FilterUniform(images[..50], OnlyReal);
    FilterUniform(images[50..], OnlyReal);
  }

  /** The manifest positions a filter shows: all 100, the first 50 or the last 50. */
  function FirstShown(f: Filter): nat {
    if f == OnlyReal then 50 else 0
  }

  function LastShown(f: Filter): nat {
    if f == OnlyAi then 50 else 100
  }

  /** `images.map((img) => img.id)`. */
  function Ids(images: seq<LabeledImage>): (r: seq<string>)
    ensures |r| == |images|
    ensures forall k :: 0 <= k < |images| ==> r[k] == images[k].id
  {
    if |images| == 0 then [] else [images[0].id] + Ids(images[1..])
  }

  predicate NoDuplicates(s: seq<string>) {
    forall i, j :: 0 <= i < j < |s| ==> s[i] != s[j]
  }

  /** No two images of the list share an id. */
  predicate DistinctIds(images: seq<LabeledImage>) {
    forall p, q :: 0 <= p < q < |images| ==> images[p].id != images[q].id
  }

  /** The ids of a stretch of a list with distinct ids are distinct and belong
      to the whole list. */
  lemma SliceIds(images: seq<LabeledImage>, lo: nat, hi: nat)
    requires DistinctIds(images) && lo <= hi <= |images|
    ensures NoDuplicates(Ids(images[lo..hi]))
    ensures forall k :: 0 <= k < hi - lo ==> Ids(images[lo..hi])[k] in Ids(images)
  {
    var ids := Ids(images[lo..hi]);
    assert forall k :: 0 <= k < hi - lo ==> ids[k] == images[lo + k].id;
    forall k | 0 <= k < hi - lo ensures ids[k] in Ids(images) {
      assert Ids(images)[lo + k] == ids[k];
    }
  }

  /** The manifest has the shape the filters rely on. */
  lemma ManifestCatalog()
    ensures Halved(TestImages()) && DistinctIds(TestImages())
  {
    ManifestHalves();
    forall p, q | 0 <= p < q < |TestImages()| ensures TestImages()[p].id != TestImages()[q].id {
      ManifestIdsDistinct(p, q);
    }
  }

  /** Every filter shows at least one image: 100, 50 or 50. */
  lemma ShownCount(f: Filter)
    ensures |FilteredImages(TestImages(), f)| == LastShown(f) - FirstShown(f) > 0
  {
    ManifestFilter(f);
    ManifestSize();
  }

  /** Each shown id is a manifest id, and the shown ids are distinct. */
  lemma ShownIds(f: Filter)
    ensures NoDuplicates(Ids(FilteredImages(TestImages(), f)))
    ensures forall k :: 0 <= k < |Ids(FilteredImages(TestImages(), f))| ==>
      Ids(FilteredImages(TestImages(), f))[k] in Ids(TestImages())
  {
    ManifestCatalog();
    ShownIdsOf(TestImages(), f);
  }

  lemma ShownIdsOf(images: seq<LabeledImage>, f: Filter)
    requires Halved(images) && DistinctIds(images)
    ensures NoDuplicates(Ids(FilteredImages(images, f)))
    ensures forall k :: 0 <= k < |Ids(FilteredImages(images, f))| ==>
      Ids(FilteredImages(images, f))[k] in Ids(images)
  {
    ShowsSlice(images, f);
    SliceIds(images, FirstShown(f), LastShown(f));
  }

  /** `prev.filter((id) => id !== x)`. */
  function RemoveAll(s: seq<string>, x: string): (r: seq<string>)
    ensures |r| <= |s|
  {
    if |s| == 0 then []
    else if s[0] == x then RemoveAll(s[1..], x)
    else [s[0]] + RemoveAll(s[1..], x)
  }

  /** Removal drops every copy of `x` and keeps every other id. */
  lemma {:induction false} RemoveMembers(s: seq<string>, x: string, y: string)
    ensures y in RemoveAll(s, x) <==> y in s && y != x
  {
    if |s| > 0 {
      RemoveMembers(s[1..], x, y);
      assert s == [s[0]] + s[1..];
    }
  }

  /** Removing an id that is absent changes nothing. */
  lemma {:induction false} RemoveAbsent(s: seq<string>, x: string)
    requires x !in s
    ensures RemoveAll(s, x) == s
  {
    if |s| > 0 {
      assert s[1..] == s[1..] && x !in s[1..];
      RemoveAbsent(s[1..], x);
      assert s == [s[0]] + s[1..];
    }
  }

  /** Removing from a concatenation removes from each part. */
  lemma {:induction false} RemoveAppend(a: seq<string>, b: seq<string>, x: string)
    ensures RemoveAll(a + b, x) == RemoveAll(a, x) + RemoveAll(b, x)
  {
    if |a| == 0 {
      assert a + b == b;
    } else {
      var head := if a[0] == x then [] else [a[0]];
      var tail := RemoveAll(a[1..], x);
      assert (a + b)[0] == a[0] && (a + b)[1..] == a[1..] + b;
      RemoveAppend(a[1..], b, x);
      assert RemoveAll(a, x) == head + tail;
      assert RemoveAll(a + b, x) == head + (tail + RemoveAll(b, x));
      assert head + (tail + RemoveAll(b, x)) == (head + tail) + RemoveAll(b, x);
    }
  }

  /** Removal keeps a list free of duplicates. */
  lemma {:induction false} RemoveKeepsDistinct(s: seq<string>, x: string)
    requires NoDuplicates(s)
    ensures NoDuplicates(RemoveAll(s, x))
  {
    if |s| > 0 {
      var t := s[1..];
      assert NoDuplicates(t) by {
        forall i, j | 0 <= i < j < |t| ensures t[i] != t[j] {
          assert t[i] == s[i + 1] && t[j] == s[j + 1];
        }
      }
      RemoveKeepsDistinct(t, x);
      var rest := RemoveAll(t, x);
      if s[0] != x {
        assert s[0] !in t by {
          forall j | 0 <= j < |t| ensures t[j] != s[0] {
            assert t[j] == s[j + 1];
          }
        }
        RemoveMembers(t, x, s[0]);
        var r := [s[0]] + rest;
        forall i, j | 0 <= i < j < |r| ensures r[i] != r[j] {
          if i > 0 {
            assert r[i] == rest[i - 1] && r[j] == rest[j - 1];
          } else {
            assert r[j] == rest[j - 1] && r[j] in rest;
          }
        }
      }
    }
  }

  /** `handleImageSelect`: drop the id if it is selected, otherwise append it. */
  function Toggle(s: seq<string>, x: string): seq<string> {
    if x in s then RemoveAll(s, x) else s + [x]
  }

  /** Toggling flips the id's membership and leaves every other id's alone. */
  lemma ToggleMembership(s: seq<string>, x: string, y: string)
    ensures y == x ==> (y in Toggle(s, x) <==> x !in s)
    ensures y != x ==> (y in Toggle(s, x) <==> y in s)
  {
    RemoveMembers(s, x, y);
  }

  /** An id that was not selected ends up last. */
  lemma ToggleAppends(s: seq<string>, x: string)
    requires x !in s
    ensures |Toggle(s, x)| == |s| + 1 && Toggle(s, x)[|s|] == x && Toggle(s, x)[..|s|] == s
  {
  }

  /** Toggling an unselected id twice restores the selection exactly. */
  lemma ToggleTwice(s: seq<string>, x: string)
    requires x !in s
    ensures Toggle(Toggle(s, x), x) == s
  {
    assert x in s + [x];
    RemoveAppend(s, [x], x);
    RemoveAbsent(s, x);
    assert RemoveAll([x], x) == [];
  }

  /** Toggling keeps the selection free of duplicates. */
  lemma ToggleKeepsDistinct(s: seq<string>, x: string)
    requires NoDuplicates(s)
    ensures NoDuplicates(Toggle(s, x))
  {
    if x in s {
      RemoveKeepsDistinct(s, x);
    } else {
      var r := s + [x];
      forall i, j | 0 <= i < j < |r| ensures r[i] != r[j] {
        if j == |s| {
          assert r[i] == s[i];
        }
      }
    }
  }

  /** The two built-in prompt texts. */
  datatype Prompts = Prompts(basic: string, detailed: string)

  /** The page's `useState` hooks. */
  datatype AppState = AppState(
    customPrompt: string,
    selected: seq<string>,
    filter: Filter,
    promptTab: int,
    apiKey: string,
    dialogOpen: bool,
    tempKey: string)

  /** The state on first render. */
  function Initial(p: Prompts): AppState {
    AppState(p.basic, [], All, 0, "", false, "")
  }

  /** The user's actions: clicking an image card, a filter chip, select-all,
      deselect-all or a prompt tab, typing a prompt, opening the key dialog,
      typing in it, cancelling or closing it, and saving the key. */
  datatype Action =
    | ClickImage(id: string)
    | SetFilter(f: Filter)
    | SelectAll
    | DeselectAll
    | ChangeTab(tab: int)
    | EditPrompt(text: string)
    | OpenDialog
    | EditKey(text: string)
    | CloseDialog
    | SaveKey

  /** The images on screen for a state. */
  function Shown(s: AppState): seq<LabeledImage> {
    FilteredImages(TestImages(), s.filter)
  }

  /** "Run Experiment" is clickable only with a selection and a key. */
  predicate RunEnabled(s: AppState) {
    |s.selected| > 0 && s.apiKey != ""
  }

  /** "Save API Key" is clickable only when the typed key is not blank. */
  predicate SaveEnabled(s: AppState) {
    Trim(s.tempKey) != ""
  }

  /** Whether an action can reach its handler: the page behind the open dialog
      does not react, the dialog's controls exist only while it is open, only
      shown images can be clicked, there are three tabs and only an unselected
      one reports a change, and Save obeys its enable condition. */
  predicate Enabled(s: AppState, a: Action) {
    match a
    case ClickImage(id) => !s.dialogOpen && id in Ids(Shown(s))
    case SetFilter(_) => !s.dialogOpen
    case SelectAll => !s.dialogOpen
    case DeselectAll => !s.dialogOpen
    case ChangeTab(tab) => !s.dialogOpen && 0 <= tab < 3 && tab != s.promptTab
    case EditPrompt(_) => !s.dialogOpen
    case OpenDialog => !s.dialogOpen
    case EditKey(_) => s.dialogOpen
    case CloseDialog => s.dialogOpen
    case SaveKey => s.dialogOpen && SaveEnabled(s)
  }

  /** The handlers. */
  function Step(s: AppState, a: Action, p: Prompts): AppState {
    match a
    case ClickImage(id) => s.(selected := Toggle(s.selected, id))
    case SetFilter(f) => s.(filter := f)
    case SelectAll => s.(selected := Ids(Shown(s)))
    case DeselectAll => s.(selected := [])
    case ChangeTab(tab) =>
      s.(promptTab := tab,
         customPrompt := if tab == 0 then p.basic else if tab == 1 then p.detailed else s.customPrompt)
    case EditPrompt(text) => s.(customPrompt := text)
    case OpenDialog => s.(tempKey := s.apiKey, dialogOpen := true)
    case EditKey(text) => s.(tempKey := text)
    case CloseDialog => s.(dialogOpen := false, tempKey := "")
    case SaveKey => s.(apiKey := s.tempKey, dialogOpen := false, tempKey := "")
  }

  /** An action as the page handles it: a disabled control ignores it. */
  function Dispatch(s: AppState, a: Action, p: Prompts): AppState {
    if Enabled(s, a) then Step(s, a, p) else s
  }

  /** The state after a sequence of actions. */
  function Replay(s: AppState, actions: seq<Action>, p: Prompts): AppState
    decreases |actions|
  {
    if |actions| == 0 then s else Replay(Dispatch(s, actions[0], p), actions[1..], p)
  }

  /** What every reachable state satisfies: a closed dialog holds no typed key; a
      saved key is never blank; the selection holds distinct manifest ids; the
      tab is one of the three. */
  predicate Invariant(s: AppState) {
    && (!s.dialogOpen ==> s.tempKey == "")
    && (s.apiKey == "" || Trim(s.apiKey) != "")
    && NoDuplicates(s.selected)
    && (forall k :: 0 <= k < |s.selected| ==> s.selected[k] in Ids(TestImages()))
    && 0 <= s.promptTab < 3
  }

  lemma InitialInvariant(p: Prompts)
    ensures Invariant(Initial(p))
  {
  }

  /** Every enabled action keeps the invariant. */
  lemma StepKeepsInvariant(s: AppState, a: Action, p: Prompts)
    requires Invariant(s) && Enabled(s, a)
    ensures Invariant(Step(s, a, p))
  {
    match a
    case ClickImage(id) =>
      ToggleKeepsDistinct(s.selected, id);
      ShownIds(s.filter);
      var t := Toggle(s.selected, id);
      forall k | 0 <= k < |t| ensures t[k] in Ids(TestImages()) {
        ToggleMembership(s.selected, id, t[k]);
      }
    case SelectAll =>
      ShownIds(s.filter);
    case _ =>
  }

  /** Whatever the user does, the invariant holds. */
  lemma {:induction false} ReplayKeepsInvariant(s: AppState, actions: seq<Action>, p: Prompts)
    requires Invariant(s)
    ensures Invariant(Replay(s, actions, p))
    decreases |actions|
  {
    if |actions| > 0 {
      var next := Dispatch(s, actions[0], p);
      if Enabled(s, actions[0]) {
        StepKeepsInvariant(s, actions[0], p);
      }
      ReplayKeepsInvariant(next, actions[1..], p);
    }
  }

  /** Every state reachable from the first render satisfies the invariant. */
  lemma ReachableInvariant(actions: seq<Action>, p: Prompts)
    ensures Invariant(Replay(Initial(p), actions, p))
  {
    ReplayKeepsInvariant(Initial(p), actions, p);
  }

  /** Tab 0 loads the basic prompt, tab 1 the detailed one, and the Custom tab
      keeps whatever text is there; nothing else changes. */
  lemma TabChange(s: AppState, tab: int, p: Prompts)
    ensures var t := Step(s, ChangeTab(tab), p);
      && t.promptTab == tab
      && (tab == 0 ==> t.customPrompt == p.basic)
      && (tab == 1 ==> t.customPrompt == p.detailed)
      && (tab != 0 && tab != 1 ==> t.customPrompt == s.customPrompt)
      && t.(promptTab := s.promptTab, customPrompt := s.customPrompt) == s
  {
  }

  /** Clicking the tab that is already selected reports no change, so an
      edited prompt stays on the page. */
  lemma ReselectTabKeepsPrompt(s: AppState, p: Prompts)
    ensures Dispatch(s, ChangeTab(s.promptTab), p) == s
  {
  }

  /** Select-all selects the shown images' ids in order, deselect-all clears
      the selection, and neither touches anything else. */
  lemma SelectAllAndNone(s: AppState, p: Prompts)
    ensures var t := Step(s, SelectAll, p);
      |t.selected| == |Shown(s)| && (forall k :: 0 <= k < |Shown(s)| ==> t.selected[k] == Shown(s)[k].id)
      && t.(selected := s.selected) == s
    ensures Step(s, DeselectAll, p).selected == [] && Step(s, DeselectAll, p).(selected := s.selected) == s
  {
  }

  /** After select-all with a saved key, Run is enabled (every filter shows at
      least one image); after deselect-all it is not. */
  lemma RunAfterSelection(s: AppState, p: Prompts)
    requires s.apiKey != ""
    ensures RunEnabled(Step(s, SelectAll, p))
    ensures !RunEnabled(Step(s, DeselectAll, p))
  {
    SelectAllAndNone(s, p);
    ShownCount(s.filter);
  }

  /** Changing the filter keeps the selection, including ids no longer shown. */
  lemma FilterKeepsSelection(s: AppState, f: Filter, p: Prompts)
    ensures Step(s, SetFilter(f), p).selected == s.selected
    ensures Shown(Step(s, SetFilter(f), p)) == FilteredImages(TestImages(), f)
  {
  }

  /** Save stores the typed key and closes the dialog; Cancel closes it and keeps
      the old key. Both clear the typed key and leave the rest of the page alone. */
  lemma DialogOutcomes(s: AppState, p: Prompts)
    requires s.dialogOpen
    ensures var t := Step(s, SaveKey, p);
      t.apiKey == s.tempKey && !t.dialogOpen && t.tempKey == ""
      && t.(apiKey := s.apiKey, dialogOpen := true, tempKey := s.tempKey) == s
    ensures var t := Step(s, CloseDialog, p);
      t.apiKey == s.apiKey && !t.dialogOpen && t.tempKey == ""
      && t.(dialogOpen := true, tempKey := s.tempKey) == s
  {
  }

  /** A blank typed key cannot be saved: the click leaves the state unchanged. */
  lemma BlankKeyNotSaved(s: AppState, p: Prompts)
    requires Trim(s.tempKey) == ""
    ensures Dispatch(s, SaveKey, p) == s
  {
  }

  /** Two actions in a row. */
  lemma ReplayTwo(s: AppState, a: Action, b: Action, p: Prompts)
    ensures Replay(s, [a, b], p) == Dispatch(Dispatch(s, a, p), b, p)
  {
    var t := Dispatch(s, a, p);
    assert [a, b][0] == a && [a, b][1..] == [b];
    assert Replay(s, [a, b], p) == Replay(t, [b], p);
    assert [b][0] == b && [b][1..] == [];
    assert Replay(t, [b], p) == Replay(Dispatch(t, b, p), [], p);
  }

  /** Opening the dialog shows the saved key, and cancelling right away returns
      to exactly the state before, as does saving the shown key unchanged. */
  lemma DialogRoundTrips(s: AppState, p: Prompts)
    requires Invariant(s) && !s.dialogOpen
    ensures Dispatch(s, OpenDialog, p).tempKey == s.apiKey
    ensures Replay(s, [OpenDialog, CloseDialog], p) == s
    ensures s.apiKey != "" ==> Replay(s, [OpenDialog, SaveKey], p) == s
  {
    ReplayTwo(s, OpenDialog, CloseDialog, p);
    ReplayTwo(s, OpenDialog, SaveKey, p);
  }
}
