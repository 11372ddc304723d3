/** The static list of test images the browser page offers (`testImages`): ten
    images for each of four diffusion models and a GAN, all AI-generated, then
    ten for each of five real photo categories. */
module Manifest {
  import opened Text
  import opened BrowserClassifier

  /** The AI image kinds, in the order the list is built. */
  const AiKinds: seq<string> := ["diffusion1", "diffusion2", "diffusion3", "diffusion4", "gan"]

  /** The real photo categories, in order. */
  const RealKinds: seq<string> := ["animals", "city", "food", "nature", "people"]

  /** How many images each kind contributes. */
  const PerKind: nat := 10

  /** The image folder for a ground truth. */
  function Folder(truth: GroundTruth): string {
    match truth
    case Ai => "ai"
    case Real => "real"
  }

  /** `${type}_${i + 1}` for the one-based number `k`. */
  function ImageId(kind: string, k: nat): string {
    kind + "_" + DecimalString(k)
  }

  /** The `k`-th image (one-based) of a kind. */
  function ImageFor(kind: string, truth: GroundTruth, k: nat): LabeledImage {
    var id := ImageId(kind, k);
    LabeledImage(id, "/images/" + Folder(truth) + "/" + id + ".jpg", truth, id + ".jpg")
  }

  /** `Array.from({ length: 10 }, (_, i) => ...)` for one kind. */
  function Group(kind: string, truth: GroundTruth): seq<LabeledImage> {
    seq(PerKind, i requires 0 <= i < PerKind => ImageFor(kind, truth, i + 1))
  }

  /** `kinds.flatMap(...)`. */
  function Groups(kinds: seq<string>, truth: GroundTruth): seq<LabeledImage> {
    if |kinds| == 0 then [] else Group(kinds[0], truth) + Groups(kinds[1..], truth)
  }

  /** The whole list: the AI groups, then the real ones. */
  function TestImages(): seq<LabeledImage> {
    Groups(AiKinds, Ai) + Groups(RealKinds, Real)
  }

  /** The kinds of the whole list, in order. */
  const AllKinds: seq<string> := AiKinds + RealKinds

  /** Entry `p` of a run of groups is image `p % 10 + 1` of kind `p / 10`. */
  lemma {:induction false} GroupsEntry(kinds: seq<string>, truth: GroundTruth, p: nat)
    requires p < PerKind * |kinds|
    ensures |Groups(kinds, truth)| == PerKind * |kinds|
    ensures Groups(kinds, truth)[p] == ImageFor(kinds[p / PerKind], truth, p % PerKind + 1)
  {
    GroupsSize(kinds, truth);
    if p >= PerKind {
      GroupsEntry(kinds[1..], truth, p - PerKind);
      assert Groups(kinds, truth)[p] == Groups(kinds[1..], truth)[p - PerKind];
      assert (p - PerKind) / PerKind == p / PerKind - 1;
      assert (p - PerKind) % PerKind == p % PerKind;
    }
  }

  lemma {:induction false} GroupsSize(kinds: seq<string>, truth: GroundTruth)
    ensures |Groups(kinds, truth)| == PerKind * |kinds|
  {
    if |kinds| > 0 {
      GroupsSize(kinds[1..], truth);
    }
  }

  /** The list has 100 entries; entry `p` is image `p % 10 + 1` of kind
      `p / 10`, AI-generated exactly for the first 50. */
  lemma ManifestEntry(p: nat)
    requires p < |TestImages()|
    ensures |TestImages()| == 100
    ensures TestImages()[p] == ImageFor(AllKinds[p / PerKind], if p < 50 then Ai else Real, p % PerKind + 1)
  {
    GroupsSize(AiKinds, Ai);
    GroupsSize(RealKinds, Real);
    if p < 50 {
      GroupsEntry(AiKinds, Ai, p);
    } else {
      GroupsEntry(RealKinds, Real, p - 50);
      assert (p - 50) / PerKind == p / PerKind - 5;
      assert (p - 50) % PerKind == p % PerKind;
    }
  }

  lemma ManifestSize()
    ensures |TestImages()| == 100
  {
    GroupsSize(AiKinds, Ai);
    GroupsSize(RealKinds, Real);
  }

  /** The first 50 images are the AI-generated ones and the last 50 the real ones. */
  lemma ManifestHalves()
    ensures |TestImages()| == 100
    ensures forall p :: 0 <= p < 100 ==> (TestImages()[p].groundTruth == Ai <==> p < 50)
  {
    ManifestSize();
    forall p | 0 <= p < 100 ensures TestImages()[p].groundTruth == Ai <==> p < 50 {
      ManifestEntry(p);
    }
  }

  /** Every file name is the id followed by ".jpg", and every url places that
      file in the folder of its ground truth. */
  lemma ManifestNames(p: nat)
    requires p < |TestImages()|
    ensures var img := TestImages()[p];
      img.fileName == img.id + ".jpg" && img.url == "/images/" + Folder(img.groundTruth) + "/" + img.fileName
  {
    ManifestEntry(p);
  }

  predicate NoUnderscore(s: string) {
    forall i :: 0 <= i < |s| ==> s[i] != '_'
  }

  /** What `a + "_" + s` holds at and before the separator. */
  lemma JoinAt(a: string, s: string)
    ensures |a + "_" + s| == |a| + 1 + |s|
    ensures (a + "_" + s)[|a|] == '_'
    ensures forall i :: 0 <= i < |a| ==> (a + "_" + s)[i] == a[i]
    ensures (a + "_" + s)[|a| + 1..] == s
  {
  }

  /** An id splits uniquely at its only separator. */
  lemma IdSplits(a: string, s: string, b: string, t: string)
    requires NoUnderscore(a) && NoUnderscore(b)
    ensures a + "_" + s == b + "_" + t ==> a == b && s == t
  {
    JoinAt(a, s);
    JoinAt(b, t);
    var x := a + "_" + s;
    var y := b + "_" + t;
    if x == y {
      assert |a| == |b|;
      assert a == x[..|a|] == y[..|b|] == b;
    }
  }

  /** The ten kinds are distinct and contain no separator. */
  lemma KindsDistinct()
    ensures |AllKinds| == 10
    ensures forall i :: 0 <= i < 10 ==> NoUnderscore(AllKinds[i])
    ensures forall i, j :: 0 <= i < j < 10 ==> AllKinds[i] != AllKinds[j]
  {
  }

  /** No two images share an id. */
  lemma ManifestIdsDistinct(p: nat, q: nat)
    requires p < q < |TestImages()|
    ensures TestImages()[p].id != TestImages()[q].id
  {
    ManifestEntry(p);
    ManifestEntry(q);
    KindsDistinct();
    var kp := AllKinds[p / PerKind];
    var kq := AllKinds[q / PerKind];
    IdSplits(kp, DecimalString(p % PerKind + 1), kq, DecimalString(q % PerKind + 1));
    DecimalInjective(p % PerKind + 1, q % PerKind + 1);
  }
}
