/**
 * The rubric scorer (`scoring/score.py`): ten categories, each a base score moved by the
 * extractor signals and clamped to [0, 5], with a fixed confidence and a fixed list of
 * claimed evidence ids; the overall score and confidence are the rounded means, and the
 * overall evidence is the categories' evidence without repeats, in first-seen order.
 * Scores and confidences are in hundredths.
 */
module Scoring {
  import opened Wrappers
  import opened Numbers
  import opened Seqs
  import opened Text
  import opened Evidence
  import opened FileIndex
  import opened Rubric
  import opened StructureExtractor
  import opened CiExtractor
  import opened InfraExtractor
  import opened ObservabilityExtractor
  import opened SecurityExtractor
  import opened DocsExtractor

  datatype Category = Category(id: string, name: string, score: int, confidence: int, notes: string,
                               evidence: seq<Ref>, recommendations: seq<string>)

  datatype Overall = Overall(score: int, confidence: int, rationale: string, evidence: seq<Ref>)

  datatype RepoMeta = RepoMeta(url: string, commit: string, name: string)

  datatype RunInfo = RunInfo(id: string, timestamp: string)

  /** The `signals` dict as the scorer reads it: an extractor missing from it reads as `{}`. */
  datatype Signals = Signals(structure: Option<StructureSignal>, ci: Option<CiSignal>,
                             infra: Option<InfraSignal>, observability: Option<ObservabilitySignal>,
                             securityDeps: Option<SecuritySignal>)

  /** The scorecard: a dictionary the evidence gate later updates in place. */
  class Scorecard {
    const version: int
    const repo: RepoMeta
    const run: RunInfo
    var overall: Overall
    var categories: seq<Category>

    constructor (version: int, repo: RepoMeta, run: RunInfo, overall: Overall, categories: seq<Category>)
      ensures this.version == version && this.repo == repo && this.run == run
      ensures this.overall == overall && this.categories == categories
    {
      this.version := version;
      this.repo := repo;
      this.run := run;
      this.overall := overall;
      this.categories := categories;
    }
  }

  // ----- the crude signals, with the `.get(..., default)` fallbacks -----

  /** `signals["structure"]["architecture"]["components"]` is non-empty. */
  predicate HasComponents(s: Signals) {
    s.structure.Some? && |s.structure.value.components| > 0
  }

  /** `has_ci`. */
  predicate HasCi(s: Signals) {
    s.ci.Some? && |s.ci.value.workflows| > 0
  }

  function InfraSummaryOf(s: Signals): string {
    if s.infra.Some? then s.infra.value.summary else ""
  }

  function ObservabilitySummaryOf(s: Signals): string {
    if s.observability.Some? then s.observability.value.summary else ""
  }

  predicate HasDeps(s: Signals) {
    s.securityDeps.Some? && |s.securityDeps.value.deps| > 0
  }

  predicate HasScanners(s: Signals) {
    s.securityDeps.Some? && |s.securityDeps.value.scanners| > 0
  }

  // ----- `clamp`, `_cat` -----

  /** `max(0.0, min(5.0, x))`. */
  function Clamp(x: int): int {
    if x < 0 then 0 else if x > 500 then 500 else x
  }

  lemma ClampSpec(x: int)
    ensures 0 <= Clamp(x) <= 500
    ensures 0 <= x <= 500 ==> Clamp(x) == x
  {
  }

  predicate NonEmpty(id: string) {
    id != ""
  }

  /** `[{"type": "snippet", "ref": eid} for eid in evidence_ids if eid]`. */
  function SnippetRefs(ids: seq<string>): seq<Ref>
    decreases |ids|
  {
    if |ids| == 0 then []
    else SnippetRefs(ids[..|ids| - 1]) + (if NonEmpty(ids[|ids| - 1]) then [Ref(Snippet, ids[|ids| - 1])] else [])
  }

  /** The `ref` of every reference, in order. */
  function RefStrings(ev: seq<Ref>): seq<string> {
    seq(|ev|, k requires 0 <= k < |ev| => ev[k].ref)
  }

  /** One snippet reference per non-empty claimed id, in the order claimed. */
  lemma {:induction false} SnippetRefsSpec(ids: seq<string>)
    ensures RefStrings(SnippetRefs(ids)) == Filter(ids, NonEmpty)
    ensures forall r :: r in SnippetRefs(ids) ==> r.refType == Snippet
    decreases |ids|
  {
    if |ids| > 0 {
      SnippetRefsSpec(ids[..|ids| - 1]);
    }
  }

  /** `_cat`: the name is looked up in the rubric dictionary (a `KeyError` for an unknown id). */
  function Cat(cid: string, score: int, conf: int, notes: string, ids: seq<string>): Category
    requires cid in CategoryNames()
  {
    Category(cid, CategoryNames()[cid], score, conf, notes, SnippetRefs(ids), [])
  }

  // ----- the ten categories -----

  const ArchNotes := "Inferred from structure + docs"
  const OpsNotes := "Inferred from deploy assets"
  const ObservabilityNotes := "Heuristic from repo artifacts"
  const ReliabilityNotes := "Not deeply analyzed in v1 (upgrade later)"
  const SecurityNotes := "Dependency hygiene + scanner hints"
  const PlaceholderNotes := "Not deeply analyzed in v1"
  const TestingNotes := "CI presence as proxy"
  const DeploymentNotes := "IaC/deploy artifacts detected"
  const Rationale := "Evidence-first v1 assessment. Some categories are placeholders until deeper detectors are added."

  /** The evidence ids each category claims, in rubric order. */
  const ClaimedIds: seq<seq<string>> := [
    [ReadmeId], [HelmId, KustomizeId], [OtelId, PrometheusId, GrafanaId], [],
    [DepsId, ScannersId], [], [CiId], [], [TerraformId, HelmId, KustomizeId], []]

  /** The ids the ten `_cat` calls pass, in call order. */
  const ScorerIds: seq<string> := ["arch_clarity", "ops_readiness", "observability", "reliability", "security",
                                   "data_contracts", "testing", "performance", "deployment", "cost"]

  /** Every id the scorer passes to `_cat` is a key of `CATEGORY_IDS` (so the lookup never
      raises `KeyError`), and the calls follow the rubric's order. */
  lemma ScorerIdsKnown()
    ensures |ScorerIds| == |Table| == 10
    ensures ScorerIds == Ids(Table)
    ensures forall i :: 0 <= i < |ScorerIds| ==> ScorerIds[i] in CategoryNames()
  {
    TableShape();
    CategoryNamesTotal();
  }

  /** The fixed confidence of each category, in rubric order. */
  const Confidence: seq<int> := [70, 65, 60, 45, 55, 40, 65, 40, 60, 35]

  function ArchScore(paths: set<string>, s: Signals): int {
    300 + (if HasComponents(s) then 50 else -50) + (if "README.md" in paths then 50 else 0)
  }

  function OpsScore(s: Signals): int {
    300 + (if Contains(InfraSummaryOf(s), "Helm") || Contains(InfraSummaryOf(s), "Kustomize") then 100 else 0)
  }

  function ObservabilityScore(s: Signals): int {
    250 + (if Contains(ObservabilitySummaryOf(s), "OpenTelemetry") then 150 else 0)
        + (if Contains(ObservabilitySummaryOf(s), "Prometheus") then 100 else 0)
  }

  function SecurityScore(s: Signals): int {
    250 + (if HasDeps(s) then 50 else 0) + (if HasScanners(s) then 50 else 0)
  }

  function TestingScore(s: Signals): int {
    300 + (if HasCi(s) then 100 else -50)
  }

  function DeploymentScore(s: Signals): int {
    300 + (if InfraSummaryOf(s) != "" then 150 else 0)
  }

  /** The notes of each category, in rubric order. */
  const CategoryNotes: seq<string> := [ArchNotes, OpsNotes, ObservabilityNotes, ReliabilityNotes, SecurityNotes,
                                       PlaceholderNotes, TestingNotes, PlaceholderNotes, DeploymentNotes,
                                       PlaceholderNotes]

  /** The raw (unclamped) score of each category, in rubric order: the six signal-driven ones
      and the four fixed placeholders. */
  function RawScores(arch: int, ops: int, obs: int, sec: int, test: int, dep: int): seq<int> {
    [arch, ops, obs, 300, sec, 250, test, 250, dep, 300]
  }

  /** The ten `_cat` calls, in rubric order, for the raw scores of the six signal-driven
      categories: call `k` passes the `k`-th id, raw score, confidence, notes and claimed ids. */
  function CategoriesFor(arch: int, ops: int, obs: int, sec: int, test: int, dep: int): (r: seq<Category>)
    ensures |r| == 10
  {
    ScorerIdsKnown();
    var raw := RawScores(arch, ops, obs, sec, test, dep);
    seq(10, k requires 0 <= k < 10 =>
      Cat(ScorerIds[k], Clamp(raw[k]), Confidence[k], CategoryNotes[k], ClaimedIds[k]))
  }

  /** The categories `score_repo` produces for the indexed paths and the signals. */
  function ScoredCategories(paths: set<string>, s: Signals): (r: seq<Category>)
    ensures |r| == 10
  {
    CategoriesFor(ArchScore(paths, s), OpsScore(s), ObservabilityScore(s), SecurityScore(s),
                  TestingScore(s), DeploymentScore(s))
  }

  function Scores(cats: seq<Category>): seq<int> {
    seq(|cats|, k requires 0 <= k < |cats| => cats[k].score)
  }

  function Confidences(cats: seq<Category>): seq<int> {
    seq(|cats|, k requires 0 <= k < |cats| => cats[k].confidence)
  }

  function EvidenceLists(cats: seq<Category>): seq<seq<Ref>> {
    seq(|cats|, k requires 0 <= k < |cats| => cats[k].evidence)
  }

  /** What `_merge_evidence` returns. */
  function MergedEvidence(cats: seq<Category>): seq<Ref> {
    Dedup(Concat(EvidenceLists(cats)))
  }

  /** The `overall` block for a non-empty list of categories. */
  function OverallOf(cats: seq<Category>): Overall
    requires |cats| > 0
  {
    Overall(Mean(Scores(cats)), Mean(Confidences(cats)), Rationale, MergedEvidence(cats))
  }

  // ----- properties of the scorer -----

  /** The ten categories for any raw scores are in rubric order, each named from the rubric. */
  lemma CategoriesNamed(arch: int, ops: int, obs: int, sec: int, test: int, dep: int)
    ensures |CategoriesFor(arch, ops, obs, sec, test, dep)| == |Table| == 10
    ensures forall i :: 0 <= i < 10 ==> CategoriesFor(arch, ops, obs, sec, test, dep)[i].id == Table[i].id
    ensures forall i :: 0 <= i < 10 ==> CategoriesFor(arch, ops, obs, sec, test, dep)[i].name == Table[i].name
  {
    var cats := CategoriesFor(arch, ops, obs, sec, test, dep);
    ScorerIdsKnown();
    CategoryNamesTotal();
    assert forall i :: 0 <= i < 10 ==> cats[i].name == CategoryNames()[Table[i].id];
  }

  /** Each of them has its fixed confidence, its claimed ids as snippet references and no
      recommendations. */
  lemma CategoriesFixed(arch: int, ops: int, obs: int, sec: int, test: int, dep: int)
    ensures Confidences(CategoriesFor(arch, ops, obs, sec, test, dep)) == Confidence
    ensures forall i :: 0 <= i < 10 ==>
              CategoriesFor(arch, ops, obs, sec, test, dep)[i].evidence == SnippetRefs(ClaimedIds[i])
    ensures forall i :: 0 <= i < 10 ==> CategoriesFor(arch, ops, obs, sec, test, dep)[i].recommendations == []
  {
  }

  /** The shape of what `score_repo` produces, whatever the repository. */
  lemma ScoredShape(paths: set<string>, s: Signals)
    ensures var cats := ScoredCategories(paths, s);
            && |cats| == 10
            && (forall i :: 0 <= i < 10 ==> cats[i].id == Table[i].id && cats[i].name == Table[i].name)
            && Confidences(cats) == Confidence
            && (forall i :: 0 <= i < 10 ==> cats[i].evidence == SnippetRefs(ClaimedIds[i]))
            && (forall i :: 0 <= i < 10 ==> cats[i].recommendations == [])
  {
    CategoriesNamed(ArchScore(paths, s), OpsScore(s), ObservabilityScore(s), SecurityScore(s),
                    TestingScore(s), DeploymentScore(s));
    CategoriesFixed(ArchScore(paths, s), OpsScore(s), ObservabilityScore(s), SecurityScore(s),
                    TestingScore(s), DeploymentScore(s));
  }

  /** The fixed confidences add up to 5.35, so the overall confidence of every scorecard is the
      exact mean 0.535 rounded half up, 0.54. */
  lemma ScoredConfidenceMean(paths: set<string>, s: Signals)
    ensures |ScoredCategories(paths, s)| == 10
    ensures Sum(Confidences(ScoredCategories(paths, s))) == 535
    ensures Mean(Confidences(ScoredCategories(paths, s))) == 54
  {
    ScoredShape(paths, s);
    var c := Confidence;
    assert c[..1][..0] == [];
    assert Sum(c[..1]) == 70;
    assert c[..2][..1] == c[..1];
    assert Sum(c[..2]) == 135;
    assert c[..3][..2] == c[..2];
    assert Sum(c[..3]) == 195;
    assert c[..4][..3] == c[..3];
    assert Sum(c[..4]) == 240;
    assert c[..5][..4] == c[..4];
    assert Sum(c[..5]) == 295;
    assert c[..6][..5] == c[..5];
    assert Sum(c[..6]) == 335;
    assert c[..7][..6] == c[..6];
    assert Sum(c[..7]) == 400;
    assert c[..8][..7] == c[..7];
    assert Sum(c[..8]) == 440;
    assert c[..9][..8] == c[..8];
    assert Sum(c[..9]) == 500;
    assert c[..9] == c[..|c| - 1];
  }

  /** Confidences and evidence never depend on the repository: two runs differ in scores only. */
  lemma ConfidenceAndEvidenceFixed(paths1: set<string>, s1: Signals, paths2: set<string>, s2: Signals)
    ensures var c1, c2 := ScoredCategories(paths1, s1), ScoredCategories(paths2, s2);
            && |c1| == |c2|
            && Confidences(c1) == Confidences(c2)
            && EvidenceLists(c1) == EvidenceLists(c2)
            && (forall i :: 0 <= i < |c1| ==> c1[i].id == c2[i].id && c1[i].notes == c2[i].notes)
  {
    ScoredShape(paths1, s1);
    ScoredShape(paths2, s2);
  }

  /** Every category score lies in [0, 5]. */
  lemma ScoresInRange(paths: set<string>, s: Signals)
    ensures forall c :: c in ScoredCategories(paths, s) ==> 0 <= c.score <= 500
  {
    var cats := ScoredCategories(paths, s);
    forall c | c in cats ensures 0 <= c.score <= 500 {
      var i :| 0 <= i < |cats| && cats[i] == c;
    }
  }

  /** The architecture, operations and observability scores; none of them needs the clamp. */
  lemma LeadingScores(paths: set<string>, s: Signals)
    ensures var cats := ScoredCategories(paths, s);
            && |cats| == 10
            && cats[0].score == (if HasComponents(s) then 350 else 250) + (if "README.md" in paths then 50 else 0)
            && (cats[1].score == 400 <==> Contains(InfraSummaryOf(s), "Helm") || Contains(InfraSummaryOf(s), "Kustomize"))
            && (cats[1].score == 400 || cats[1].score == 300)
            && cats[2].score == 250 + (if Contains(ObservabilitySummaryOf(s), "OpenTelemetry") then 150 else 0)
                                    + (if Contains(ObservabilitySummaryOf(s), "Prometheus") then 100 else 0)
  {
    ClampedScores(paths, s);
  }

  /** The security, testing and deployment scores; none of them needs the clamp. */
  lemma TrailingScores(paths: set<string>, s: Signals)
    ensures var cats := ScoredCategories(paths, s);
            && |cats| == 10
            && cats[4].score == 250 + (if HasDeps(s) then 50 else 0) + (if HasScanners(s) then 50 else 0)
            && cats[6].score == (if HasCi(s) then 400 else 250)
            && cats[8].score == (if InfraSummaryOf(s) != "" then 450 else 300)
  {
    ClampedScores(paths, s);
  }

  /** The four placeholders always score 3.0, 2.5, 2.5 and 3.0. */
  lemma PlaceholderScores(paths: set<string>, s: Signals)
    ensures var cats := ScoredCategories(paths, s);
            && |cats| == 10
            && cats[3].score == 300 && cats[5].score == 250 && cats[7].score == 250 && cats[9].score == 300
  {
    ClampedScores(paths, s);
  }

  /** Every raw score lies in [0, 5], so the clamp leaves each of them as it is. */
  lemma ClampedScores(paths: set<string>, s: Signals)
    ensures |ScoredCategories(paths, s)| == 10
    ensures forall k :: 0 <= k < 10 ==>
              ScoredCategories(paths, s)[k].score ==
              RawScores(ArchScore(paths, s), OpsScore(s), ObservabilityScore(s), SecurityScore(s),
                        TestingScore(s), DeploymentScore(s))[k]
  {
    var arch, ops, obs := ArchScore(paths, s), OpsScore(s), ObservabilityScore(s);
    var sec, test, dep := SecurityScore(s), TestingScore(s), DeploymentScore(s);
    var raw := RawScores(arch, ops, obs, sec, test, dep);
    assert forall k :: 0 <= k < |raw| ==> 0 <= raw[k] <= 500;
    ClampKeeps(raw);
    CategoriesClamped(arch, ops, obs, sec, test, dep);
  }

  lemma ClampKeeps(raw: seq<int>)
    requires forall k :: 0 <= k < |raw| ==> 0 <= raw[k] <= 500
    ensures forall k :: 0 <= k < |raw| ==> Clamp(raw[k]) == raw[k]
  {
    forall k | 0 <= k < |raw| ensures Clamp(raw[k]) == raw[k] {
      ClampSpec(raw[k]);
    }
  }

  /** Call `k` passes the `k`-th raw score through the clamp. */
  lemma CategoriesClamped(arch: int, ops: int, obs: int, sec: int, test: int, dep: int)
    ensures |CategoriesFor(arch, ops, obs, sec, test, dep)| == 10
    ensures forall k :: 0 <= k < 10 ==>
              CategoriesFor(arch, ops, obs, sec, test, dep)[k].score == Clamp(RawScores(arch, ops, obs, sec, test, dep)[k])
  {
  }

  /** The snippet references `_cat` builds for a list of claimed ids that are all non-empty. */
  lemma ClaimedRefs()
    ensures forall i :: 0 <= i < |ClaimedIds| ==>
              RefStrings(SnippetRefs(ClaimedIds[i])) == ClaimedIds[i]
  {
    forall i | 0 <= i < |ClaimedIds| ensures RefStrings(SnippetRefs(ClaimedIds[i])) == ClaimedIds[i] {
      SnippetRefsSpec(ClaimedIds[i]);
      FilterAll(ClaimedIds[i], NonEmpty);
    }
  }

  lemma {:induction false} FilterAll<T>(s: seq<T>, keep: T -> bool)
    requires forall k :: 0 <= k < |s| ==> keep(s[k])
    ensures Filter(s, keep) == s
    decreases |s|
  {
    if |s| > 0 {
      FilterAll(s[..|s| - 1], keep);
      assert s[..|s| - 1] + [s[|s| - 1]] == s;
    }
  }

  /** The merged evidence: no repeated (type, ref) pair, exactly the pairs some category
      carries, listed in the order they are first met. */
  lemma MergedEvidenceSpec(cats: seq<Category>)
    ensures NoDup(MergedEvidence(cats))
    ensures forall e :: e in MergedEvidence(cats) <==> e in Concat(EvidenceLists(cats))
    ensures forall e :: e in MergedEvidence(cats) <==> exists i :: 0 <= i < |cats| && e in cats[i].evidence
    ensures var out, all := MergedEvidence(cats), Concat(EvidenceLists(cats));
            forall i, j :: 0 <= i < j < |out| ==> FirstIndex(all, out[i]) < FirstIndex(all, out[j])
  {
    var lists := EvidenceLists(cats);
    var all := Concat(lists);
    DedupSpec(all);
    forall e ensures e in all <==> exists i :: 0 <= i < |cats| && e in cats[i].evidence {
      InConcat(lists, e);
      if exists i :: 0 <= i < |cats| && e in cats[i].evidence {
        var i :| 0 <= i < |cats| && e in cats[i].evidence;
        assert e in lists[i];
      }
    }
  }

  /** The overall score and confidence lie within [0, 5] and [0, 1]. */
  lemma OverallInRange(cats: seq<Category>)
    requires |cats| > 0
    requires forall c :: c in cats ==> 0 <= c.score <= 500 && 0 <= c.confidence <= 100
    ensures 0 <= OverallOf(cats).score <= 500 && 0 <= OverallOf(cats).confidence <= 100
  {
    MeanWithin(Scores(cats), 0, 500);
    MeanWithin(Confidences(cats), 0, 100);
  }

  // ----- `_merge_evidence` and `score_repo` -----

  /** `_merge_evidence`: the loop over categories and their evidence with a `seen` set. */
  method MergeEvidence(cats: seq<Category>) returns (out: seq<Ref>)
    ensures out == MergedEvidence(cats)
  {
    var seen: set<Ref> := {};
    out := [];
    ghost var done: seq<Ref> := [];
    for i := 0 to |cats|
      invariant done == Concat(EvidenceLists(cats)[..i])
      invariant out == Dedup(done)
      invariant forall e :: e in seen <==> e in out
    {
      var ev := cats[i].evidence;
      assert EvidenceLists(cats)[..i + 1] == EvidenceLists(cats)[..i] + [ev];
      ConcatSnoc(EvidenceLists(cats)[..i], ev);
      out, seen := AddUnseen(done, out, seen, ev);
      done := done + ev;
    }
    assert EvidenceLists(cats)[..|cats|] == EvidenceLists(cats);
  }

  /** The inner loop of `_merge_evidence`: each reference of one category not seen before is
      added, so the output stays the first-seen deduplication of everything met so far. */
  method AddUnseen(ghost done: seq<Ref>, out0: seq<Ref>, seen0: set<Ref>, ev: seq<Ref>)
    returns (out: seq<Ref>, seen: set<Ref>)
    requires out0 == Dedup(done)
    requires forall e :: e in seen0 <==> e in out0
    ensures out == Dedup(done + ev)
    ensures forall e :: e in seen <==> e in out
  {
    out, seen := out0, seen0;
    ghost var met := done;
    assert done + ev[..0] == done;
    for j := 0 to |ev|
      invariant met == done + ev[..j]
      invariant out == Dedup(met)
      invariant forall e :: e in seen <==> e in out
    {
      DedupSnoc(met, ev[j]);
      if ev[j] !in seen {
        seen := seen + {ev[j]};
        out := out + [ev[j]];
      }
      assert done + ev[..j + 1] == met + [ev[j]];
      met := met + [ev[j]];
    }
    assert ev[..|ev|] == ev;
  }

  /** `sum(...) / len(...)` followed by `round(..., 2)`, as the scorer's generator sums do it. */
  method MeanOf(xs: seq<int>) returns (m: int)
    requires |xs| > 0
    ensures m == Mean(xs)
  {
    var total := 0;
    for i := 0 to |xs|
      invariant total == Sum(xs[..i])
    {
      assert xs[..i + 1][..i] == xs[..i];
      total := total + xs[i];
    }
    assert xs[..|xs|] == xs;
    m := RoundDiv(total, |xs|);
  }

  /** The category half of `score_repo`: the crude signals, the `+=` adjustments and the ten
      `_cat` calls in rubric order. */
  method ScoreCategories(index: Index, s: Signals) returns (categories: seq<Category>)
    ensures categories == ScoredCategories(Paths(index), s)
  {
    var hasCi := HasCi(s);
    var infraSummary := InfraSummaryOf(s);
    var obsSummary := ObservabilitySummaryOf(s);
    var arch := 300 + (if HasComponents(s) then 50 else -50);
    if "README.md" in Paths(index) {
      arch := arch + 50;
    }
    var ops := 300 + (if Contains(infraSummary, "Helm") || Contains(infraSummary, "Kustomize") then 100 else 0);
    var obs := 250;
    if Contains(obsSummary, "OpenTelemetry") {
      obs := obs + 150;
    }
    if Contains(obsSummary, "Prometheus") {
      obs := obs + 100;
    }
    var sec := 250 + (if HasDeps(s) then 50 else 0) + (if HasScanners(s) then 50 else 0);
    var test := 300 + (if hasCi then 100 else -50);
    var dep := 300 + (if infraSummary != "" then 150 else 0);
    assert arch == ArchScore(Paths(index), s) && ops == OpsScore(s) && obs == ObservabilityScore(s);
    assert sec == SecurityScore(s) && test == TestingScore(s) && dep == DeploymentScore(s);

    categories := CategoriesFor(arch, ops, obs, sec, test, dep);
    ScoredFor(Paths(index), s);
  }

  lemma ScoredFor(paths: set<string>, s: Signals)
    ensures ScoredCategories(paths, s)
            == CategoriesFor(ArchScore(paths, s), OpsScore(s), ObservabilityScore(s), SecurityScore(s),
                             TestingScore(s), DeploymentScore(s))
  {
  }

  /** `score_repo`: the categories, then the overall block over them.
      `focus`, `cfg` and the ledger path are accepted by the source and never read. */
  method ScoreRepo(repo: RepoMeta, runId: string, index: Index, s: Signals) returns (card: Scorecard)
    ensures fresh(card)
    ensures card.categories == ScoredCategories(Paths(index), s)
    ensures card.overall == OverallOf(card.categories)
    ensures card.version == 1 && card.repo == repo && card.run == RunInfo(runId, "")
  {
    var categories := ScoreCategories(index, s);
    ScoredShape(Paths(index), s);
    var score := MeanOf(Scores(categories));
    var confidence := MeanOf(Confidences(categories));
    var evidence := MergeEvidence(categories);
    card := new Scorecard(1, repo, RunInfo(runId, ""), Overall(score, confidence, Rationale, evidence), categories);
  }
}
