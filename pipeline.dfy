/**
 * `run_analysis` without its I/O: index the candidate files, run the extractors in their
 * fixed order against one fresh ledger, score the signals and pass the scorecard through the
 * evidence gate with the configuration defaults.
 */
module Pipeline {
  import opened Wrappers
  import opened Numbers
  import opened Seqs
  import opened Text
  import opened Evidence
  import opened FileIndex
  import opened StructureExtractor
  import opened CiExtractor
  import opened DocsExtractor
  import InfraExtractor
  import ObservabilityExtractor
  import opened SecurityExtractor
  import opened Scoring
  import opened EvidenceGate

  // the defaults of `AnalysisCfg` and `EvidenceCfg`
  const MaxFilesScanned := 2500
  const MaxFileBytes := 750000
  const RequireForClaims := true
  const MinConfidenceIfNoEvidence := 35

  /** `extract_performance_smells` is a stub: no risks and nothing written. */
  datatype PerformanceSignal = PerformanceSignal(risks: seq<string>)
  const NoRisks := PerformanceSignal([])

  /** Some indexed path satisfies `keep`. */
  ghost predicate AnyPath(paths: set<string>, keep: string -> bool) {
    exists p :: p in paths && keep(p)
  }

  function IdIf(cond: bool, id: string): set<string> {
    if cond then {id} else {}
  }

  predicate IsManifest(p: string) {
    p in Manifests
  }

  /** What the scorer reads of each signal, as its extractor promises it for the indexed paths. */
  ghost predicate CiExtracted(ci: CiSignal, paths: set<string>) {
    forall p :: p in ci.workflows <==> p in paths && IsWorkflow(p)
  }

  ghost predicate InfraExtracted(infra: InfraExtractor.InfraSignal, paths: set<string>) {
    var h := infra.hits;
    && InfraExtractor.HitsMatch(h, paths)
    && infra.summary == InfraExtractor.InfraSummary(|h.terraform| > 0, |h.helm| > 0, |h.kustomize| > 0)
  }

  ghost predicate ObservabilityExtracted(obs: ObservabilityExtractor.ObservabilitySignal, paths: set<string>) {
    var h := obs.signals;
    && ObservabilityExtractor.HitsMatch(h, paths)
    && obs.summary == ObservabilityExtractor.ObservabilitySummary(|h.prom| > 0, |h.graf| > 0, |h.otel| > 0)
  }

  ghost predicate SecurityExtracted(sec: SecuritySignal, paths: set<string>) {
    && sec.deps == PresentManifests(paths)
    && Lists(sec.scanners, set p | p in paths && IsScannerConfig(p))
  }

  /** What the scorer reads of the signals, as the extractors promise it for an index. */
  ghost predicate Extracted(s: Signals, index: Index) {
    && s.structure.Some? && s.structure.value.components == Components(Ranked(index.files))
    && s.ci.Some? && CiExtracted(s.ci.value, Paths(index))
    && s.infra.Some? && InfraExtracted(s.infra.value, Paths(index))
    && s.observability.Some? && ObservabilityExtracted(s.observability.value, Paths(index))
    && s.securityDeps.Some? && SecurityExtracted(s.securityDeps.value, Paths(index))
  }

  /** A hit list that lists the matching paths is non-empty exactly when one path matches. */
  lemma ListedIff(hits: seq<string>, paths: set<string>, keep: string -> bool)
    requires Lists(hits, set p | p in paths && keep(p))
    ensures |hits| > 0 <==> AnyPath(paths, keep)
  {
    if |hits| > 0 {
      assert hits[0] in hits;
    }
    if AnyPath(paths, keep) {
      var p :| p in paths && keep(p);
      assert p in hits;
    }
  }

  lemma ManifestsIff(paths: set<string>)
    ensures |PresentManifests(paths)| > 0 <==> AnyPath(paths, IsManifest)
  {
    PresentManifestsSpec(paths);
    var deps := PresentManifests(paths);
    assert |deps| > 0 ==> deps[0] in deps;
    assert forall p :: p in paths && IsManifest(p) ==> p in deps;
  }

  lemma WorkflowsIff(workflows: seq<string>, paths: set<string>)
    requires forall p :: p in workflows <==> p in paths && IsWorkflow(p)
    ensures |workflows| > 0 <==> AnyPath(paths, IsWorkflow)
  {
    assert |workflows| > 0 ==> workflows[0] in workflows;
  }

  /** A hit list's id is written exactly when some path matches. */
  lemma HitId(id: string, hits: seq<string>, paths: set<string>, keep: string -> bool)
    requires Lists(hits, set p | p in paths && keep(p))
    ensures IdIfHit(id, hits) == IdIf(AnyPath(paths, keep), id)
  {
    ListedIff(hits, paths, keep);
  }

  // ----- the ids the extractors write -----

  /** Every id an extractor can write, in the order `run_analysis` runs the extractors. */
  const WrittenIdOrder: seq<string> := [
    ReadmeId, SecurityId, TopLevelId, CiId,
    InfraExtractor.TerraformId, InfraExtractor.HelmId, InfraExtractor.KustomizeId,
    ObservabilityExtractor.PrometheusId, ObservabilityExtractor.GrafanaId, ObservabilityExtractor.OtelId,
    DepsId, ScannersId]

  /** The condition on the index under which the `k`-th id of `WrittenIdOrder` is written. */
  ghost predicate Condition(index: Index, k: nat) {
    var paths := Paths(index);
    if k == 0 then "README.md" in paths
    else if k == 1 then "SECURITY.md" in paths
    else if k == 2 then AnyPath(paths, Nested)
    else if k == 3 then AnyPath(paths, IsWorkflow)
    else if k == 4 then AnyPath(paths, InfraExtractor.IsTerraform)
    else if k == 5 then AnyPath(paths, InfraExtractor.IsHelm)
    else if k == 6 then AnyPath(paths, InfraExtractor.IsKustomize)
    else if k == 7 then AnyPath(paths, ObservabilityExtractor.IsPrometheus)
    else if k == 8 then AnyPath(paths, ObservabilityExtractor.IsGrafana)
    else if k == 9 then AnyPath(paths, ObservabilityExtractor.IsOtel)
    else if k == 10 then AnyPath(paths, IsManifest)
    else k == 11 && AnyPath(paths, IsScannerConfig)
  }

  /** The ids among the first `n` of `WrittenIdOrder` whose condition holds. */
  ghost function Written(index: Index, n: nat): set<string>
    requires n <= |WrittenIdOrder|
  {
    set k | 0 <= k < n && Condition(index, k) :: WrittenIdOrder[k]
  }

  /** The ids the six extractors write for an index. */
  ghost function WrittenIds(index: Index): set<string> {
    Written(index, |WrittenIdOrder|)
  }

  /** The id written at position `k`, if its condition holds. */
  ghost function IdAt(index: Index, k: nat): set<string>
    requires k < |WrittenIdOrder|
  {
    IdIf(Condition(index, k), WrittenIdOrder[k])
  }

  lemma WrittenStep(index: Index, n: nat)
    requires n < |WrittenIdOrder|
    ensures Written(index, n + 1) == Written(index, n) + IdAt(index, n)
  {
    if Condition(index, n) {
      assert WrittenIdOrder[n] in Written(index, n + 1);
    }
  }

  lemma WrittenIdsDistinct()
    ensures |WrittenIdOrder| == 12 && NoDup(WrittenIdOrder)
  {
  }

  /** Each id is in the ledger after the extractors exactly when its condition holds. */
  lemma WrittenIdsSpec(index: Index)
    ensures forall k :: 0 <= k < |WrittenIdOrder| ==> (WrittenIdOrder[k] in WrittenIds(index) <==> Condition(index, k))
  {
    WrittenIdsDistinct();
    forall k | 0 <= k < |WrittenIdOrder|
      ensures WrittenIdOrder[k] in WrittenIds(index) <==> Condition(index, k)
    {
      if WrittenIdOrder[k] in WrittenIds(index) {
        var j :| 0 <= j < |WrittenIdOrder| && Condition(index, j) && WrittenIdOrder[j] == WrittenIdOrder[k];
      }
    }
  }

  // ----- step 3: each extractor as the pipeline sees it, then all six in order -----

  method RunDocs(index: Index, log: EvidenceLog) returns (docs: DocsSignal)
    requires log.Valid()
    modifies log
    ensures log.Valid()
    ensures log.PresentIds()
            == old(log.PresentIds()) + IdAt(index, 0) + IdAt(index, 1)
  {
    docs := ExtractDocs(index, log);
  }

  method RunStructure(index: Index, log: EvidenceLog) returns (structure: StructureSignal)
    requires log.Valid()
    modifies log
    ensures log.Valid() && structure.components == Components(Ranked(index.files))
    ensures log.PresentIds() == old(log.PresentIds()) + IdAt(index, 2)
  {
    structure := ExtractStructure(index, log);
    NestedIff(index);
  }

  method RunCi(index: Index, log: EvidenceLog) returns (ci: CiSignal)
    requires log.Valid()
    modifies log
    ensures log.Valid() && CiExtracted(ci, Paths(index))
    ensures log.PresentIds() == old(log.PresentIds()) + IdAt(index, 3)
  {
    ci := ExtractCi(index, log);
    WorkflowsIff(ci.workflows, Paths(index));
  }

  lemma InfraIds(index: Index)
    ensures var paths := Paths(index);
            && IdAt(index, 4) == IdIf(AnyPath(paths, InfraExtractor.IsTerraform), InfraExtractor.TerraformId)
            && IdAt(index, 5) == IdIf(AnyPath(paths, InfraExtractor.IsHelm), InfraExtractor.HelmId)
            && IdAt(index, 6) == IdIf(AnyPath(paths, InfraExtractor.IsKustomize), InfraExtractor.KustomizeId)
  {
  }

  lemma ObservabilityIds(index: Index)
    ensures var paths := Paths(index);
            && IdAt(index, 7) == IdIf(AnyPath(paths, ObservabilityExtractor.IsPrometheus), ObservabilityExtractor.PrometheusId)
            && IdAt(index, 8) == IdIf(AnyPath(paths, ObservabilityExtractor.IsGrafana), ObservabilityExtractor.GrafanaId)
            && IdAt(index, 9) == IdIf(AnyPath(paths, ObservabilityExtractor.IsOtel), ObservabilityExtractor.OtelId)
  {
  }

  method RunInfra(index: Index, log: EvidenceLog) returns (infra: InfraExtractor.InfraSignal)
    requires log.Valid()
    modifies log
    ensures log.Valid() && InfraExtracted(infra, Paths(index))
    ensures log.PresentIds()
            == old(log.PresentIds()) + IdAt(index, 4) + IdAt(index, 5) + IdAt(index, 6)
  {
    var paths := Paths(index);
    infra := InfraExtractor.ExtractInfra(index, log);
    InfraIds(index);
    HitId(InfraExtractor.TerraformId, infra.hits.terraform, paths, InfraExtractor.IsTerraform);
    HitId(InfraExtractor.HelmId, infra.hits.helm, paths, InfraExtractor.IsHelm);
    HitId(InfraExtractor.KustomizeId, infra.hits.kustomize, paths, InfraExtractor.IsKustomize);
  }

  method RunObservability(index: Index, log: EvidenceLog) returns (obs: ObservabilityExtractor.ObservabilitySignal)
    requires log.Valid()
    modifies log
    ensures log.Valid() && ObservabilityExtracted(obs, Paths(index))
    ensures log.PresentIds()
            == old(log.PresentIds()) + IdAt(index, 7) + IdAt(index, 8) + IdAt(index, 9)
  {
    var paths := Paths(index);
    obs := ObservabilityExtractor.ExtractObservability(index, log);
    ObservabilityIds(index);
    HitId(ObservabilityExtractor.PrometheusId, obs.signals.prom, paths, ObservabilityExtractor.IsPrometheus);
    HitId(ObservabilityExtractor.GrafanaId, obs.signals.graf, paths, ObservabilityExtractor.IsGrafana);
    HitId(ObservabilityExtractor.OtelId, obs.signals.otel, paths, ObservabilityExtractor.IsOtel);
  }

  method RunSecurity(index: Index, log: EvidenceLog) returns (sec: SecuritySignal)
    requires log.Valid()
    modifies log
    ensures log.Valid() && SecurityExtracted(sec, Paths(index))
    ensures log.PresentIds()
            == old(log.PresentIds()) + IdAt(index, 10) + IdAt(index, 11)
  {
    sec := ExtractSecurityDeps(index, log);
    ManifestsIff(Paths(index));
    HitId(ScannersId, sec.scanners, Paths(index), IsScannerConfig);
  }

  // Union regrouping, stated on bare sets so that no definition is unfolded while applying it.
  lemma Regroup1<T>(start: set<T>, w: set<T>, a: set<T>)
    ensures (start + w) + a == start + (w + a)
  {
  }

  lemma Regroup2<T>(start: set<T>, w: set<T>, a: set<T>, b: set<T>)
    ensures (start + w) + a + b == start + (w + a + b)
  {
  }

  lemma Regroup3<T>(start: set<T>, w: set<T>, a: set<T>, b: set<T>, c: set<T>)
    ensures (start + w) + a + b + c == start + (w + a + b + c)
  {
  }

  /** Step 3 of `run_analysis`: the six extractors, in order, against one ledger; together
      they write exactly the ids of `WrittenIds`. */
  method ExtractAll(index: Index, log: EvidenceLog) returns (docs: DocsSignal, signals: Signals)
    requires log.Valid()
    modifies log
    ensures log.Valid()
    ensures Extracted(signals, index)
    ensures log.PresentIds() == old(log.PresentIds()) + WrittenIds(index)
  {
    ghost var start := log.PresentIds();
    assert start == start + Written(index, 0);
    docs := RunDocs(index, log);
    WrittenStep(index, 0);
    WrittenStep(index, 1);
    Regroup2(start, Written(index, 0), IdAt(index, 0), IdAt(index, 1));
    assert log.PresentIds() == start + Written(index, 2);
    var structure := RunStructure(index, log);
    WrittenStep(index, 2);
    Regroup1(start, Written(index, 2), IdAt(index, 2));
    assert log.PresentIds() == start + Written(index, 3);
    var ci := RunCi(index, log);
    WrittenStep(index, 3);
    Regroup1(start, Written(index, 3), IdAt(index, 3));
    assert log.PresentIds() == start + Written(index, 4);
    var infra := RunInfra(index, log);
    WrittenStep(index, 4);
    WrittenStep(index, 5);
    WrittenStep(index, 6);
    Regroup3(start, Written(index, 4), IdAt(index, 4), IdAt(index, 5), IdAt(index, 6));
    assert log.PresentIds() == start + Written(index, 7);
    var obs := RunObservability(index, log);
    WrittenStep(index, 7);
    WrittenStep(index, 8);
    WrittenStep(index, 9);
    Regroup3(start, Written(index, 7), IdAt(index, 7), IdAt(index, 8), IdAt(index, 9));
    assert log.PresentIds() == start + Written(index, 10);
    var sec := RunSecurity(index, log);
    WrittenStep(index, 10);
    WrittenStep(index, 11);
    Regroup2(start, Written(index, 10), IdAt(index, 10), IdAt(index, 11));
    assert log.PresentIds() == start + Written(index, 12);
    signals := Signals(Some(structure), Some(ci), Some(infra), Some(obs), Some(sec));
  }

  /** The ids already in the run directory's `evidence.jsonl` before the extractors run:
      none for a new run directory (`None`), and those of its lines for a reused one
      (`mkdir(exist_ok=True)` keeps the file and the extractors append to it). */
  function EarlierIds(earlier: Option<seq<LogLine>>): set<string> {
    if earlier.Some? then IdsOf(earlier.value) else {}
  }

  /** Steps 3 to 5 of `run_analysis` on an index: the ledger is whatever the run directory
      holds (`earlier`), the extractors append to it, `score_repo` scores the signals
      (performance_smells contributes nothing), and the gate reads the ledger back with the
      configured floor. */
  method AnalyzeIndex(index: Index, repo: RepoMeta, runId: string, earlier: Option<seq<LogLine>>)
    returns (log: EvidenceLog, docs: DocsSignal, signals: Signals, perf: PerformanceSignal, card: Scorecard)
    ensures fresh(log) && fresh(card) && log.Valid()
    ensures Extracted(signals, index) && perf.risks == []
    ensures log.PresentIds() == EarlierIds(earlier) + WrittenIds(index)
    ensures card.categories
              == GateAll(ScoredCategories(Paths(index), signals), EarlierIds(earlier) + WrittenIds(index),
                         MinConfidenceIfNoEvidence)
    ensures card.overall.confidence == Mean(Confidences(card.categories))
    ensures card.overall.score == Mean(Scores(ScoredCategories(Paths(index), signals)))
  {
    if earlier.Some? {
      log := new EvidenceLog.Existing(earlier.value);
    } else {
      log := new EvidenceLog();
    }
    docs, signals := ExtractAll(index, log);
    ghost var present := log.PresentIds();
    assert present == EarlierIds(earlier) + WrittenIds(index);
    perf := NoRisks;
    card := ScoreAndGate(repo, runId, index, signals, log);
    assert log.PresentIds() == present;
  }

  /** `run_analysis` from the candidate files to the gated scorecard, with the configured
      bounds on the index. */
  method RunAnalysis(cands: seq<Candidate>, includes: string -> bool, excludes: string -> bool,
                     repo: RepoMeta, runId: string, earlier: Option<seq<LogLine>>)
    returns (index: Index, log: EvidenceLog, docs: DocsSignal, signals: Signals,
             perf: PerformanceSignal, card: Scorecard)
    ensures fresh(log) && fresh(card) && log.Valid()
    ensures index.files == Take(Selected(cands, includes, excludes, MaxFileBytes), Limit(MaxFilesScanned))
    ensures Extracted(signals, index) && perf.risks == []
    ensures log.PresentIds() == EarlierIds(earlier) + WrittenIds(index)
    ensures card.categories
              == GateAll(ScoredCategories(Paths(index), signals), EarlierIds(earlier) + WrittenIds(index),
                         MinConfidenceIfNoEvidence)
    ensures card.overall.confidence == Mean(Confidences(card.categories))
    ensures card.overall.score == Mean(Scores(ScoredCategories(Paths(index), signals)))
  {
    index := BuildFileIndex(cands, includes, excludes, MaxFilesScanned, MaxFileBytes);
    log, docs, signals, perf, card := AnalyzeIndex(index, repo, runId, earlier);
  }

  // ----- the keyword call of step 4 -----

  /** The parameters `score_repo` declares; it accepts no other keyword. */
  const ScoreRepoParameters: set<string> :=
    {"repo_meta", "run_id", "focus", "cfg", "index", "signals", "evidence_jsonl_path"}

  /** The keywords `run_analysis` passes to `score_repo`, in call order. */
  const ScoreRepoKeywords: seq<string> :=
    ["repo_meta", "run_id", "focus", "cfg", "index", "signals", "evidence_jsonl_path", "present_evidence_ids"]

  /** A call by keywords either binds, or raises a `TypeError` naming an unexpected keyword. */
  datatype CallOutcome = Bound | UnexpectedKeyword(keyword: string)

  /** Binding keyword arguments to a callee without `**kwargs`: the first keyword it does not
      declare is reported. */
  function CallByKeywords(params: set<string>, keywords: seq<string>): (r: CallOutcome)
    ensures r == Bound <==> forall k :: 0 <= k < |keywords| ==> keywords[k] in params
    ensures r.UnexpectedKeyword? ==> r.keyword in keywords && r.keyword !in params
    decreases |keywords|
  {
    if |keywords| == 0 then Bound
    else if keywords[0] !in params then UnexpectedKeyword(keywords[0])
    else CallByKeywords(params, keywords[1..])
  }

  /** As written, the scoring call never binds: every run stops there with a `TypeError`. */
  lemma ScoreCallRejected()
    ensures CallByKeywords(ScoreRepoParameters, ScoreRepoKeywords) == UnexpectedKeyword("present_evidence_ids")
  {
    assert ScoreRepoKeywords[7..] == ["present_evidence_ids"];
  }

  /** Without the extra keyword the call binds; `ScoreAndGate` makes this call. */
  lemma ScoreCallCorrected()
    ensures CallByKeywords(ScoreRepoParameters, ScoreRepoKeywords[..7]) == Bound
  {
  }

  /** Steps 4 and 5 of `run_analysis`: score the signals, then gate the scorecard against the
      ledger with the configured floor. */
  method ScoreAndGate(repo: RepoMeta, runId: string, index: Index, signals: Signals, log: EvidenceLog)
    returns (card: Scorecard)
    ensures fresh(card)
    ensures card.categories
              == GateAll(ScoredCategories(Paths(index), signals), log.PresentIds(), MinConfidenceIfNoEvidence)
    ensures card.overall.confidence == Mean(Confidences(card.categories))
    ensures card.overall.score == Mean(Scores(ScoredCategories(Paths(index), signals)))
  {
    card := ScoreRepo(repo, runId, index, signals);
    ScoredCount(Paths(index), signals);
    Gate(card, log, RequireForClaims, MinConfidenceIfNoEvidence);
  }

  lemma ScoredCount(paths: set<string>, s: Signals)
    ensures |ScoredCategories(paths, s)| == 10
  {
    CategoriesNamed(ArchScore(paths, s), OpsScore(s), ObservabilityScore(s), SecurityScore(s),
                    TestingScore(s), DeploymentScore(s));
  }

  // ----- what the composition promises, in terms of the indexed paths alone -----

  /** Some component exists exactly when some indexed path lies in a folder. */
  lemma NestedIff(index: Index)
    ensures |Ranked(index.files)| > 0 <==> AnyPath(Paths(index), Nested)
  {
    RankedNonEmptyIff(index.files);
    if AnyPath(Paths(index), Nested) {
      var p :| p in Paths(index) && Nested(p);
      var i :| 0 <= i < |index.files| && index.files[i].path == p;
    }
  }

  // ----- each extractor's signal, read back in terms of the indexed paths -----

  /** There are components exactly when some indexed path lies in a folder. */
  lemma StructureFact(index: Index, structure: StructureSignal)
    requires structure.components == Components(Ranked(index.files))
    ensures |structure.components| > 0 <==> AnyPath(Paths(index), Nested)
  {
    ComponentsLength(Ranked(index.files));
    NestedIff(index);
  }

  /** There are workflows exactly when some indexed path is a workflow file. */
  lemma CiFact(ci: CiSignal, paths: set<string>)
    requires CiExtracted(ci, paths)
    ensures |ci.workflows| > 0 <==> AnyPath(paths, IsWorkflow)
  {
    WorkflowsIff(ci.workflows, paths);
  }

  /** The infra summary is the one for the IaC kinds some indexed path is of. */
  lemma InfraFact(infra: InfraExtractor.InfraSignal, paths: set<string>)
    requires InfraExtracted(infra, paths)
    ensures infra.summary == InfraExtractor.InfraSummary(AnyPath(paths, InfraExtractor.IsTerraform),
                                                         AnyPath(paths, InfraExtractor.IsHelm),
                                                         AnyPath(paths, InfraExtractor.IsKustomize))
  {
    var h := infra.hits;
    ListedIff(h.terraform, paths, InfraExtractor.IsTerraform);
    ListedIff(h.helm, paths, InfraExtractor.IsHelm);
    ListedIff(h.kustomize, paths, InfraExtractor.IsKustomize);
  }

  /** The observability summary is the one for the artifact kinds some indexed path is of. */
  lemma ObservabilityFact(obs: ObservabilityExtractor.ObservabilitySignal, paths: set<string>)
    requires ObservabilityExtracted(obs, paths)
    ensures obs.summary == ObservabilityExtractor.ObservabilitySummary(
              AnyPath(paths, ObservabilityExtractor.IsPrometheus), AnyPath(paths, ObservabilityExtractor.IsGrafana),
              AnyPath(paths, ObservabilityExtractor.IsOtel))
  {
    var h := obs.signals;
    ListedIff(h.prom, paths, ObservabilityExtractor.IsPrometheus);
    ListedIff(h.graf, paths, ObservabilityExtractor.IsGrafana);
    ListedIff(h.otel, paths, ObservabilityExtractor.IsOtel);
  }

  /** There are dependency manifests, and scanner configs, exactly when some indexed path is one. */
  lemma SecurityFact(sec: SecuritySignal, paths: set<string>)
    requires SecurityExtracted(sec, paths)
    ensures |sec.deps| > 0 <==> AnyPath(paths, IsManifest)
    ensures |sec.scanners| > 0 <==> AnyPath(paths, IsScannerConfig)
  {
    ManifestsIff(paths);
    ListedIff(sec.scanners, paths, IsScannerConfig);
  }

  /** The scores `score_repo` gives to the extracted signals, in terms of the indexed paths:
      deployment always scores 4.5, because the infra summary is never empty. */
  lemma PipelineScores(index: Index, s: Signals)
    requires Extracted(s, index)
    ensures var paths := Paths(index);
            var cats := ScoredCategories(paths, s);
            && cats[0].score == (if AnyPath(paths, Nested) then 350 else 250) + (if "README.md" in paths then 50 else 0)
            && cats[1].score
               == (if AnyPath(paths, InfraExtractor.IsHelm) || AnyPath(paths, InfraExtractor.IsKustomize) then 400 else 300)
            && cats[2].score == 250 + (if AnyPath(paths, ObservabilityExtractor.IsOtel) then 150 else 0)
                                    + (if AnyPath(paths, ObservabilityExtractor.IsPrometheus) then 100 else 0)
            && cats[4].score == 250 + (if AnyPath(paths, IsManifest) then 50 else 0)
                                    + (if AnyPath(paths, IsScannerConfig) then 50 else 0)
            && cats[6].score == (if AnyPath(paths, IsWorkflow) then 400 else 250)
            && cats[8].score == 450
  {
    LeadingPipelineScores(index, s);
    TrailingPipelineScores(index, s);
  }

  lemma LeadingPipelineScores(index: Index, s: Signals)
    requires Extracted(s, index)
    ensures var paths := Paths(index);
            var cats := ScoredCategories(paths, s);
            && |cats| == 10
            && cats[0].score == (if AnyPath(paths, Nested) then 350 else 250) + (if "README.md" in paths then 50 else 0)
            && cats[1].score
               == (if AnyPath(paths, InfraExtractor.IsHelm) || AnyPath(paths, InfraExtractor.IsKustomize) then 400 else 300)
            && cats[2].score == 250 + (if AnyPath(paths, ObservabilityExtractor.IsOtel) then 150 else 0)
                                    + (if AnyPath(paths, ObservabilityExtractor.IsPrometheus) then 100 else 0)
  {
    var paths := Paths(index);
    LeadingScores(paths, s);
    StructureFact(index, s.structure.value);
    InfraFact(s.infra.value, paths);
    InfraExtractor.InfraSummaryMentions(AnyPath(paths, InfraExtractor.IsTerraform),
                                        AnyPath(paths, InfraExtractor.IsHelm),
                                        AnyPath(paths, InfraExtractor.IsKustomize));
    ObservabilityFact(s.observability.value, paths);
    ObservabilityExtractor.ObservabilitySummaryMentions(AnyPath(paths, ObservabilityExtractor.IsPrometheus),
                                                        AnyPath(paths, ObservabilityExtractor.IsGrafana),
                                                        AnyPath(paths, ObservabilityExtractor.IsOtel));
  }

  lemma TrailingPipelineScores(index: Index, s: Signals)
    requires Extracted(s, index)
    ensures var paths := Paths(index);
            var cats := ScoredCategories(paths, s);
            && |cats| == 10
            && cats[4].score == 250 + (if AnyPath(paths, IsManifest) then 50 else 0)
                                    + (if AnyPath(paths, IsScannerConfig) then 50 else 0)
            && cats[6].score == (if AnyPath(paths, IsWorkflow) then 400 else 250)
            && cats[8].score == 450
  {
    var paths := Paths(index);
    TrailingScores(paths, s);
    CiFact(s.ci.value, paths);
    InfraFact(s.infra.value, paths);
    InfraExtractor.InfraSummaryMentions(AnyPath(paths, InfraExtractor.IsTerraform),
                                        AnyPath(paths, InfraExtractor.IsHelm),
                                        AnyPath(paths, InfraExtractor.IsKustomize));
    SecurityFact(s.securityDeps.value, paths);
  }

  /** A reference list whose refs are `ids` misses a non-empty ref exactly when it misses a
      non-empty id. */
  lemma MissingRef(ev: seq<Ref>, ids: seq<string>, present: set<string>)
    requires RefStrings(ev) == ids
    ensures (exists k :: 0 <= k < |ev| && ev[k].ref != "" && ev[k].ref !in present)
            <==> exists id :: id in ids && id != "" && id !in present
  {
    assert |ev| == |ids|;
    if exists id :: id in ids && id != "" && id !in present {
      var id :| id in ids && id != "" && id !in present;
      var k :| 0 <= k < |ids| && ids[k] == id;
      assert RefStrings(ev)[k] == ev[k].ref;
    }
    if exists k :: 0 <= k < |ev| && ev[k].ref != "" && ev[k].ref !in present {
      var k :| 0 <= k < |ev| && ev[k].ref != "" && ev[k].ref !in present;
      assert RefStrings(ev)[k] == ev[k].ref;
      assert ids[k] in ids;
    }
  }

  /** One of the ids category `i` claims is missing from `present`. */
  ghost predicate ClaimMissing(i: nat, present: set<string>)
    requires i < |ClaimedIds|
  {
    exists id :: id in ClaimedIds[i] && id != "" && id !in present
  }

  /** Whatever the ledger, the gate changes a scored category exactly when one of the ids it
      claims is absent from the ledger. */
  lemma GateChangesScored(paths: set<string>, s: Signals, present: set<string>)
    ensures var cats := ScoredCategories(paths, s);
            var gated := GateAll(cats, present, MinConfidenceIfNoEvidence);
            && |gated| == |cats| == |ClaimedIds| == 10
            && forall i :: 0 <= i < 10 ==> (gated[i] != cats[i] <==> ClaimMissing(i, present))
  {
    var cats := ScoredCategories(paths, s);
    ScoredShape(paths, s);
    ClaimedRefs();
    forall i | 0 <= i < 10
      ensures GateCategory(cats[i], present, MinConfidenceIfNoEvidence) != cats[i] <==> ClaimMissing(i, present)
    {
      MissingRef(cats[i].evidence, ClaimedIds[i], present);
      GateChangesIff(cats[i], present, MinConfidenceIfNoEvidence);
    }
  }

  /** The ids each category claims, as positions in `WrittenIdOrder`. */
  lemma ClaimedAsWritten()
    ensures var w := WrittenIdOrder;
            ClaimedIds == [[w[0]], [w[5], w[6]], [w[9], w[7], w[8]], [], [w[10], w[11]], [], [w[3]], [],
                           [w[4], w[5], w[6]], []]
  {
  }

  lemma WrittenIdsNonEmpty()
    ensures forall k :: 0 <= k < |WrittenIdOrder| ==> WrittenIdOrder[k] != ""
  {
  }

  /** A list of non-empty ids misses one from `present` exactly when not all of them are in it. */
  lemma MissingAmong(ids: seq<string>, present: set<string>)
    requires forall k :: 0 <= k < |ids| ==> ids[k] != ""
    ensures (exists id :: id in ids && id != "" && id !in present) <==> !(forall k :: 0 <= k < |ids| ==> ids[k] in present)
  {
    if !(forall k :: 0 <= k < |ids| ==> ids[k] in present) {
      var k :| 0 <= k < |ids| && ids[k] !in present;
      assert ids[k] in ids;
    }
  }

  /** Which claimed ids the extractors leave unwritten, in terms of the indexed paths. */
  lemma ClaimsUnwritten(index: Index)
    ensures var paths, w := Paths(index), WrittenIds(index);
            && (ClaimMissing(0, w) <==> "README.md" !in paths)
            && (ClaimMissing(1, w) <==> !(AnyPath(paths, InfraExtractor.IsHelm) && AnyPath(paths, InfraExtractor.IsKustomize)))
            && (ClaimMissing(2, w)
                <==> !(AnyPath(paths, ObservabilityExtractor.IsOtel) && AnyPath(paths, ObservabilityExtractor.IsPrometheus)
                       && AnyPath(paths, ObservabilityExtractor.IsGrafana)))
            && !ClaimMissing(3, w) && !ClaimMissing(5, w) && !ClaimMissing(7, w) && !ClaimMissing(9, w)
            && (ClaimMissing(4, w) <==> !(AnyPath(paths, IsManifest) && AnyPath(paths, IsScannerConfig)))
            && (ClaimMissing(6, w) <==> !AnyPath(paths, IsWorkflow))
            && (ClaimMissing(8, w)
                <==> !(AnyPath(paths, InfraExtractor.IsTerraform) && AnyPath(paths, InfraExtractor.IsHelm)
                       && AnyPath(paths, InfraExtractor.IsKustomize)))
  {
    var w := WrittenIds(index);
    ClaimedAsWritten();
    WrittenIdsNonEmpty();
    WrittenIdsSpec(index);
    forall i | 0 <= i < 10 {
      MissingAmong(ClaimedIds[i], w);
    }
  }

  /** The gate downgrades a category after the extractors exactly when a claimed id was not
      written: architecture without README.md, ops without both Helm and Kustomize assets,
      observability without all three artifact kinds, security without both manifests and
      scanner configs, testing without a workflow, deployment without all three IaC kinds;
      the four placeholders claim nothing and are never touched. */
  lemma PipelineDowngrades(index: Index, s: Signals)
    ensures var paths := Paths(index);
            var cats := ScoredCategories(paths, s);
            var gated := GateAll(cats, WrittenIds(index), MinConfidenceIfNoEvidence);
            && |gated| == |cats| == 10
            && (gated[0] != cats[0] <==> "README.md" !in paths)
            && (gated[1] != cats[1]
                <==> !(AnyPath(paths, InfraExtractor.IsHelm) && AnyPath(paths, InfraExtractor.IsKustomize)))
            && (gated[2] != cats[2]
                <==> !(AnyPath(paths, ObservabilityExtractor.IsOtel) && AnyPath(paths, ObservabilityExtractor.IsPrometheus)
                       && AnyPath(paths, ObservabilityExtractor.IsGrafana)))
            && gated[3] == cats[3] && gated[5] == cats[5] && gated[7] == cats[7] && gated[9] == cats[9]
            && (gated[4] != cats[4] <==> !(AnyPath(paths, IsManifest) && AnyPath(paths, IsScannerConfig)))
            && (gated[6] != cats[6] <==> !AnyPath(paths, IsWorkflow))
            && (gated[8] != cats[8]
                <==> !(AnyPath(paths, InfraExtractor.IsTerraform) && AnyPath(paths, InfraExtractor.IsHelm)
                       && AnyPath(paths, InfraExtractor.IsKustomize)))
  {
    GateChangesScored(Paths(index), s, WrittenIds(index));
    ClaimsUnwritten(index);
  }

  /** In a reused run directory the earlier ledger is read back too: once it holds the CI id,
      the testing category is never downgraded, even when no workflow is indexed. */
  lemma EarlierLedgerMasksTesting(index: Index, s: Signals, earlier: Option<seq<LogLine>>)
    requires CiId in EarlierIds(earlier)
    ensures var cats := ScoredCategories(Paths(index), s);
            var gated := GateAll(cats, EarlierIds(earlier) + WrittenIds(index), MinConfidenceIfNoEvidence);
            |gated| == |cats| == 10 && gated[6] == cats[6]
  {
    var present := EarlierIds(earlier) + WrittenIds(index);
    GateChangesScored(Paths(index), s, present);
    assert ClaimedIds[6] == [CiId];
    assert !ClaimMissing(6, present);
  }
}
