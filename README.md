# Evidence-gated scoring pipeline of the due-diligence agent

The due-diligence agent indexes a repository, runs six signal extractors over the file index, scores the
repository against a ten-category rubric and then passes the scorecard through an evidence gate. Each
extractor appends records to an append-only evidence ledger (`evidence.jsonl`). The gate reads the ledger
back and downgrades every category that claims an evidence id the ledger does not hold.

This project models that core in Dafny and proves what each stage promises:

- **Index** (`FileIndex`): which candidate files enter the index (first `max_files`, within the size limit,
  matched by the include rules and not by the exclude rules), and which languages are reported for them.
- **Ledger** (`Evidence`): `EvidenceLog` is a class whose lines are appended in place; reading it back keeps the
  ids of the lines that parse and skips every other line; file-lines references round-trip.
- **Extractors** (`DocsExtractor`, `StructureExtractor`, `CiExtractor`, `InfraExtractor`,
  `ObservabilityExtractor`, `SecurityExtractor`): each one is a method that appends to the ledger. Each is
  proved to compute its signal from the indexed paths and to append exactly the records, and ids, the source
  writes.
- **Rubric and scorer** (`Rubric`, `Scoring`): the ten categories in rubric order, every score within
  [0, 5] with the clamp never needed, scores as functions of the signals, fixed confidences and claimed
  evidence lists, overall means within bounds, and the merged evidence without repeats in first-seen order.
- **Gate** (`EvidenceGate`): it updates the `Scorecard` class in place. A category changes exactly when one
  of its non-empty refs is absent from the ledger. Only notes and confidence change; the confidence never
  drops below the floor; the notes name every missing ref; the mean confidence can only fall; and a second
  pass lowers the confidence again.
- **Composition** (`Pipeline`): the extractors in their fixed order append to the run's ledger exactly the
  ids whose file conditions hold; a ledger left in a reused run directory is read back too. The scores follow from the indexed paths alone. The gate downgrades a
  category exactly when one of the ids it claims was not written (for example, testing exactly when no
  workflow is indexed; deployment unless Terraform, Helm and Kustomize assets are all present).
- **Validator** (`Validate`): the `validate` command's required-key and evidence-path checks.

Units and inputs:
- Scores and confidences are integers in hundredths, so 3.5 is 350 and 0.65 is 65.
- `round(x, 2)` is rounding of the exact rational, halves upwards (`Numbers.RoundDiv`).
- The directory traversal is an input: a list of candidates (path, size, is-a-file) in traversal order. So
  are the gitwildmatch include and exclude rules (predicates on relative paths), the repository metadata and
  the run id.
- A missing ledger file reads as holding no ids.
- The configuration is taken at its defaults: 2500 files, 750000 bytes, evidence required, floor 0.35.

The gate keeps every ref, downgraded or not, and lowers the confidence again on every pass:
`EvidenceGate.GateNotIdempotent` exhibits the second drop on the unit test's own category.

## Model

Several definitions have no contract of their own; the row of the lemma about each one states what it
models. `EvidenceGate.GateCategory` is covered by `EvidenceGate.GateCategorySpec` and
`EvidenceGate.GateChangesIff`; `Validate.Validate` by `Validate.KeyCheckIff` and `Validate.EvidenceCheckIff`;
`Evidence.MakeFileLinesRef` by `Evidence.ParseMakeFileLinesRef`; `Scoring.Cat` by `Scoring.CategoriesNamed`
and `Scoring.CategoriesFixed`; `Scoring.Clamp` by `Scoring.ClampSpec`; `Scoring.ArchScore`, `Scoring.OpsScore`,
`Scoring.ObservabilityScore`, `Scoring.SecurityScore`, `Scoring.TestingScore` and `Scoring.DeploymentScore`
by `Scoring.LeadingScores` and `Scoring.TrailingScores`; `StructureExtractor.SortByCount` by
`StructureExtractor.SortByCountSpec`; and `Seqs.Dedup` by `Seqs.DedupSpec`.

| member | source | states |
|---|---|---|
| Evidence.IdsOfAppend | src/dda/verifier/evidence_gate.py:21-29 | appending a line adds its id to the ids read back exactly when it parses with an id; malformed and id-less lines add nothing and no earlier id is lost |
| Evidence.EvidenceLog.constructor | src/dda/pipeline.py:68-71 | the ledger of a new run directory: no `evidence.jsonl` yet, so no lines (a reused directory's file is `Existing`) |
| Evidence.EvidenceLog.Existing | src/dda/verifier/evidence_gate.py:22-23 | a ledger file that exists holds the given lines, parseable or not |
| Evidence.EvidenceLog.Append | src/dda/extractors/_common.py:8-11 | the file now exists, exactly one line is added at the end, and the ids read back gain exactly the record's id |
| Evidence.EvidenceLog.AppendIfHit | src/dda/extractors/infra.py:22-27 | a record citing the first hit is appended exactly when the hit list is non-empty, adding its id and nothing else |
| Evidence.ParseMakeFileLinesRef | src/dda/extractors/_common.py:14-15 | a `path:Lstart-Lend` reference parses back to the same path and line range, whatever characters the path holds |
| EvidenceGate.UnverifiedSpec | src/dda/verifier/evidence_gate.py:33-39 | a ref is listed as missing exactly when it is non-empty, cited by the category and absent from the ledger; never more missing refs than references |
| EvidenceGate.UnverifiedIgnoresType | src/dda/verifier/evidence_gate.py:36-38 | which refs are missing depends only on the `ref` strings, never on the reference `type` |
| EvidenceGate.PenalizedBounds | src/dda/verifier/evidence_gate.py:43 | the lowered confidence is at least the floor, at most the old value when that is at or above the floor, and strictly lower when the old value is above the floor and at least 0.02 |
| EvidenceGate.GatedNotesMention | src/dda/verifier/evidence_gate.py:42 | the new notes end with the marker and the list of missing refs, so each missing ref appears in them |
| EvidenceGate.GatedNotesChange | src/dda/verifier/evidence_gate.py:42 | the notes of a downgraded category always differ from the old notes |
| EvidenceGate.GateCategorySpec | src/dda/verifier/evidence_gate.py:32-43 | id, name, score, evidence and recommendations are kept; a fully verified category is unchanged; otherwise the confidence respects the floor and the notes name every missing ref |
| EvidenceGate.GateChangesIff | src/dda/verifier/evidence_gate.py:38-43 | the gate changes a category if and only if one of its non-empty refs is absent from the ledger |
| EvidenceGate.GateLowersMean | src/dda/verifier/evidence_gate.py:45-48 | with every confidence at or above the floor, the recomputed overall confidence is at most the old mean |
| EvidenceGate.GateNotIdempotent | tests/test_evidence_gate.py:4-17 | the test's category at 0.8 with one missing ref drops to 0.48, and a second pass lowers it again to the floor of 0.3 |
| EvidenceGate.ReadPresentIds | src/dda/verifier/evidence_gate.py:21-29 | the loop yields exactly the ids of the parsed lines, and none when the file does not exist |
| EvidenceGate.MissingRefs | src/dda/verifier/evidence_gate.py:33-39 | the loop yields exactly the missing refs in evidence order |
| EvidenceGate.Gate | src/dda/verifier/evidence_gate.py:8-50 | without `require_evidence` nothing changes; otherwise every category is gated against the ledger's ids, in place and in order, and for a non-empty list the overall confidence becomes the mean of the new confidences |
| FileIndex.CollectExtensions | src/dda/ingest/index.py:24-27 | the collected set holds exactly the lower-cased last-dot suffixes of the paths that contain a dot |
| FileIndex.LanguagesOfInTable | src/dda/ingest/index.py:29-41 | every detected language is a value of the extension table |
| FileIndex.LanguagesOfExtensions | src/dda/ingest/index.py:41 | looking the collected extensions up in the table gives exactly the languages of the paths |
| FileIndex.DetectLanguages | src/dda/ingest/index.py:23-42 | the result is strictly sorted, holds at most six languages, each one a language of the paths, and any language left out sorts after all six kept |
| FileIndex.SelectedSound | src/dda/ingest/index.py:56-68 | every indexed entry is a regular-file candidate within the size limit, matched by the includes and not by the excludes |
| FileIndex.SelectedPrefix | src/dda/ingest/index.py:56-70 | selecting from a longer traversal only appends entries, so stopping early keeps a prefix |
| FileIndex.BuildFileIndex | src/dda/ingest/index.py:45-73 | the files are the first `max(max_files, 1)` selectable candidates in traversal order, and the languages are those `DetectLanguages` promises for exactly those files |
| LexOrder.SortSet | src/dda/extractors/ci.py:29 | `sorted()` of a set of strings: strictly ascending, the same members, each once |
| LexOrder.SortedUnique | src/dda/extractors/ci.py:19 | two strictly sorted lists with the same members are equal, so `sorted(...)` is determined by its members |
| LexOrder.Least | src/dda/extractors/security_deps.py:23 | the chosen string is a member that sorts before every other member |
| LexOrder.SortedHeadIsMin | src/dda/extractors/security_deps.py:23 | `sorted(scanners)[0]` is the least scanner path |
| Numbers.RoundDivWithin | src/dda/scoring/score.py:86-87 | rounding a quotient stays within any integer bounds of the exact quotient |
| Numbers.MeanWithin | src/dda/scoring/score.py:84-87 | the rounded mean lies within any bounds of its terms |
| Numbers.MeanPointwise | src/dda/verifier/evidence_gate.py:48 | lowering terms never raises the rounded mean |
| Seqs.DedupSpec | src/dda/scoring/score.py:108-118 | first-seen deduplication has no repeats, the same members as its input, and lists them in the order of first occurrence |
| Seqs.InConcat | src/dda/scoring/score.py:111-112 | an element is in the flattened category evidence exactly when some category carries it |
| Seqs.FilterSpec | src/dda/extractors/infra.py:14-19 | a list comprehension with a condition keeps exactly the members that satisfy it |
| Seqs.Enumerate | src/dda/extractors/infra.py:12-19 | iterating a set visits each member exactly once, in an order left open |
| Seqs.TakeSpec | src/dda/extractors/structure.py:21 | a `[:n]` slice has at most `n` elements, each the element at the same position |
| Text.JoinMentions | src/dda/extractors/infra.py:41 | for a word whose first character occurs in no other part and not in the separator, the joined summary contains the word exactly when it is one of the parts |
| Text.StripKeepsTail | src/dda/verifier/evidence_gate.py:42 | `.strip()` keeps a suffix that starts and ends with a visible character |
| Text.ReprListContains | src/dda/verifier/evidence_gate.py:42 | the rendered `{missing}` list contains each of its items |
| Rubric.NameTableSpec | src/dda/scoring/score.py:11 | with distinct ids, the id-to-name dictionary has exactly the rubric ids as keys and keeps each entry's name |
| Rubric.TableShape | src/dda/scoring/rubric.py:12-33 | the rubric has ten entries with pairwise distinct ids in the scorer's order |
| Rubric.CategoryNamesTotal | src/dda/scoring/score.py:11 | `CATEGORY_IDS` has the ten rubric ids as keys, each mapped to its entry's name |
| Scoring.ScorerIdsKnown | src/dda/scoring/score.py:41-102 | the ids of the ten `_cat` calls, as written at lines 41, 45, 53, 57, 61, 65, 69, 73, 77 and 81, are the rubric's ids in its order, each a key of `CATEGORY_IDS`, so the lookup never raises `KeyError` |
| Scoring.ClampSpec | src/dda/scoring/score.py:32-33 | a clamped score lies in [0, 5] and a score already in range is kept |
| Scoring.SnippetRefsSpec | src/dda/scoring/score.py:104 | `_cat` makes one snippet reference per non-empty claimed id, in claim order |
| Scoring.ClaimedRefs | src/dda/scoring/score.py:41-81 | every category's claimed ids are non-empty, so each becomes a reference |
| Scoring.CategoriesNamed | src/dda/scoring/score.py:101-102 | whatever the raw scores, the ten categories carry the rubric ids in order and their rubric names |
| Scoring.CategoriesFixed | src/dda/scoring/score.py:41-81 | each category has its fixed confidence, its fixed claimed references and no recommendations |
| Scoring.ScoredShape | src/dda/scoring/score.py:35-81 | whatever the repository: ten categories in rubric order, named from the rubric, with the fixed confidences and evidence |
| Scoring.ConfidenceAndEvidenceFixed | src/dda/scoring/score.py:35-81 | two repositories get the same confidences, evidence, ids and notes; only scores differ |
| Scoring.ScoresInRange | src/dda/scoring/score.py:32-81 | every category score lies in [0, 5] |
| Scoring.ClampedScores | src/dda/scoring/score.py:38-81 | every raw score already lies in [0, 5], so each category's score is its raw score |
| Scoring.LeadingScores | src/dda/scoring/score.py:37-53 | architecture is 2.5 or 3.5 by components, plus 0.5 with README.md; operations is 4.0 if and only if the infra summary names Helm or Kustomize, else 3.0; observability adds 1.5 for OpenTelemetry and 1.0 for Prometheus to 2.5 |
| Scoring.TrailingScores | src/dda/scoring/score.py:59-77 | security adds 0.5 each for manifests and scanners to 2.5; testing is 4.0 with CI and 2.5 without; deployment is 4.5 with a non-empty infra summary and 3.0 otherwise |
| Scoring.PlaceholderScores | src/dda/scoring/score.py:55-81 | reliability, data contracts, performance and cost always score 3.0, 2.5, 2.5 and 3.0 |
| Scoring.MergedEvidenceSpec | src/dda/scoring/score.py:108-118 | the merged evidence has no repeated (type, ref) pair, holds exactly the pairs some category carries, and lists them in first-seen order |
| Scoring.OverallInRange | src/dda/scoring/score.py:84-87 | the overall score lies in [0, 5] and the overall confidence in [0, 1] |
| Scoring.MergeEvidence | src/dda/scoring/score.py:108-118 | the `seen`-set loop returns the first-seen deduplication of all category evidence |
| Scoring.AddUnseen | src/dda/scoring/score.py:112-117 | scanning one category's evidence keeps the output equal to the deduplication of everything met so far, and `seen` equal to its members |
| Scoring.MeanOf | src/dda/scoring/score.py:84-87 | the summing loop returns the rounded mean |
| Scoring.ScoreCategories | src/dda/scoring/score.py:26-81 | the step-by-step adjustments produce exactly the categories of the score functions for the indexed paths and signals |
| Scoring.Scorecard.constructor | src/dda/scoring/score.py:92-98 | the scorecard holds the given version, repo, run, overall block and categories |
| Scoring.ScoredConfidenceMean | src/dda/scoring/score.py:87 | for every repository the ten fixed confidences sum to 5.35, and the overall confidence is their exact mean rounded half up, 0.54 |
| Scoring.ScoreRepo | src/dda/scoring/score.py:13-98 | a fresh scorecard: version 1, the repo, the run with an empty timestamp, the scored categories, and the overall block of their means and merged evidence |
| StructureExtractor.TopLevelCountsSpec | src/dda/extractors/structure.py:14-18 | one entry per top-level folder in first-seen order, each counting the nested paths under it; root-level files are not counted |
| StructureExtractor.SortByCountSpec | src/dda/extractors/structure.py:21 | the ranking is a permutation, counts never increase along it, and equal counts keep input order (Python's stable sort) |
| StructureExtractor.RankedOrder | src/dda/extractors/structure.py:21 | at most twelve folders, non-increasing counts, ties in first-seen order, no repeats, each an entry of `top` |
| StructureExtractor.RankedCounts | src/dda/extractors/structure.py:14-21 | each component is a top-level folder of a nested path, and its count is the number of nested paths under it |
| StructureExtractor.RankedSum | src/dda/extractors/structure.py:14-21 | the component counts add up to at most the number of indexed files |
| StructureExtractor.RankedNonEmptyIff | src/dda/extractors/structure.py:14-21 | there is a component exactly when some indexed path lies in a folder |
| StructureExtractor.ComponentIdWritten | src/dda/extractors/structure.py:22-26 | a component's `evidence_ref` equals the id actually written only for a folder whose upper-cased 16-character prefix is TOPLEVEL |
| StructureExtractor.ComponentsNames | src/dda/extractors/structure.py:35 | the graph's nodes are the ranked folder names in order |
| StructureExtractor.CountTopLevel | src/dda/extractors/structure.py:14-18 | the counting loop builds exactly the `top` dictionary of `TopLevelCounts` |
| StructureExtractor.EmitComponents | src/dda/extractors/structure.py:20-32 | one component and one TOPLEVEL record per ranked folder, in order; the ledger gains the TOPLEVEL id exactly when some folder is ranked |
| StructureExtractor.ExtractStructure | src/dda/extractors/structure.py:10-41 | the components and nodes of the ranked folders, empty edges and flows, and exactly the TOPLEVEL records appended |
| CiExtractor.ExtractCi | src/dda/extractors/ci.py:10-29 | the workflows are exactly the indexed paths under `.github/workflows/`, strictly sorted; with none the ledger is unchanged, otherwise one record citing the least workflow is appended and adds the CI id |
| DocsExtractor.AddDocEvidence | src/dda/extractors/docs.py:23-32 | one doc record citing lines 1-120 of the file is appended and its id added |
| DocsExtractor.ExtractDocs | src/dda/extractors/docs.py:10-86 | README and SECURITY records appended exactly when those root files are indexed; the overview or missing-README finding; the SECURITY quick win exactly when it is absent; the single roadmap entry; all within the slice bounds |
| DocsExtractor.FindingVerifiedIffReadme | src/dda/extractors/docs.py:34-60 | the finding is unverified exactly when it cites no evidence, exactly when README.md is not indexed |
| InfraExtractor.PartsNamed | src/dda/extractors/infra.py:21-39 | the summary parts are kind names, each present exactly when its hit list is non-empty |
| InfraExtractor.FallbackNamesNothing | src/dda/extractors/infra.py:41 | the no-assets text names none of Terraform, Helm and Kustomize |
| InfraExtractor.JoinedNames | src/dda/extractors/infra.py:41 | the joined parts name a kind exactly when it was found |
| InfraExtractor.SummaryNames | src/dda/extractors/infra.py:21-41 | the summary names a kind exactly when its hit list is non-empty |
| InfraExtractor.InfraSummaryMentions | src/dda/extractors/infra.py:21-41 | the summary is never empty and names Terraform, Helm and Kustomize, each exactly when found |
| InfraExtractor.HitsOfLists | src/dda/extractors/infra.py:14-19 | filtering an enumeration of the paths lists exactly the matching paths for each of the four kinds |
| InfraExtractor.ScanHits | src/dda/extractors/infra.py:14-19 | each hit list lists exactly the indexed paths of its kind, each once |
| InfraExtractor.ExtractInfra | src/dda/extractors/infra.py:10-41 | the hit lists match the paths; TF, HELM and KUSTOMIZE records citing a hit are appended in that order, each exactly when its list is non-empty; the summary is that of the non-empty lists |
| ObservabilityExtractor.PartsNamed | src/dda/extractors/observability.py:19-28 | the summary parts are artifact names, each present exactly when its hit list is non-empty |
| ObservabilityExtractor.FallbackNamesNothing | src/dda/extractors/observability.py:30 | the no-artifacts text names none of Prometheus, Grafana/dashboards and OpenTelemetry |
| ObservabilityExtractor.JoinedNames | src/dda/extractors/observability.py:30 | the joined parts name an artifact kind exactly when it was found |
| ObservabilityExtractor.SummaryNames | src/dda/extractors/observability.py:19-30 | the summary names an artifact kind exactly when its hit list is non-empty |
| ObservabilityExtractor.ObservabilitySummaryMentions | src/dda/extractors/observability.py:19-30 | the summary is never empty and names each artifact kind exactly when found |
| ObservabilityExtractor.HitsOfLists | src/dda/extractors/observability.py:15-17 | filtering an enumeration of the paths lists exactly the matching paths for each of the three kinds |
| ObservabilityExtractor.ScanHits | src/dda/extractors/observability.py:15-17 | each hit list lists exactly the indexed paths whose lower-cased form matches, each once |
| ObservabilityExtractor.ExtractObservability | src/dda/extractors/observability.py:10-30 | the hit lists match the paths; PROM, GRAF and OTEL records citing a hit are appended in that order, each exactly when its list is non-empty; the summary is that of the non-empty lists |
| SecurityExtractor.PresentManifestsSpec | src/dda/extractors/security_deps.py:15-17 | `deps` holds exactly the listed manifests that are indexed root paths, each once |
| SecurityExtractor.FindManifests | src/dda/extractors/security_deps.py:14-17 | the loop yields the present manifests in list order |
| SecurityExtractor.ScanScanners | src/dda/extractors/security_deps.py:18 | the scanner list lists exactly the paths naming dependabot, codeql or snyk case-insensitively, each once |
| SecurityExtractor.CiteDeps | src/dda/extractors/security_deps.py:20-21 | a DEPS record citing the first manifest is appended exactly when there is one |
| SecurityExtractor.CiteScanners | src/dda/extractors/security_deps.py:22-23 | a SCANNERS record citing the least scanner path is appended exactly when there is one |
| SecurityExtractor.CiteSignal | src/dda/extractors/security_deps.py:20-23 | the DEPS record, then the SCANNERS record, each exactly when its list is non-empty |
| SecurityExtractor.ExtractSecurityDeps | src/dda/extractors/security_deps.py:10-25 | the manifests and scanner paths of the index, with exactly their records and ids appended |
| Pipeline.WrittenIdsSpec | src/dda/pipeline.py:74-83 | each of the twelve ids is in the ledger after extraction exactly when its file condition holds |
| Pipeline.RunDocs | src/dda/pipeline.py:75 | the docs extractor adds the README and SECURITY ids exactly under their conditions |
| Pipeline.RunStructure | src/dda/pipeline.py:76 | the structure extractor adds the TOPLEVEL id exactly when some indexed path is nested |
| Pipeline.RunCi | src/dda/pipeline.py:77 | the CI extractor's workflows are the indexed workflow paths and it adds the CI id exactly when there is one |
| Pipeline.RunInfra | src/dda/pipeline.py:78 | the infra extractor adds each IaC id exactly when some indexed path is of that kind |
| Pipeline.RunObservability | src/dda/pipeline.py:79 | the observability extractor adds each artifact id exactly when some indexed path is of that kind |
| Pipeline.RunSecurity | src/dda/pipeline.py:80 | the security extractor adds the DEPS and SCANNERS ids exactly when a manifest or scanner config is indexed |
| Pipeline.ExtractAll | src/dda/pipeline.py:73-81 | the six extractors in order against one ledger produce signals as each extractor promises, and add exactly the written ids |
| Pipeline.StructureFact | src/dda/extractors/structure.py:14-32 | the extracted components are non-empty exactly when some indexed path is nested |
| Pipeline.CiFact | src/dda/extractors/ci.py:14-29 | the extracted workflows are non-empty exactly when some indexed path is a workflow |
| Pipeline.InfraFact | src/dda/extractors/infra.py:14-41 | the infra summary is the one for the IaC kinds present among the indexed paths |
| Pipeline.ObservabilityFact | src/dda/extractors/observability.py:15-30 | the observability summary is the one for the artifact kinds present among the indexed paths |
| Pipeline.SecurityFact | src/dda/extractors/security_deps.py:14-18 | deps and scanners are non-empty exactly when a manifest or scanner config is indexed |
| Pipeline.PipelineScores | src/dda/scoring/score.py:37-77 | the six signal-driven scores in terms of the indexed paths alone; deployment always scores 4.5 because the infra summary is never empty |
| Pipeline.LeadingPipelineScores | src/dda/scoring/score.py:37-53 | architecture, operations and observability scores in terms of the indexed paths |
| Pipeline.TrailingPipelineScores | src/dda/scoring/score.py:59-77 | security, testing and deployment scores in terms of the indexed paths |
| Pipeline.GateChangesScored | src/dda/pipeline.py:99-104 | for any ledger, the gate changes a scored category exactly when one of its claimed ids is absent |
| Pipeline.ClaimsUnwritten | src/dda/pipeline.py:74-96 | which claimed ids the extractors leave unwritten, category by category, in terms of the indexed paths |
| Pipeline.PipelineDowngrades | src/dda/pipeline.py:74-104 | in a new run directory, after the extractors, the gate downgrades architecture exactly without README.md, operations without both Helm and Kustomize, observability without all three artifact kinds, security without both manifests and scanners, testing without a workflow, deployment without all three IaC kinds, and never a placeholder |
| Pipeline.CallByKeywords | src/dda/pipeline.py:86-96 | a keyword call binds exactly when every keyword is a declared parameter, and otherwise reports an undeclared keyword |
| Pipeline.ScoreCallRejected | src/dda/pipeline.py:86-96 | as written, the scoring call reports `present_evidence_ids` as unexpected |
| Pipeline.ScoreCallCorrected | src/dda/scoring/score.py:13-21 | the call with the seven declared keywords binds |
| Pipeline.ScoreAndGate | src/dda/pipeline.py:85-104 | the gated scorecard: the scored categories gated against the ledger's ids with the 0.35 floor, overall confidence their mean, overall score the mean of the ungated scores |
| Pipeline.AnalyzeIndex | src/dda/pipeline.py:67-104 | from the ledger the run directory holds (none, or a reused directory's lines): the signals as extracted, the ledger holding exactly the earlier ids and the written ids, no performance risks, and the scorecard gated against both as in `ScoreAndGate` |
| Pipeline.EarlierLedgerMasksTesting | src/dda/pipeline.py:68-71 | when a reused run directory's ledger already holds the CI id, the testing category is not downgraded, whatever is indexed |
| Pipeline.RunAnalysis | src/dda/pipeline.py:58-104 | the index as `build_file_index` selects it with the default bounds, then everything `AnalyzeIndex` states |
| Validate.MissingKeysSpec | src/dda/cli.py:68-69 | a key is reported exactly when it is required and absent, each at most once |
| Validate.KeyCheckIff | src/dda/cli.py:68-71 | the key check fails exactly when a required key is absent, and its message names every absent key |
| Validate.EvidenceCheckIff | src/dda/cli.py:73-76 | with all keys present, validation fails only for an evidence path that was given and does not exist |
| Validate.ExtraKeysIgnored | src/dda/cli.py:68-71 | keys outside the required five never change the verdict |
| Validate.ScorecardPassesKeyCheck | src/dda/scoring/score.py:92-98 | a scorecard as `score_repo` writes it passes the key check |

## Left out

- I/O is not modelled. That covers cloning, directory creation, `stat`, reading and writing files,
  `save_snippet`, rendering the report, and writing `scorecard.json`, `graph.json` and `summary.json`. It
  also covers the removal of the work directory, the run-id hash and the timestamps. Traversal order, file
  sizes and the match results of the include and exclude rules are inputs.
- Configuration loading (`load_config` and YAML) is not modelled. Only the defaults of `AnalysisCfg` and
  `EvidenceCfg` are used, as constants.
- The `analyze` command of the CLI (slug, run directory, console output) is I/O and is not modelled.
  `validate` is, with the JSON file reduced to its set of top-level keys.
- JSON is abstracted. A ledger line is a parsed record, an object without an id, or a line that does not
  parse. A category always carries every key the gate reads. A reference without a `ref` is the empty string.
- gitwildmatch matching is not modelled: the include and exclude rules are arbitrary predicates.
- Python's set iteration order depends on string hashing. `Seqs.Enumerate` leaves it open. The hit lists are
  therefore proved to list the right paths, and the records cite some matching path, not a specific one.
- Numbers.RoundDiv: rounds the exact rational quotient half upwards. Python's `round` on binary floats
  rounds halves to even, and the representation error of the float can flip a tie. The two can disagree by
  0.01 on such ties.
- Scoring.ScoreRepo, EvidenceGate.Gate: the fixed confidences make the overall confidence a tie for every
  repository, and the model reports 0.54 (`Scoring.ScoredConfidenceMean`). The program sums them in doubles
  to 5.35, divides to 0.5349999999999999 and so reports 0.53. The gated mean inherits the same tie whenever
  no category is downgraded.
- Pipeline.AnalyzeIndex, Pipeline.RunAnalysis: what the run directory already holds is an input (`earlier`).
  Which runs reuse a directory (the same `--run-id`, or two analyses of one slug within the same second) is
  decided by the CLI, which is not modelled. `Pipeline.PipelineDowngrades` describes a new run directory only.
- Text.Lower, Text.Upper, Text.Strip: map only ASCII letters and ASCII whitespace. Python's Unicode case
  mapping and whitespace classes are not modelled.
- Text.ReprList: quotes items with single quotes and no escaping. Python's `repr` switches quotes and
  escapes special characters.
- `extract_performance_smells` is a stub that returns no risks and writes nothing. It is the constant
  `Pipeline.NoRisks`.
- The `focus`, `cfg` and ledger-path parameters of `score_repo` are never read. Neither are the
  `repo_dir` and `snippets_dir` parameters of the extractors. The model omits all of them.
- `_present_evidence_ids` (src/dda/pipeline.py:36-47) is the same reading loop as the gate's and is modelled
  once, as `EvidenceGate.ReadPresentIds`. Its result feeds only the rejected keyword below.
- The gate only reads the ledger. It is modelled over `EvidenceLog.PresentIds()` and does not change the log.

## Findings

| source | as written | input that shows it | evidently intended | confidence | as-written member | corrected member |
|---|---|---|---|---|---|---|
| src/dda/pipeline.py:86-96 | `run_analysis` calls `score_repo(..., present_evidence_ids=present_ids)`, but `score_repo` (src/dda/scoring/score.py:13-21) declares no such parameter and takes no `**kwargs` | any repository: the call raises `TypeError` before scoring, so no scorecard is ever gated or written | call `score_repo` with its seven declared parameters, so the run goes on to the gate | high (not executed) | Pipeline.ScoreCallRejected | Pipeline.ScoreCallCorrected, Pipeline.ScoreAndGate |
