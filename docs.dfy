/**
 * The documentation extractor (`extractors/docs.py`): ledger records for README.md and
 * SECURITY.md at the repository root, and the fixed findings, quick wins and roadmap
 * entries that depend on their presence.
 */
module DocsExtractor {
  import opened Seqs
  import opened Evidence
  import opened FileIndex

  datatype Finding = Finding(title: string, severity: string, confidence: int, what: string, why: string,
                             evidenceList: seq<string>, recommendation: string, unverified: bool)

  datatype QuickWin = QuickWin(title: string, steps: string, evidenceList: seq<string>)

  datatype RoadmapItem = RoadmapItem(phase: string, outcome: string, work: string, exitCriteria: string)

  datatype DocsSignal = DocsSignal(findingsTop: seq<Finding>, quickWins: seq<QuickWin>, roadmap: seq<RoadmapItem>)

  const ReadmeId := "EVID-DOC-README"
  const SecurityId := "EVID-DOC-SECURITY"

  const MaxFindings := 7
  const MaxQuickWins := 5
  const MaxRoadmap := 3

  /** The finding when README.md is indexed (confidence 0.75). */
  const OverviewFinding := Finding(
    "Clear project overview documentation", "low", 75,
    "README provides project overview and usage entry points.",
    "Good docs reduce adoption friction and operational mistakes.",
    [ReadmeId],
    "Keep adding architecture diagrams and operational notes as the surface grows.",
    false)

  /** The finding when it is not (confidence 0.6). */
  const MissingReadmeFinding := Finding(
    "Missing README overview", "medium", 60,
    "No README.md found in scanned set.",
    "Operators and contributors lack a canonical entry point.",
    [],
    "Add README with architecture + runbook links.",
    true)

  const SecurityPolicyWin := QuickWin(
    "Add SECURITY.md and vulnerability reporting guidance",
    "Add SECURITY.md with reporting process + supported versions + response expectations.",
    [])

  const ReadinessGuide := RoadmapItem(
    "30 days", "Publish a production-readiness guide",
    "Document deployment, scaling, upgrades, and troubleshooting paths.",
    "Operators can deploy + upgrade with a known-good checklist.")

  /** The record `add_doc_evidence` writes: kind doc, citing lines 1 to 120 of `rel`. */
  function DocRecord(eid: string, rel: string, summary: string): Record {
    Record(eid, Doc, summary, [Ref(FileLines, MakeFileLinesRef(rel, 1, 120))])
  }

  const ReadmeRecord := DocRecord(ReadmeId, "README.md", "Project overview present in README")
  const SecurityRecord := DocRecord(SecurityId, "SECURITY.md", "Security policy present")

  /** `add_doc_evidence`. */
  method AddDocEvidence(log: EvidenceLog, eid: string, rel: string, summary: string)
    requires log.Valid()
    modifies log
    ensures log.Valid() && log.onDisk
    ensures log.lines == old(log.lines) + [Entry(DocRecord(eid, rel, summary))]
    ensures log.PresentIds() == old(log.PresentIds()) + {eid}
  {
    log.Append(DocRecord(eid, rel, summary));
  }

  /** `extract_docs`: the README record (if README.md is indexed) and then the SECURITY
      record (if SECURITY.md is); exactly one finding, whose evidence is the README record
      exactly when that record was written; a quick win exactly when SECURITY.md is absent;
      and the single roadmap entry. */
  method ExtractDocs(index: Index, log: EvidenceLog) returns (signal: DocsSignal)
    requires log.Valid()
    modifies log
    ensures log.Valid()
    ensures var readme := "README.md" in Paths(index);
            var security := "SECURITY.md" in Paths(index);
            && log.lines == old(log.lines) + (if readme then [Entry(ReadmeRecord)] else [])
                                           + (if security then [Entry(SecurityRecord)] else [])
            && log.PresentIds() == old(log.PresentIds()) + (if readme then {ReadmeId} else {})
                                                        + (if security then {SecurityId} else {})
            && signal.findingsTop == [if readme then OverviewFinding else MissingReadmeFinding]
            && signal.quickWins == (if security then [] else [SecurityPolicyWin])
            && signal.roadmap == [ReadinessGuide]
    ensures |signal.findingsTop| <= MaxFindings && |signal.quickWins| <= MaxQuickWins
            && |signal.roadmap| <= MaxRoadmap
  {
    var files := Paths(index);
    var findingsTop: seq<Finding> := [];
    var quickWins: seq<QuickWin> := [];
    var roadmap: seq<RoadmapItem> := [];
    if "README.md" in files {
      AddDocEvidence(log, ReadmeId, "README.md", "Project overview present in README");
      findingsTop := findingsTop + [OverviewFinding];
    } else {
      findingsTop := findingsTop + [MissingReadmeFinding];
    }
    if "SECURITY.md" in files {
      AddDocEvidence(log, SecurityId, "SECURITY.md", "Security policy present");
    } else {
      quickWins := quickWins + [SecurityPolicyWin];
    }
    roadmap := roadmap + [ReadinessGuide];
    signal := DocsSignal(Take(findingsTop, MaxFindings), Take(quickWins, MaxQuickWins), Take(roadmap, MaxRoadmap));
  }

  /** The finding is marked unverified exactly when it cites no evidence, that is,
      exactly when README.md is not indexed. */
  lemma FindingVerifiedIffReadme(readme: bool)
    ensures var f := if readme then OverviewFinding else MissingReadmeFinding;
            (f.unverified <==> f.evidenceList == []) && (f.unverified <==> !readme)
            && (forall id :: id in f.evidenceList ==> id == ReadmeId)
  {
  }
}
