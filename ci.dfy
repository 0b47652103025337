/**
 * The CI extractor (`extractors/ci.py`): GitHub Actions workflow files among the indexed
 * paths, with one ledger record citing the first of them in sorted order.
 */
module CiExtractor {
  import opened Seqs
  import opened Text
  import opened LexOrder
  import opened Evidence
  import opened FileIndex

  const WorkflowDir := ".github/workflows/"
  const CiId := "EVID-CI-GHA-001"
  const NoWorkflowsSummary := "No GitHub Actions workflows detected (in scanned set)"
  const WorkflowsSummary := "GitHub Actions workflows detected"

  datatype CiSignal = CiSignal(summary: string, workflows: seq<string>)

  predicate IsWorkflow(p: string) {
    StartsWith(p, WorkflowDir)
  }

  /** The record citing workflow `wf`, lines 1 to 200. */
  function CiRecord(wf: string): Record {
    Record(CiId, Kind.Ci, "GitHub Actions workflow present: " + wf, [Ref(FileLines, MakeFileLinesRef(wf, 1, 200))])
  }

  /** `extract_ci`: the workflows are the indexed paths under ".github/workflows/", sorted
      and without repeats; when there is one, a single record citing the smallest is appended,
      and otherwise the ledger is left alone. */
  method ExtractCi(index: Index, log: EvidenceLog) returns (signal: CiSignal)
    requires log.Valid()
    modifies log
    ensures log.Valid()
    ensures StrictlySorted(signal.workflows)
    ensures forall p :: p in signal.workflows <==> p in Paths(index) && IsWorkflow(p)
    ensures signal.workflows == [] ==> signal.summary == NoWorkflowsSummary && unchanged(log)
    ensures signal.workflows != [] ==>
              && signal.summary == WorkflowsSummary
              && (forall p :: p in signal.workflows ==> p == signal.workflows[0] || Less(signal.workflows[0], p))
              && log.lines == old(log.lines) + [Entry(CiRecord(signal.workflows[0]))]
              && log.PresentIds() == old(log.PresentIds()) + {CiId}
  {
    var files := Paths(index);
    var order := Enumerate(files);
    var candidates := Filter(order, IsWorkflow);
    FilterSpec(order, IsWorkflow);
    if |candidates| == 0 {
      signal := CiSignal(NoWorkflowsSummary, []);
      return;
    }
    var found := set p | p in candidates;
    assert candidates[0] in found;
    var sorted := SortSet(found);
    var wf := sorted[0];
    forall p | p in sorted && p != wf ensures Less(wf, p) {
      SortedHeadIsLeast(sorted, p);
    }
    log.Append(CiRecord(wf));
    signal := CiSignal(WorkflowsSummary, sorted);
  }
}
