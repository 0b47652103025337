/**
 * The dependency and scanner extractor (`extractors/security_deps.py`): which of six
 * dependency manifests sit at the repository root, which paths look like security scanner
 * configuration, and a ledger record for each of the two when non-empty.
 */
module SecurityExtractor {
  import opened Seqs
  import opened Text
  import opened LexOrder
  import opened Evidence
  import opened FileIndex

  /** The manifests looked for, in the order they are reported. */
  const Manifests := ["go.mod", "go.sum", "package-lock.json", "pnpm-lock.yaml", "poetry.lock", "requirements.txt"]

  predicate IsScannerConfig(p: string) {
    Contains(Lower(p), "dependabot") || Contains(Lower(p), "codeql") || Contains(Lower(p), "snyk")
  }

  const DepsId := "EVID-SEC-DEPS"
  const ScannersId := "EVID-SEC-SCANNERS"

  datatype SecuritySignal = SecuritySignal(deps: seq<string>, scanners: seq<string>)

  /** The manifests present as exact indexed paths, in the order of `Manifests`. */
  function PresentManifests(files: set<string>): seq<string> {
    Filter(Manifests, (f: string) => f in files)
  }

  /** `deps` holds exactly the manifests that are indexed paths, each once: a manifest in a
      sub-directory ("a/go.mod") is a different path and does not count. */
  lemma PresentManifestsSpec(files: set<string>)
    ensures var deps := PresentManifests(files);
            && NoDup(deps) && |deps| <= |Manifests|
            && forall f :: f in deps <==> f in Manifests && f in files
  {
    FilterSpec(Manifests, (f: string) => f in files);
    FilterNoDup(Manifests, (f: string) => f in files);
  }

  /** The DEPS record: every manifest found in its summary, the first one cited. */
  function DepsRecord(deps: seq<string>): Record
    requires |deps| > 0
  {
    Record(DepsId, Security, "Dependency manifests present: " + Join(deps, ", "),
           [Ref(FileLines, MakeFileLinesRef(deps[0], 1, 80))])
  }

  /** The SCANNERS record, citing lines 1 to 200 of `least`. */
  function ScannersRecord(least: string): Record {
    Record(ScannersId, Security, "Security scanning config detected", [Ref(FileLines, MakeFileLinesRef(least, 1, 200))])
  }

  /** The lines `extract_security_deps` appends. */
  function SecurityLines(signal: SecuritySignal): seq<LogLine> {
    (if |signal.deps| > 0 then [Entry(DepsRecord(signal.deps))] else [])
      + (if |signal.scanners| > 0 then [Entry(ScannersRecord(Least(signal.scanners)))] else [])
  }

  /** The `deps` loop. */
  method FindManifests(files: set<string>) returns (deps: seq<string>)
    ensures deps == PresentManifests(files)
  {
    deps := [];
    for i := 0 to |Manifests|
      invariant deps == Filter(Manifests[..i], (f: string) => f in files)
    {
      var f := Manifests[i];
      assert Manifests[..i + 1] == Manifests[..i] + [f];
      if f in files {
        deps := deps + [f];
      }
    }
    assert Manifests[..|Manifests|] == Manifests;
  }

  /** `if deps: write_evidence_jsonl(...)`. */
  method CiteDeps(log: EvidenceLog, deps: seq<string>)
    requires log.Valid()
    modifies log
    ensures log.Valid()
    ensures log.lines == old(log.lines) + (if |deps| > 0 then [Entry(DepsRecord(deps))] else [])
    ensures log.PresentIds() == old(log.PresentIds()) + (if |deps| > 0 then {DepsId} else {})
  {
    if |deps| > 0 {
      log.Append(Record(DepsId, Security, "Dependency manifests present: " + Join(deps, ", "),
                        [Ref(FileLines, MakeFileLinesRef(deps[0], 1, 80))]));
    }
  }

  /** `if scanners: write_evidence_jsonl(...)`, citing `sorted(scanners)[0]`. */
  method CiteScanners(log: EvidenceLog, scanners: seq<string>)
    requires log.Valid()
    modifies log
    ensures log.Valid()
    ensures log.lines == old(log.lines) + (if |scanners| > 0 then [Entry(ScannersRecord(Least(scanners)))] else [])
    ensures log.PresentIds() == old(log.PresentIds()) + (if |scanners| > 0 then {ScannersId} else {})
  {
    if |scanners| > 0 {
      var found := set p | p in scanners;
      assert scanners[0] in found;
      var sorted := SortSet(found);
      SortedHeadIsMin(sorted, scanners);
      log.Append(Record(ScannersId, Security, "Security scanning config detected",
                        [Ref(FileLines, MakeFileLinesRef(sorted[0], 1, 200))]));
    }
  }

  /** Both records, DEPS first. */
  method CiteSignal(log: EvidenceLog, signal: SecuritySignal)
    requires log.Valid()
    modifies log
    ensures log.Valid()
    ensures log.lines == old(log.lines) + SecurityLines(signal)
    ensures log.PresentIds() == old(log.PresentIds()) + (if |signal.deps| > 0 then {DepsId} else {})
              + (if |signal.scanners| > 0 then {ScannersId} else {})
  {
    CiteDeps(log, signal.deps);
    CiteScanners(log, signal.scanners);
  }

  /** The list comprehension of scanner-configuration paths over the set of indexed paths. */
  method ScanScanners(files: set<string>) returns (scanners: seq<string>)
    ensures Lists(scanners, set p | p in files && IsScannerConfig(p))
  {
    var order := Enumerate(files);
    scanners := Filter(order, IsScannerConfig);
    FilterSpec(order, IsScannerConfig);
    FilterNoDup(order, IsScannerConfig);
  }

  /** `extract_security_deps`: `deps` is the manifests present, in list order; `scanners`
      lists the scanner-configuration paths; DEPS (citing the first manifest) and then SCANNERS
      (citing the smallest scanner path) are appended, each exactly when its list is non-empty. */
  method ExtractSecurityDeps(index: Index, log: EvidenceLog) returns (signal: SecuritySignal)
    requires log.Valid()
    modifies log
    ensures log.Valid()
    ensures signal.deps == PresentManifests(Paths(index))
    ensures Lists(signal.scanners, set p | p in Paths(index) && IsScannerConfig(p))
    ensures log.lines == old(log.lines) + SecurityLines(signal)
    ensures log.PresentIds() == old(log.PresentIds()) + (if |signal.deps| > 0 then {DepsId} else {})
              + (if |signal.scanners| > 0 then {ScannersId} else {})
  {
    var files := Paths(index);
    var deps := FindManifests(files);
    var scanners := ScanScanners(files);
    signal := SecuritySignal(deps, scanners);
    CiteSignal(log, signal);
  }
}
