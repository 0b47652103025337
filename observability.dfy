/**
 * The observability extractor (`extractors/observability.py`): Prometheus, Grafana or
 * dashboard, and OpenTelemetry paths, found by looking at the lower-cased path, with one
 * ledger record for each kind found and a summary naming them.
 */
module ObservabilityExtractor {
  import opened Seqs
  import opened Text
  import opened Evidence
  import opened FileIndex

  predicate IsPrometheus(p: string) {
    Contains(Lower(p), "prometheus")
  }

  predicate IsGrafana(p: string) {
    Contains(Lower(p), "grafana") || EndsWith(Lower(p), ".json")
  }

  predicate IsOtel(p: string) {
    Contains(Lower(p), "otel") || Contains(Lower(p), "opentelemetry")
  }

  const PrometheusId := "EVID-OBS-PROM"
  const GrafanaId := "EVID-OBS-GRAF"
  const OtelId := "EVID-OBS-OTEL"

  /** "No explicit observability artifacts detected (heuristic)", written in pieces so that
      the verifier can look for a character in it. */
  const NoArtifactsSummary := "No explicit " + "observability " + "artifacts detected " + "(heuristic)"

  /** The three hit lists; each lists the matching indexed paths in set-iteration order. */
  datatype ObservabilityHits = ObservabilityHits(prom: seq<string>, graf: seq<string>, otel: seq<string>)

  datatype ObservabilitySignal = ObservabilitySignal(summary: string, signals: ObservabilityHits)

  function SummaryParts(prom: bool, graf: bool, otel: bool): seq<string> {
    (if prom then ["Prometheus"] else []) + (if graf then ["Grafana/dashboards"] else [])
      + (if otel then ["OpenTelemetry"] else [])
  }

  /** `", ".join(summary) if summary else "No explicit ..."`. */
  function SummaryText(parts: seq<string>): string {
    if |parts| > 0 then Join(parts, ", ") else NoArtifactsSummary
  }

  /** The summary for the given non-empty hit lists. */
  function ObservabilitySummary(prom: bool, graf: bool, otel: bool): string {
    SummaryText(SummaryParts(prom, graf, otel))
  }

  lemma PartsNamed(prom: bool, graf: bool, otel: bool)
    ensures var parts := SummaryParts(prom, graf, otel);
            && (forall i :: 0 <= i < |parts| ==>
                  parts[i] == "Prometheus" || parts[i] == "Grafana/dashboards" || parts[i] == "OpenTelemetry")
            && ("Prometheus" in parts <==> prom)
            && ("Grafana/dashboards" in parts <==> graf)
            && ("OpenTelemetry" in parts <==> otel)
  {
  }

  /** The fallback text has neither an 'm' (which "Prometheus" and "OpenTelemetry" have) nor
      an 'n' (which "Grafana/dashboards" has). */
  lemma FallbackNamesNothing(s: string)
    requires s == NoArtifactsSummary
    ensures !Contains(s, "Prometheus") && !Contains(s, "Grafana/dashboards") && !Contains(s, "OpenTelemetry")
  {
    assert 'm' !in s && 'n' !in s;
    NotContainsWithout(s, "Prometheus", 'm');
    NotContainsWithout(s, "Grafana/dashboards", 'n');
    NotContainsWithout(s, "OpenTelemetry", 'm');
  }

  /** The summary names artifact kind `w` exactly when the hit list of that kind is non-empty. */
  lemma SummaryNames(prom: bool, graf: bool, otel: bool, w: string)
    requires w == "Prometheus" || w == "Grafana/dashboards" || w == "OpenTelemetry"
    ensures Contains(ObservabilitySummary(prom, graf, otel), w) <==>
              (w == "Prometheus" && prom) || (w == "Grafana/dashboards" && graf) || (w == "OpenTelemetry" && otel)
  {
    if prom || graf || otel {
      JoinedNames(prom, graf, otel, w);
    } else {
      FallbackNamesNothing(ObservabilitySummary(prom, graf, otel));
    }
  }

  /** With some kind found, the summary joins the kind names found. */
  lemma JoinedNames(prom: bool, graf: bool, otel: bool, w: string)
    requires w == "Prometheus" || w == "Grafana/dashboards" || w == "OpenTelemetry"
    ensures Contains(Join(SummaryParts(prom, graf, otel), ", "), w) <==>
              (w == "Prometheus" && prom) || (w == "Grafana/dashboards" && graf) || (w == "OpenTelemetry" && otel)
  {
    PartsNamed(prom, graf, otel);
    JoinMentions(SummaryParts(prom, graf, otel), ", ", w);
  }

  /** The summary contains "Prometheus" exactly when some path mentions prometheus, and
      "OpenTelemetry" exactly when some path mentions otel or opentelemetry (the two facts
      the scorer reads), and likewise "Grafana/dashboards"; it is never empty. */
  lemma ObservabilitySummaryMentions(prom: bool, graf: bool, otel: bool)
    ensures var s := ObservabilitySummary(prom, graf, otel);
            && s != ""
            && (Contains(s, "Prometheus") <==> prom)
            && (Contains(s, "Grafana/dashboards") <==> graf)
            && (Contains(s, "OpenTelemetry") <==> otel)
  {
    var parts := SummaryParts(prom, graf, otel);
    if parts != [] {
      assert |parts[0]| > 0;
    }
    SummaryNames(prom, graf, otel, "Prometheus");
    SummaryNames(prom, graf, otel, "Grafana/dashboards");
    SummaryNames(prom, graf, otel, "OpenTelemetry");
  }

  /** The hit lists of one iteration order over the indexed paths. */
  function HitsOf(order: seq<string>): ObservabilityHits {
    ObservabilityHits(Filter(order, IsPrometheus), Filter(order, IsGrafana), Filter(order, IsOtel))
  }

  /** Each hit list lists exactly the matching paths. */
  predicate HitsMatch(h: ObservabilityHits, files: set<string>) {
    && Lists(h.prom, set p | p in files && IsPrometheus(p))
    && Lists(h.graf, set p | p in files && IsGrafana(p))
    && Lists(h.otel, set p | p in files && IsOtel(p))
  }

  /** Filtering an enumeration of the paths lists exactly the matching paths. */
  lemma HitsOfLists(order: seq<string>, files: set<string>)
    requires Lists(order, files)
    ensures HitsMatch(HitsOf(order), files)
  {
    FilterSpec(order, IsPrometheus);
    FilterSpec(order, IsGrafana);
    FilterSpec(order, IsOtel);
    FilterNoDup(order, IsPrometheus);
    FilterNoDup(order, IsGrafana);
    FilterNoDup(order, IsOtel);
  }

  /** The three list comprehensions over the set of indexed paths. */
  method ScanHits(files: set<string>) returns (hits: ObservabilityHits)
    ensures HitsMatch(hits, files)
  {
    var order := Enumerate(files);
    hits := HitsOf(order);
    HitsOfLists(order, files);
  }

  /** `extract_observability`: the hit lists are exactly the matching indexed paths; the PROM,
      GRAF and OTEL records are appended in that order, each exactly when its list is
      non-empty and citing a member of that list. */
  method ExtractObservability(index: Index, log: EvidenceLog) returns (signal: ObservabilitySignal)
    requires log.Valid()
    modifies log
    ensures log.Valid()
    ensures HitsMatch(signal.signals, Paths(index))
    ensures log.lines == old(log.lines)
              + CiteFirstHit(PrometheusId, Observability, "Prometheus-related artifacts detected", signal.signals.prom)
              + CiteFirstHit(GrafanaId, Observability, "Grafana/dashboard artifacts detected", signal.signals.graf)
              + CiteFirstHit(OtelId, Observability, "OpenTelemetry-related artifacts detected", signal.signals.otel)
    ensures log.PresentIds() == old(log.PresentIds()) + IdIfHit(PrometheusId, signal.signals.prom)
              + IdIfHit(GrafanaId, signal.signals.graf) + IdIfHit(OtelId, signal.signals.otel)
    ensures signal.summary
              == ObservabilitySummary(|signal.signals.prom| > 0, |signal.signals.graf| > 0, |signal.signals.otel| > 0)
  {
    var hits := ScanHits(Paths(index));
    var summary: seq<string> := [];
    log.AppendIfHit(PrometheusId, Observability, "Prometheus-related artifacts detected", hits.prom);
    if |hits.prom| > 0 {
      summary := summary + ["Prometheus"];
    }
    assert summary == SummaryParts(|hits.prom| > 0, false, false);
    log.AppendIfHit(GrafanaId, Observability, "Grafana/dashboard artifacts detected", hits.graf);
    if |hits.graf| > 0 {
      summary := summary + ["Grafana/dashboards"];
    }
    assert summary == SummaryParts(|hits.prom| > 0, |hits.graf| > 0, false);
    log.AppendIfHit(OtelId, Observability, "OpenTelemetry-related artifacts detected", hits.otel);
    if |hits.otel| > 0 {
      summary := summary + ["OpenTelemetry"];
    }
    assert summary == SummaryParts(|hits.prom| > 0, |hits.graf| > 0, |hits.otel| > 0);
    signal := ObservabilitySignal(SummaryText(summary), hits);
  }
}
