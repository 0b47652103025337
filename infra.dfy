/**
 * The infrastructure extractor (`extractors/infra.py`): Terraform, Helm, Kustomize and
 * Kubernetes-manifest paths, one ledger record for each of the first three kinds found,
 * and a summary naming them.
 */
module InfraExtractor {
  import opened Seqs
  import opened Text
  import opened Evidence
  import opened FileIndex

  predicate IsTerraform(p: string) {
    EndsWith(p, ".tf")
  }

  predicate IsHelm(p: string) {
    Contains(p, "/charts/") || EndsWith(p, "Chart.yaml")
  }

  predicate IsKustomize(p: string) {
    EndsWith(p, "kustomization.yaml") || EndsWith(p, "kustomization.yml")
  }

  predicate IsK8sManifest(p: string) {
    EndsWith(p, ".yaml") || EndsWith(p, ".yml")
  }

  const TerraformId := "EVID-INFRA-TF"
  const HelmId := "EVID-INFRA-HELM"
  const KustomizeId := "EVID-INFRA-KUSTOMIZE"

  /** "No IaC/deploy assets detected (in scanned set)", written in pieces so that the
      verifier can look for a character in it. */
  const NoAssetsSummary := "No IaC/deploy " + "assets detected " + "(in scanned set)"

  /** The four hit lists; each lists the matching indexed paths in set-iteration order. */
  datatype InfraHits = InfraHits(terraform: seq<string>, helm: seq<string>, kustomize: seq<string>,
                                 k8sManifests: seq<string>)

  datatype InfraSignal = InfraSignal(summary: string, hits: InfraHits)

  function SummaryParts(terraform: bool, helm: bool, kustomize: bool): seq<string> {
    (if terraform then ["Terraform"] else []) + (if helm then ["Helm"] else [])
      + (if kustomize then ["Kustomize"] else [])
  }

  /** `", ".join(summary_parts) if summary_parts else "No IaC/deploy ..."`. */
  function SummaryText(parts: seq<string>): string {
    if |parts| > 0 then Join(parts, ", ") else NoAssetsSummary
  }

  /** The summary for the given non-empty hit lists. */
  function InfraSummary(terraform: bool, helm: bool, kustomize: bool): string {
    SummaryText(SummaryParts(terraform, helm, kustomize))
  }

  lemma PartsNamed(terraform: bool, helm: bool, kustomize: bool)
    ensures var parts := SummaryParts(terraform, helm, kustomize);
            && (forall i :: 0 <= i < |parts| ==> parts[i] == "Terraform" || parts[i] == "Helm" || parts[i] == "Kustomize")
            && ("Terraform" in parts <==> terraform)
            && ("Helm" in parts <==> helm)
            && ("Kustomize" in parts <==> kustomize)
  {
  }

  /** The fallback text has no 'm', which all three kind names have. */
  lemma FallbackNamesNothing(s: string)
    requires s == NoAssetsSummary
    ensures !Contains(s, "Terraform") && !Contains(s, "Helm") && !Contains(s, "Kustomize")
  {
    assert 'm' !in s;
    NotContainsWithout(s, "Terraform", 'm');
    NotContainsWithout(s, "Helm", 'm');
    NotContainsWithout(s, "Kustomize", 'm');
  }

  /** The summary names kind `w` exactly when the hit list of that kind is non-empty. */
  lemma SummaryNames(terraform: bool, helm: bool, kustomize: bool, w: string)
    requires w == "Terraform" || w == "Helm" || w == "Kustomize"
    ensures Contains(InfraSummary(terraform, helm, kustomize), w) <==>
              (w == "Terraform" && terraform) || (w == "Helm" && helm) || (w == "Kustomize" && kustomize)
  {
    if terraform || helm || kustomize {
      JoinedNames(terraform, helm, kustomize, w);
    } else {
      FallbackNamesNothing(InfraSummary(terraform, helm, kustomize));
    }
  }

  /** With some kind found, the summary joins the kind names found. */
  lemma JoinedNames(terraform: bool, helm: bool, kustomize: bool, w: string)
    requires w == "Terraform" || w == "Helm" || w == "Kustomize"
    ensures Contains(Join(SummaryParts(terraform, helm, kustomize), ", "), w) <==>
              (w == "Terraform" && terraform) || (w == "Helm" && helm) || (w == "Kustomize" && kustomize)
  {
    PartsNamed(terraform, helm, kustomize);
    JoinMentions(SummaryParts(terraform, helm, kustomize), ", ", w);
  }

  /** The summary names each kind exactly when its hit list is non-empty, and it is never
      empty: with no assets it is the fallback text. */
  lemma InfraSummaryMentions(terraform: bool, helm: bool, kustomize: bool)
    ensures var s := InfraSummary(terraform, helm, kustomize);
            && s != ""
            && (Contains(s, "Terraform") <==> terraform)
            && (Contains(s, "Helm") <==> helm)
            && (Contains(s, "Kustomize") <==> kustomize)
  {
    var parts := SummaryParts(terraform, helm, kustomize);
    if parts != [] {
      assert |parts[0]| > 0;
    }
    SummaryNames(terraform, helm, kustomize, "Terraform");
    SummaryNames(terraform, helm, kustomize, "Helm");
    SummaryNames(terraform, helm, kustomize, "Kustomize");
  }

  /** The hit lists of one iteration order over the indexed paths. */
  function HitsOf(order: seq<string>): InfraHits {
    InfraHits(Filter(order, IsTerraform), Filter(order, IsHelm), Filter(order, IsKustomize),
              Filter(order, IsK8sManifest))
  }

  /** Each hit list lists exactly the matching paths. */
  predicate HitsMatch(h: InfraHits, files: set<string>) {
    && Lists(h.terraform, set p | p in files && IsTerraform(p))
    && Lists(h.helm, set p | p in files && IsHelm(p))
    && Lists(h.kustomize, set p | p in files && IsKustomize(p))
    && Lists(h.k8sManifests, set p | p in files && IsK8sManifest(p))
  }

  /** Filtering an enumeration of the paths lists exactly the matching paths. */
  lemma HitsOfLists(order: seq<string>, files: set<string>)
    requires Lists(order, files)
    ensures HitsMatch(HitsOf(order), files)
  {
    FilterSpec(order, IsTerraform);
    FilterSpec(order, IsHelm);
    FilterSpec(order, IsKustomize);
    FilterSpec(order, IsK8sManifest);
    FilterNoDup(order, IsTerraform);
    FilterNoDup(order, IsHelm);
    FilterNoDup(order, IsKustomize);
    FilterNoDup(order, IsK8sManifest);
  }

  /** The four list comprehensions over the set of indexed paths. */
  method ScanHits(files: set<string>) returns (hits: InfraHits)
    ensures HitsMatch(hits, files)
  {
    var order := Enumerate(files);
    hits := HitsOf(order);
    HitsOfLists(order, files);
  }

  /** `extract_infra`: the hit lists are exactly the matching indexed paths; the TF, HELM and
      KUSTOMIZE records are appended in that order, each exactly when its list is non-empty
      and citing a member of that list; Kubernetes manifests produce no record. */
  method ExtractInfra(index: Index, log: EvidenceLog) returns (signal: InfraSignal)
    requires log.Valid()
    modifies log
    ensures log.Valid()
    ensures HitsMatch(signal.hits, Paths(index))
    ensures log.lines == old(log.lines)
              + CiteFirstHit(TerraformId, Infra, "Terraform files present", signal.hits.terraform)
              + CiteFirstHit(HelmId, Infra, "Helm chart assets present", signal.hits.helm)
              + CiteFirstHit(KustomizeId, Infra, "Kustomize manifests present", signal.hits.kustomize)
    ensures log.PresentIds() == old(log.PresentIds()) + IdIfHit(TerraformId, signal.hits.terraform)
              + IdIfHit(HelmId, signal.hits.helm) + IdIfHit(KustomizeId, signal.hits.kustomize)
    ensures signal.summary
              == InfraSummary(|signal.hits.terraform| > 0, |signal.hits.helm| > 0, |signal.hits.kustomize| > 0)
  {
    var hits := ScanHits(Paths(index));
    var summaryParts: seq<string> := [];
    log.AppendIfHit(TerraformId, Infra, "Terraform files present", hits.terraform);
    if |hits.terraform| > 0 {
      summaryParts := summaryParts + ["Terraform"];
    }
    assert summaryParts == SummaryParts(|hits.terraform| > 0, false, false);
    log.AppendIfHit(HelmId, Infra, "Helm chart assets present", hits.helm);
    if |hits.helm| > 0 {
      summaryParts := summaryParts + ["Helm"];
    }
    assert summaryParts == SummaryParts(|hits.terraform| > 0, |hits.helm| > 0, false);
    log.AppendIfHit(KustomizeId, Infra, "Kustomize manifests present", hits.kustomize);
    if |hits.kustomize| > 0 {
      summaryParts := summaryParts + ["Kustomize"];
    }
    assert summaryParts == SummaryParts(|hits.terraform| > 0, |hits.helm| > 0, |hits.kustomize| > 0);
    signal := InfraSignal(SummaryText(summaryParts), hits);
  }
}
