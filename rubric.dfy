/**
 * The scoring rubric (`scoring/rubric.py`): ten fixed categories, each with an id, a
 * display name and a description, and the id-to-name dictionary the scorer builds from it.
 */
module Rubric {
  import opened Seqs

  datatype RubricCategory = RubricCategory(id: string, name: string, description: string)

  /** The category ids, in the order the rubric lists them (and the scorer emits them). */
  const CategoryOrder: seq<string> := ["arch_clarity", "ops_readiness", "observability", "reliability",
                                       "security", "data_contracts", "testing", "performance",
                                       "deployment", "cost"]

  const CategoryTitles: seq<string> := [
    "Architecture Clarity", "Operational Readiness", "Observability", "Reliability & Correctness",
    "Security Posture", "Data Contracts & Migrations", "Testing Discipline", "Performance Risks",
    "Deployment Maturity", "Cost Risk"]

  /** The description of the `i`-th entry. */
  function Description(i: nat): string {
    if i == 0 then "Module boundaries, ownership, architectural documentation."
    else if i == 1 then "Health checks, runbooks, release discipline."
    else if i == 2 then "Metrics, logs, tracing, dashboards."
    else if i == 3 then "Retries, idempotency, backpressure, timeouts."
    else if i == 4 then "Dependency hygiene, secrets management, scanning."
    else if i == 5 then "Schema versioning and migration discipline."
    else if i == 6 then "Unit/integration tests and CI enforcement."
    else if i == 7 then "Hot paths, batching, resource limits."
    else if i == 8 then "IaC, Helm/Kustomize, environment separation."
    else "Resource sizing, scaling knobs, expensive defaults."
  }

  /** The entries whose row `i` holds the `i`-th id and name and the `i`-th description. */
  function Rows(ids: seq<string>, names: seq<string>): seq<RubricCategory>
    requires |ids| == |names|
  {
    seq(|ids|, i requires 0 <= i < |ids| => RubricCategory(ids[i], names[i], Description(i)))
  }

  /** `RUBRIC`. */
  const Table: seq<RubricCategory> := Rows(CategoryOrder, CategoryTitles)

  function Ids(r: seq<RubricCategory>): seq<string> {
    seq(|r|, i requires 0 <= i < |r| => r[i].id)
  }

  /** `{c.id: c.name for c in rubric}`: a later entry with the same id would win. */
  function NameTable(r: seq<RubricCategory>): map<string, string>
    decreases |r|
  {
    if |r| == 0 then map[] else NameTable(r[..|r| - 1])[r[|r| - 1].id := r[|r| - 1].name]
  }

  /** `CATEGORY_IDS`. */
  function CategoryNames(): map<string, string> {
    NameTable(Table)
  }

  /** The dictionary's keys are the ids, and with distinct ids every entry keeps its own name. */
  lemma {:induction false} NameTableSpec(r: seq<RubricCategory>)
    requires NoDup(Ids(r))
    ensures NameTable(r).Keys == set i | 0 <= i < |r| :: r[i].id
    ensures forall i :: 0 <= i < |r| ==> NameTable(r)[r[i].id] == r[i].name
    decreases |r|
  {
    if |r| > 0 {
      var p := r[..|r| - 1];
      assert Ids(p) == Ids(r)[..|r| - 1];
      assert NoDup(Ids(p));
      NameTableSpec(p);
      assert forall i :: 0 <= i < |p| ==> p[i].id != r[|r| - 1].id by {
        forall i | 0 <= i < |p| ensures p[i].id != r[|r| - 1].id {
          assert Ids(r)[i] == p[i].id && Ids(r)[|r| - 1] == r[|r| - 1].id;
        }
      }
    }
  }

  lemma OrderDistinct()
    ensures NoDup(CategoryOrder)
  {
  }

  /** Ten entries, ids in the scorer's order and pairwise distinct. */
  lemma TableShape()
    ensures |Table| == 10
    ensures Ids(Table) == CategoryOrder
    ensures NoDup(Ids(Table))
  {
    var t := Table;
    assert |t| == 10;
    assert forall i :: 0 <= i < 10 ==> Ids(t)[i] == t[i].id == CategoryOrder[i];
    OrderDistinct();
  }

  /** Every id the scorer passes to `_cat` is a key of `CATEGORY_IDS`, mapped to the
      name of its rubric entry. */
  lemma CategoryNamesTotal()
    ensures CategoryNames().Keys == set c | c in CategoryOrder
    ensures forall i :: 0 <= i < |Table| ==> CategoryNames()[Table[i].id] == Table[i].name
  {
    TableShape();
    NameTableSpec(Table);
  }
}
