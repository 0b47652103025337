/**
 * The required-key check of the `validate` command (`cli.py`): a scorecard document must
 * carry five top-level keys; only their presence is checked, never their values, and
 * the optional evidence-file check comes after it.  The document is abstracted to its set
 * of top-level keys, and the evidence option to whether a path was given and exists.
 */
module Validate {
  import opened Wrappers
  import opened Seqs
  import opened Text

  const Required: seq<string> := ["version", "repo", "run", "overall", "categories"]

  datatype Outcome = Ok | MissingKeysError(missing: seq<string>, message: string) | EvidenceNotFound

  /** `[k for k in required if k not in data]`. */
  function MissingKeys(keys: set<string>): seq<string> {
    Filter(Required, (k: string) => k !in keys)
  }

  /** `validate`: `evidence` is `None` without `--evidence`, otherwise whether the file exists. */
  function Validate(keys: set<string>, evidence: Option<bool>): Outcome {
    var missing := MissingKeys(keys);
    if missing != [] then MissingKeysError(missing, "Missing keys: " + ReprList(missing))
    else if evidence == Some(false) then EvidenceNotFound
    else Ok
  }

  /** A key is reported exactly when it is required and absent, each at most once. */
  lemma MissingKeysSpec(keys: set<string>)
    ensures forall k :: k in MissingKeys(keys) <==> k in Required && k !in keys
    ensures NoDup(MissingKeys(keys))
  {
    FilterSpec(Required, (k: string) => k !in keys);
    assert NoDup(Required);
    FilterNoDup(Required, (k: string) => k !in keys);
  }

  /** The key check fails exactly when a required key is absent, whatever the evidence option,
      and the message names every absent key. */
  lemma KeyCheckIff(keys: set<string>, evidence: Option<bool>)
    ensures Validate(keys, evidence).MissingKeysError? <==> exists k :: k in Required && k !in keys
    ensures Validate(keys, evidence).MissingKeysError? ==>
              forall k :: k in Required && k !in keys ==> Contains(Validate(keys, evidence).message, k)
  {
    MissingKeysSpec(keys);
    var missing := MissingKeys(keys);
    if missing != [] {
      assert missing[0] in Required && missing[0] !in keys;
      forall k | k in Required && k !in keys ensures Contains(Validate(keys, evidence).message, k) {
        var i :| 0 <= i < |missing| && missing[i] == k;
        ReprListContains(missing, i);
        ContainsExtendLeft("Missing keys: ", ReprList(missing), k);
      }
    }
  }

  /** With every required key present, the evidence check decides: it fails only for a path
      that was given and does not exist. */
  lemma EvidenceCheckIff(keys: set<string>, evidence: Option<bool>)
    requires forall k :: k in Required ==> k in keys
    ensures Validate(keys, evidence) == (if evidence == Some(false) then EvidenceNotFound else Ok)
  {
    MissingKeysSpec(keys);
    HeadIsMember(MissingKeys(keys));
  }

  lemma HeadIsMember(s: seq<string>)
    ensures s != [] ==> s[0] in s
  {
  }

  /** Keys outside the required five never change the verdict. */
  lemma ExtraKeysIgnored(keys: set<string>, extra: set<string>, evidence: Option<bool>)
    requires forall k :: k in extra ==> k !in Required
    ensures Validate(keys + extra, evidence) == Validate(keys, evidence)
  {
    FilterCongruent(Required, (k: string) => k !in keys + extra, (k: string) => k !in keys);
  }

  /** The top-level keys of a scorecard as `score_repo` builds it. */
  const ScorecardKeys: set<string> := {"version", "repo", "run", "overall", "categories"}

  /** A scorecard the pipeline writes passes the key check. */
  lemma ScorecardPassesKeyCheck(evidence: Option<bool>)
    ensures !Validate(ScorecardKeys, evidence).MissingKeysError?
  {
    KeyCheckIff(ScorecardKeys, evidence);
  }
}
