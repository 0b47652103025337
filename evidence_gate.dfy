/**
 * The evidence gate (`verifier/evidence_gate.py`): the ids present in the ledger are read
 * back, every category whose claimed references are not all present gets a note listing
 * them and a lowered confidence, and the overall confidence is recomputed over the
 * categories.  The scorecard is updated in place; scores and evidence lists are untouched.
 */
module EvidenceGate {
  import opened Numbers
  import opened Seqs
  import opened Text
  import opened Evidence
  import opened Scoring

  /** `missing`: the non-empty refs of `ev` that are not present, in evidence order. */
  function Unverified(ev: seq<Ref>, present: set<string>): seq<string>
    decreases |ev|
  {
    if |ev| == 0 then []
    else
      var r := ev[|ev| - 1].ref;
      Unverified(ev[..|ev| - 1], present) + (if r != "" && r !in present then [r] else [])
  }

  /** A ref is missing exactly when it is non-empty, cited by some reference and absent
      from the ledger; there are never more missing refs than references. */
  lemma {:induction false} UnverifiedSpec(ev: seq<Ref>, present: set<string>)
    ensures forall m :: m in Unverified(ev, present) <==> m != "" && m !in present && m in RefStrings(ev)
    ensures |Unverified(ev, present)| <= |ev|
    decreases |ev|
  {
    if |ev| > 0 {
      var p := ev[..|ev| - 1];
      UnverifiedSpec(p, present);
      assert RefStrings(ev) == RefStrings(p) + [ev[|ev| - 1].ref];
    }
  }

  /** Only the `ref` of a reference matters, never its `type`. */
  lemma {:induction false} UnverifiedIgnoresType(ev1: seq<Ref>, ev2: seq<Ref>, present: set<string>)
    requires RefStrings(ev1) == RefStrings(ev2)
    ensures Unverified(ev1, present) == Unverified(ev2, present)
    decreases |ev1|
  {
    if |ev1| > 0 {
      assert |ev1| == |RefStrings(ev1)| == |ev2|;
      var n := |ev1| - 1;
      assert RefStrings(ev1[..n]) == RefStrings(ev1)[..n];
      assert RefStrings(ev2[..n]) == RefStrings(ev2)[..n];
      assert ev1[n].ref == RefStrings(ev1)[n] == RefStrings(ev2)[n] == ev2[n].ref;
      UnverifiedIgnoresType(ev1[..n], ev2[..n], present);
    }
  }

  /** `round(max(min_conf, conf * 0.6), 2)` in hundredths: `max(10 * floor, 6 * conf) / 10`, rounded. */
  function PenalizedConfidence(conf: int, floor: int): int {
    RoundDiv(Max(10 * floor, 6 * conf), 10)
  }

  /** The lowered confidence is never under the floor; it never exceeds the old confidence
      when the floor does not; and above a floor it drops strictly unless the old value is
      a single hundredth. */
  lemma PenalizedBounds(conf: int, floor: int)
    ensures PenalizedConfidence(conf, floor) >= floor
    ensures floor <= conf && 0 <= conf ==> PenalizedConfidence(conf, floor) <= conf
    ensures floor < conf && conf >= 2 ==> PenalizedConfidence(conf, floor) < conf
  {
    var m := Max(10 * floor, 6 * conf);
    RoundDivWithin(m, 10, floor, if m / 10 >= floor then m / 10 + 1 else floor);
    if floor <= conf && 0 <= conf {
      RoundDivWithin(m, 10, floor, conf);
    }
    if floor < conf && conf >= 2 {
      RoundDivMonotone(m, 10 * conf - 8, 10);
      DivUnique(2 * (10 * conf - 8) + 10, 20, conf - 1, 14);
    }
  }

  const UnverifiedMarker := "| Unverified refs: "

  /** `(notes + f" | Unverified refs: {missing}").strip()`. */
  function GatedNotes(notes: string, missing: seq<string>): string {
    Strip(notes + " " + UnverifiedMarker + ReprList(missing))
  }

  lemma EndsWithContains(s: string, t: string, w: string)
    requires EndsWith(s, t) && Contains(t, w)
    ensures Contains(s, w)
  {
    assert s == s[..|s| - |t|] + t;
    ContainsExtendLeft(s[..|s| - |t|], t, w);
  }

  /** The new notes end with the marker and the list of missing refs, so every missing ref
      shows up in them. `ReprList` writes each ref verbatim between single quotes, as Python's
      `repr` does only for a ref with no quote, no backslash and no non-printable character;
      for any other ref Python escapes it and this lemma says nothing about the program. */
  lemma GatedNotesMention(notes: string, missing: seq<string>)
    ensures EndsWith(GatedNotes(notes, missing), UnverifiedMarker + ReprList(missing))
    ensures forall k :: 0 <= k < |missing| ==> Contains(GatedNotes(notes, missing), missing[k])
  {
    var t := UnverifiedMarker + ReprList(missing);
    assert notes + " " + UnverifiedMarker + ReprList(missing) == (notes + " ") + t;
    assert t[0] == '|' && t[|t| - 1] == ']';
    StripKeepsTail(notes + " ", t);
    forall k | 0 <= k < |missing| ensures Contains(GatedNotes(notes, missing), missing[k]) {
      ReprListContains(missing, k);
      ContainsExtendLeft(UnverifiedMarker, ReprList(missing), missing[k]);
      EndsWithContains(GatedNotes(notes, missing), t, missing[k]);
    }
  }

  /** One category after the gate. */
  function GateCategory(c: Category, present: set<string>, floor: int): Category {
    var missing := Unverified(c.evidence, present);
    if |missing| == 0 then c
    else c.(notes := GatedNotes(c.notes, missing), confidence := PenalizedConfidence(c.confidence, floor))
  }

  /** Every category after the gate, in the same order. */
  function GateAll(cats: seq<Category>, present: set<string>, floor: int): seq<Category> {
    seq(|cats|, k requires 0 <= k < |cats| => GateCategory(cats[k], present, floor))
  }

  /** A category whose refs are all present is left exactly as it was; otherwise only its notes
      and confidence change, the confidence to at least the floor and, from at least the
      floor, to at most what it was, and the notes name every missing ref. */
  lemma GateCategorySpec(c: Category, present: set<string>, floor: int)
    ensures var g := GateCategory(c, present, floor);
            && g.id == c.id && g.name == c.name && g.score == c.score
            && g.evidence == c.evidence && g.recommendations == c.recommendations
            && (Unverified(c.evidence, present) == [] ==> g == c)
            && (Unverified(c.evidence, present) != [] ==>
                  && g.confidence >= floor
                  && (floor <= c.confidence && 0 <= c.confidence ==> g.confidence <= c.confidence)
                  && (forall m :: m in Unverified(c.evidence, present) ==> Contains(g.notes, m)))
  {
    var missing := Unverified(c.evidence, present);
    if missing != [] {
      PenalizedBounds(c.confidence, floor);
      GatedNotesMention(c.notes, missing);
      forall m | m in missing ensures Contains(GatedNotes(c.notes, missing), m) {
        var k :| 0 <= k < |missing| && missing[k] == m;
      }
    }
  }

  lemma {:induction false} StripLeftHead(x: string)
    ensures StripLeft(x) == [] || !IsSpace(StripLeft(x)[0])
    decreases |x|
  {
    if |x| > 0 && IsSpace(x[0]) {
      StripLeftHead(x[1..]);
    }
  }

  /** The gate always rewrites the notes of a category it downgrades: the new notes either
      start with a visible character where the old ones start with whitespace, or are the
      old ones with the marker appended. */
  lemma GatedNotesChange(notes: string, missing: seq<string>)
    ensures GatedNotes(notes, missing) != notes
  {
    var t := UnverifiedMarker + ReprList(missing);
    var x := (notes + " ") + t;
    assert notes + " " + UnverifiedMarker + ReprList(missing) == x;
    assert GatedNotes(notes, missing) == Strip(x);
    assert t[0] == '|' && t[|t| - 1] == ']';
    StripLeftKeepsTail(notes + " ", t);
    var y := StripLeft(x);
    assert y[|y| - 1] == ']';
    assert Strip(x) == y;
    if |notes| > 0 && IsSpace(notes[0]) {
      StripLeftHead(x);
      assert |y| >= |t| > 0;
      assert !IsSpace(y[0]);
    } else if |notes| > 0 {
      assert x[0] == notes[0];
      assert y == x;
    }
  }

  /** A category is changed by the gate exactly when one of its non-empty refs is absent from
      the ledger. */
  lemma GateChangesIff(c: Category, present: set<string>, floor: int)
    ensures GateCategory(c, present, floor) != c <==>
              exists k :: 0 <= k < |c.evidence| && c.evidence[k].ref != "" && c.evidence[k].ref !in present
  {
    UnverifiedSpec(c.evidence, present);
    var missing := Unverified(c.evidence, present);
    if missing != [] {
      GatedNotesChange(c.notes, missing);
      var m := missing[0];
      assert m in RefStrings(c.evidence);
      var k :| 0 <= k < |c.evidence| && RefStrings(c.evidence)[k] == m;
      assert c.evidence[k].ref == m;
    } else {
      forall k | 0 <= k < |c.evidence| && c.evidence[k].ref != ""
        ensures c.evidence[k].ref in present
      {
        assert RefStrings(c.evidence)[k] == c.evidence[k].ref;
      }
    }
  }

  /** With every old confidence at least the floor, the gate can only lower the mean
      confidence. */
  lemma GateLowersMean(cats: seq<Category>, present: set<string>, floor: int)
    requires |cats| > 0
    requires forall k :: 0 <= k < |cats| ==> 0 <= floor <= cats[k].confidence
    ensures Mean(Confidences(GateAll(cats, present, floor))) <= Mean(Confidences(cats))
  {
    var gated := GateAll(cats, present, floor);
    forall k | 0 <= k < |cats| ensures Confidences(gated)[k] <= Confidences(cats)[k] {
      GateCategorySpec(cats[k], present, floor);
    }
    MeanPointwise(Confidences(gated), Confidences(cats));
  }

  /** A second pass is not a no-op: a category at 0.8 with one missing ref drops to 0.48 on the
      first pass (the downgrade the tests expect) and to the floor 0.3 on the second. */
  lemma GateNotIdempotent()
    ensures var c := Category("x", "X", 300, 80, "", [Ref(EvidenceIdRef, "MISSING")], []);
            var once := GateCategory(c, {"EVID-OK"}, 30);
            && once.confidence == 48
            && GateCategory(once, {"EVID-OK"}, 30).confidence == 30
  {
    var c := Category("x", "X", 300, 80, "", [Ref(EvidenceIdRef, "MISSING")], []);
    assert c.evidence[..0] == [];
    assert Unverified(c.evidence, {"EVID-OK"}) == ["MISSING"];
    DivUnique(2 * 480 + 10, 20, 48, 10);
    DivUnique(2 * 300 + 10, 20, 30, 10);
  }

  // ----- the imperative gate -----

  /** The `present_ids` loop: the ids of the lines that parse and carry one, none for a
      missing file. */
  method ReadPresentIds(log: EvidenceLog) returns (ids: set<string>)
    ensures ids == log.PresentIds()
  {
    ids := {};
    if log.onDisk {
      for i := 0 to |log.lines|
        invariant ids == IdsOf(log.lines[..i])
      {
        var line := log.lines[i];
        IdsOfAppend(log.lines[..i], line);
        assert log.lines[..i + 1] == log.lines[..i] + [line];
        match line {
          case Entry(rec) => ids := ids + {rec.id};
          case IdLess =>
          case Malformed =>
        }
      }
      assert log.lines[..|log.lines|] == log.lines;
    }
  }

  /** The `missing` loop over one category's evidence. */
  method MissingRefs(ev: seq<Ref>, present: set<string>) returns (missing: seq<string>)
    ensures missing == Unverified(ev, present)
  {
    missing := [];
    for i := 0 to |ev|
      invariant missing == Unverified(ev[..i], present)
    {
      assert ev[..i + 1][..i] == ev[..i];
      var r := ev[i].ref;
      if r != "" && r !in present {
        missing := missing + [r];
      }
    }
    assert ev[..|ev|] == ev;
  }

  /** `evidence_gate`, updating the scorecard in place. */
  method Gate(card: Scorecard, log: EvidenceLog, requireEvidence: bool, floor: int)
    modifies card
    ensures !requireEvidence ==> card.categories == old(card.categories) && card.overall == old(card.overall)
    ensures requireEvidence ==> card.categories == GateAll(old(card.categories), log.PresentIds(), floor)
    ensures requireEvidence && |card.categories| > 0 ==>
              card.overall == old(card.overall).(confidence := Mean(Confidences(card.categories)))
    ensures requireEvidence && |card.categories| == 0 ==> card.overall == old(card.overall)
  {
    if !requireEvidence {
      return;
    }
    var present := ReadPresentIds(log);
    ghost var orig := card.categories;
    var i := 0;
    while i < |card.categories|
      invariant 0 <= i <= |card.categories| == |orig|
      invariant forall k :: 0 <= k < i ==> card.categories[k] == GateCategory(orig[k], present, floor)
      invariant forall k :: i <= k < |orig| ==> card.categories[k] == orig[k]
      invariant card.overall == old(card.overall)
    {
      var cat := card.categories[i];
      var missing := MissingRefs(cat.evidence, present);
      if |missing| > 0 {
        cat := cat.(notes := Strip(cat.notes + " " + UnverifiedMarker + ReprList(missing)),
                    confidence := RoundDiv(Max(10 * floor, 6 * cat.confidence), 10));
        card.categories := card.categories[i := cat];
      }
      i := i + 1;
    }
    assert card.categories == GateAll(orig, present, floor);
    if |card.categories| > 0 {
      var conf := MeanOf(Confidences(card.categories));
      card.overall := card.overall.(confidence := conf);
    }
  }
}
