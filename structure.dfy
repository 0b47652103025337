/**
 * The structure extractor (`extractors/structure.py`): indexed files are counted per
 * top-level folder, the folders are ranked by count (Python's stable `sorted`, so ties keep
 * first-seen order), and the first twelve become components, each with one ledger record.
 */
module StructureExtractor {
  import opened Seqs
  import opened Text
  import opened Evidence
  import opened FileIndex

  /** One item of the `top` dict: a top-level folder and how many indexed files it holds. */
  datatype TopEntry = TopEntry(name: string, count: nat)

  datatype Component = Component(name: string, purpose: string, evidenceRef: string)

  /** Edges and flows are placeholders the extractor always leaves empty. */
  datatype Edge = Edge(source: string, target: string)
  datatype Flow = Flow(source: string, target: string)

  datatype StructureSignal = StructureSignal(summary: string, components: seq<Component>, flows: seq<Flow>,
                                             nodes: seq<string>, edges: seq<Edge>)

  const TopLevelId := "EVID-STRUCT-TOPLEVEL"
  const ComponentIdPrefix := "EVID-STRUCT-"
  const MaxComponents := 12
  const StructureSummary := "Repo structure indexed"

  // ----- counting per top-level folder -----

  /** `p.split("/")[0]`. */
  function FirstSegment(p: string): string
    decreases |p|
  {
    if |p| == 0 || p[0] == '/' then "" else [p[0]] + FirstSegment(p[1..])
  }

  /** `len(p.split("/")) > 1`. */
  predicate Nested(p: string) {
    '/' in p
  }

  /** The first segments of the nested paths, in order: what the counting loop counts. */
  function Segments(paths: seq<string>): seq<string>
    decreases |paths|
  {
    if |paths| == 0 then []
    else
      var p := paths[|paths| - 1];
      Segments(paths[..|paths| - 1]) + (if Nested(p) then [FirstSegment(p)] else [])
  }

  function Names(top: seq<TopEntry>): seq<string>
    decreases |top|
  {
    if |top| == 0 then [] else [top[0].name] + Names(top[1..])
  }

  /** `top.get(name, 0)`. */
  function CountOf(top: seq<TopEntry>, name: string): nat
    decreases |top|
  {
    if |top| == 0 then 0 else if top[0].name == name then top[0].count else CountOf(top[1..], name)
  }

  function SumCounts(top: seq<TopEntry>): nat
    decreases |top|
  {
    if |top| == 0 then 0 else top[0].count + SumCounts(top[1..])
  }

  /** `top[name] = top.get(name, 0) + 1` on a dict kept in insertion order. */
  function AddOne(top: seq<TopEntry>, name: string): seq<TopEntry>
    decreases |top|
  {
    if |top| == 0 then [TopEntry(name, 1)]
    else if top[0].name == name then [TopEntry(name, top[0].count + 1)] + top[1..]
    else [top[0]] + AddOne(top[1..], name)
  }

  /** The `top` dict after the counting loop has seen `paths`. */
  function TopLevelCounts(paths: seq<string>): seq<TopEntry>
    decreases |paths|
  {
    if |paths| == 0 then []
    else
      var top := TopLevelCounts(paths[..|paths| - 1]);
      var p := paths[|paths| - 1];
      if Nested(p) then AddOne(top, FirstSegment(p)) else top
  }

  lemma {:induction false} AddOneNames(top: seq<TopEntry>, name: string)
    ensures Names(AddOne(top, name)) == if name in Names(top) then Names(top) else Names(top) + [name]
    decreases |top|
  {
    if |top| > 0 && top[0].name != name {
      AddOneNames(top[1..], name);
      assert Names(top) == [top[0].name] + Names(top[1..]);
    }
  }

  lemma {:induction false} AddOneCount(top: seq<TopEntry>, name: string, other: string)
    ensures CountOf(AddOne(top, name), other) == CountOf(top, other) + (if other == name then 1 else 0)
    decreases |top|
  {
    if |top| > 0 && top[0].name != name {
      AddOneCount(top[1..], name, other);
    }
  }

  lemma {:induction false} AddOneSum(top: seq<TopEntry>, name: string)
    ensures SumCounts(AddOne(top, name)) == SumCounts(top) + 1
    decreases |top|
  {
    if |top| > 0 && top[0].name == name {
      assert ([TopEntry(name, top[0].count + 1)] + top[1..])[1..] == top[1..];
    } else if |top| > 0 {
      AddOneSum(top[1..], name);
      assert ([top[0]] + AddOne(top[1..], name))[1..] == AddOne(top[1..], name);
    }
  }

  /** What the counting loop computes: one entry per top-level folder in first-seen order,
      its count being the number of nested paths under it; root-level files are not counted,
      so the counts add up to at most the number of paths. */
  lemma {:induction false} TopLevelCountsSpec(paths: seq<string>)
    ensures Names(TopLevelCounts(paths)) == Dedup(Segments(paths))
    ensures forall name :: CountOf(TopLevelCounts(paths), name) == multiset(Segments(paths))[name]
    ensures SumCounts(TopLevelCounts(paths)) == |Segments(paths)| <= |paths|
    decreases |paths|
  {
    if |paths| > 0 {
      var prefix := paths[..|paths| - 1];
      var p := paths[|paths| - 1];
      var top := TopLevelCounts(prefix);
      TopLevelCountsSpec(prefix);
      assert Segments(paths) == Segments(prefix) + (if Nested(p) then [FirstSegment(p)] else []);
      if Nested(p) {
        var seg := FirstSegment(p);
        assert TopLevelCounts(paths) == AddOne(top, seg);
        AddOneNames(top, seg);
        DedupSnoc(Segments(prefix), seg);
        forall name ensures CountOf(AddOne(top, seg), name) == multiset(Segments(paths))[name] {
          AddOneCount(top, seg, name);
        }
        AddOneSum(top, seg);
      } else {
        assert TopLevelCounts(paths) == top;
        assert Segments(paths) == Segments(prefix);
      }
    }
  }

  /** With distinct names, each entry's count is what a lookup of its name returns. */
  lemma {:induction false} EntryCount(top: seq<TopEntry>, k: nat)
    requires NoDup(Names(top)) && k < |top|
    ensures top[k].count == CountOf(top, top[k].name)
    decreases |top|
  {
    if k > 0 {
      assert Names(top)[0] == top[0].name;
      NamesIndex(top, k);
      assert top[0].name != top[k].name;
      NamesTail(top);
      EntryCount(top[1..], k - 1);
    }
  }

  lemma {:induction false} NamesIndex(top: seq<TopEntry>, k: nat)
    requires k < |top|
    ensures |Names(top)| == |top| && Names(top)[k] == top[k].name
    decreases |top|
  {
    if k > 0 {
      NamesIndex(top[1..], k - 1);
    } else {
      NamesLength(top);
    }
  }

  lemma {:induction false} NamesLength(top: seq<TopEntry>)
    ensures |Names(top)| == |top|
    decreases |top|
  {
    if |top| > 0 {
      NamesLength(top[1..]);
    }
  }

  lemma NamesTail(top: seq<TopEntry>)
    requires |top| > 0 && NoDup(Names(top))
    ensures NoDup(Names(top[1..]))
  {
    var n, t := Names(top), Names(top[1..]);
    assert n == [top[0].name] + t;
    forall i, j | 0 <= i < j < |t| ensures t[i] != t[j] {
      assert t[i] == n[i + 1] && t[j] == n[j + 1];
    }
  }

  // ----- `sorted(top.items(), key=lambda x: -x[1])` -----

  /** Inserts `x` after every entry whose count is at least its own. */
  function InsertByCount(r: seq<TopEntry>, x: TopEntry): seq<TopEntry>
    decreases |r|
  {
    if |r| == 0 then [x]
    else if r[0].count < x.count then [x] + r
    else [r[0]] + InsertByCount(r[1..], x)
  }

  /** A stable sort by descending count. */
  function SortByCount(s: seq<TopEntry>): seq<TopEntry>
    decreases |s|
  {
    if |s| == 0 then [] else InsertByCount(SortByCount(s[..|s| - 1]), s[|s| - 1])
  }

  predicate NonIncreasing(r: seq<TopEntry>) {
    forall i, j :: 0 <= i < j < |r| ==> r[i].count >= r[j].count
  }

  /** Entries with equal counts appear in the order in which they first occur in `s`. */
  predicate StableFor(r: seq<TopEntry>, s: seq<TopEntry>) {
    forall i, j :: 0 <= i < j < |r| && r[i] in s && r[j] in s && r[i].count == r[j].count ==>
      FirstIndex(s, r[i]) < FirstIndex(s, r[j])
  }

  /** The number of leading entries whose count is at least `c`. */
  function InsertAt(r: seq<TopEntry>, c: nat): nat
    decreases |r|
  {
    if |r| == 0 || r[0].count < c then 0 else 1 + InsertAt(r[1..], c)
  }

  lemma {:induction false} InsertShape(r: seq<TopEntry>, x: TopEntry)
    ensures InsertAt(r, x.count) <= |r|
    ensures InsertByCount(r, x) == r[..InsertAt(r, x.count)] + [x] + r[InsertAt(r, x.count)..]
    ensures forall j :: 0 <= j < InsertAt(r, x.count) ==> r[j].count >= x.count
    ensures InsertAt(r, x.count) < |r| ==> r[InsertAt(r, x.count)].count < x.count
    decreases |r|
  {
    if |r| > 0 && r[0].count >= x.count {
      InsertShape(r[1..], x);
      var k := InsertAt(r[1..], x.count);
      assert r[..k + 1] == [r[0]] + r[1..][..k];
      assert r[k + 1..] == r[1..][k..];
    }
  }

  lemma {:induction false} SumSnoc(s: seq<TopEntry>, x: TopEntry)
    ensures SumCounts(s + [x]) == SumCounts(s) + x.count
    decreases |s|
  {
    if |s| > 0 {
      SumSnoc(s[1..], x);
      assert (s + [x])[1..] == s[1..] + [x];
    }
  }

  lemma {:induction false} InsertSum(r: seq<TopEntry>, x: TopEntry)
    ensures SumCounts(InsertByCount(r, x)) == SumCounts(r) + x.count
    decreases |r|
  {
    if |r| > 0 && r[0].count >= x.count {
      InsertSum(r[1..], x);
      assert ([r[0]] + InsertByCount(r[1..], x))[1..] == InsertByCount(r[1..], x);
    } else if |r| > 0 {
      assert ([x] + r)[1..] == r;
    }
  }

  lemma {:induction false} SortSum(s: seq<TopEntry>)
    ensures SumCounts(SortByCount(s)) == SumCounts(s)
    decreases |s|
  {
    if |s| > 0 {
      SortSum(s[..|s| - 1]);
      InsertSum(SortByCount(s[..|s| - 1]), s[|s| - 1]);
      SumSnoc(s[..|s| - 1], s[|s| - 1]);
      assert s[..|s| - 1] + [s[|s| - 1]] == s;
    }
  }

  /** Where each entry of `InsertByCount(r, x)` comes from. */
  lemma InsertPositions(r: seq<TopEntry>, x: TopEntry)
    ensures var k := InsertAt(r, x.count);
            var q := InsertByCount(r, x);
            && k <= |r| && |q| == |r| + 1 && q[k] == x
            && (forall i :: 0 <= i < k ==> q[i] == r[i] && r[i].count >= x.count)
            && (forall i :: k < i < |q| ==> q[i] == r[i - 1])
            && (NonIncreasing(r) ==> forall j :: k <= j < |r| ==> r[j].count < x.count)
  {
    InsertShape(r, x);
    var k := InsertAt(r, x.count);
    if NonIncreasing(r) && k < |r| {
      assert forall j :: k <= j < |r| ==> r[j].count <= r[k].count;
    }
  }

  lemma InsertNonIncreasing(r: seq<TopEntry>, x: TopEntry)
    requires NonIncreasing(r)
    ensures NonIncreasing(InsertByCount(r, x))
  {
    var k := InsertAt(r, x.count);
    var q := InsertByCount(r, x);
    InsertPositions(r, x);
    forall i, j | 0 <= i < j < |q| ensures q[i].count >= q[j].count {
      if i != k && j != k {
        var i', j' := if i < k then i else i - 1, if j < k then j else j - 1;
        assert q[i] == r[i'] && q[j] == r[j'];
      }
    }
  }

  /** In `p + [x]` without repeats, `x` comes last and earlier members keep their positions. */
  lemma LastFirstIndex(p: seq<TopEntry>, x: TopEntry)
    requires NoDup(p + [x])
    ensures x !in p
    ensures FirstIndex(p + [x], x) == |p|
    ensures forall y :: y in p ==> FirstIndex(p + [x], y) == FirstIndex(p, y) < |p|
  {
    var s := p + [x];
    assert forall i :: 0 <= i < |p| ==> s[i] == p[i];
    assert s[|p|] == x;
    forall y | y in p ensures FirstIndex(s, y) == FirstIndex(p, y) {
      var b := FirstIndex(p, y);
      assert s[b] == y;
    }
  }

  /** Inserting the last input entry keeps ties in input order. */
  lemma InsertStable(r: seq<TopEntry>, p: seq<TopEntry>, x: TopEntry)
    requires NonIncreasing(r) && StableFor(r, p)
    requires forall y :: y in r ==> y in p
    requires NoDup(p + [x])
    ensures StableFor(InsertByCount(r, x), p + [x])
  {
    var s := p + [x];
    var k := InsertAt(r, x.count);
    var q := InsertByCount(r, x);
    InsertPositions(r, x);
    LastFirstIndex(p, x);
    assert forall j :: k < j < |q| ==> q[j].count < x.count;
    forall i, j | 0 <= i < j < |q| && q[i] in s && q[j] in s && q[i].count == q[j].count
      ensures FirstIndex(s, q[i]) < FirstIndex(s, q[j])
    {
      if i != k && j != k {
        var i', j' := if i < k then i else i - 1, if j < k then j else j - 1;
        assert q[i] == r[i'] && q[j] == r[j'];
        assert r[i'] in p && r[j'] in p;
      } else if j == k {
        assert q[i] == r[i] && r[i] in p;
      }
    }
  }

  lemma {:induction false} InsertMultiset(r: seq<TopEntry>, x: TopEntry)
    ensures multiset(InsertByCount(r, x)) == multiset(r) + multiset{x}
    decreases |r|
  {
    if |r| > 0 && r[0].count >= x.count {
      InsertMultiset(r[1..], x);
      assert r == [r[0]] + r[1..];
    }
  }

  /** The ranking is Python's stable sort by descending count: a permutation, counts never
      increase along it, and equal counts keep the order of the input. */
  lemma {:induction false} SortByCountSpec(s: seq<TopEntry>)
    requires NoDup(s)
    ensures multiset(SortByCount(s)) == multiset(s)
    ensures forall y :: y in SortByCount(s) <==> y in s
    ensures NonIncreasing(SortByCount(s))
    ensures StableFor(SortByCount(s), s)
    decreases |s|
  {
    if |s| > 0 {
      var p := s[..|s| - 1];
      var x := s[|s| - 1];
      assert s == p + [x];
      assert NoDup(p) by {
        assert forall i :: 0 <= i < |p| ==> p[i] == s[i];
      }
      SortByCountSpec(p);
      var r := SortByCount(p);
      InsertMultiset(r, x);
      assert forall y :: y in r ==> y in p by {
        forall y | y in r ensures y in p {
          assert y in multiset(r);
        }
      }
      InsertNonIncreasing(r, x);
      InsertStable(r, p, x);
      forall y ensures y in SortByCount(s) <==> y in s {
        assert y in SortByCount(s) <==> y in multiset(SortByCount(s));
        assert y in s <==> y in multiset(s);
      }
    }
  }

  // ----- the ranked components -----

  /** The twelve (or fewer) ranked folders that become components. */
  function Ranked(files: seq<FileEntry>): seq<TopEntry> {
    Take(SortByCount(TopLevelCounts(PathList(files))), MaxComponents)
  }

  function ComponentId(name: string): string {
    ComponentIdPrefix + Take(Upper(name), 16)
  }

  function ComponentOf(e: TopEntry): Component {
    Component(e.name, "Inferred component boundary (" + NatToString(e.count) + " files scanned)", ComponentId(e.name))
  }

  function Components(ranked: seq<TopEntry>): seq<Component>
    decreases |ranked|
  {
    if |ranked| == 0 then [] else Components(ranked[..|ranked| - 1]) + [ComponentOf(ranked[|ranked| - 1])]
  }

  /** The record written for each component: all of them carry the same id. */
  function TopLevelRecord(name: string): Record {
    Record(TopLevelId, Code, "Top-level repository structure inferred from folder distribution",
           [Ref(FileLines, name + "/:L1-L1")])
  }

  function TopLevelLines(ranked: seq<TopEntry>): seq<LogLine>
    decreases |ranked|
  {
    if |ranked| == 0 then []
    else TopLevelLines(ranked[..|ranked| - 1]) + [Entry(TopLevelRecord(ranked[|ranked| - 1].name))]
  }

  /** `[c["name"] for c in components]`, the graph's node ids. */
  function NodeIds(components: seq<Component>): seq<string> {
    seq(|components|, k requires 0 <= k < |components| => components[k].name)
  }

  lemma {:induction false} ComponentsNames(ranked: seq<TopEntry>)
    ensures NodeIds(Components(ranked)) == Names(ranked)
    decreases |ranked|
  {
    if |ranked| > 0 {
      var prefix := ranked[..|ranked| - 1];
      ComponentsNames(prefix);
      NamesSnoc(prefix, ranked[|ranked| - 1]);
      assert prefix + [ranked[|ranked| - 1]] == ranked;
      ComponentsLength(prefix);
      var c := Components(ranked);
      assert forall k :: 0 <= k < |prefix| ==> c[k] == Components(prefix)[k];
    }
  }

  lemma {:induction false} ComponentsLength(ranked: seq<TopEntry>)
    ensures |Components(ranked)| == |ranked|
    decreases |ranked|
  {
    if |ranked| > 0 {
      ComponentsLength(ranked[..|ranked| - 1]);
    }
  }

  lemma NamesDistinct(top: seq<TopEntry>)
    requires NoDup(Names(top))
    ensures NoDup(top)
  {
    NamesLength(top);
    forall i, j | 0 <= i < j < |top| ensures top[i] != top[j] {
      NamesIndex(top, i);
      NamesIndex(top, j);
    }
  }

  lemma {:induction false} SumTake(r: seq<TopEntry>, n: nat)
    ensures SumCounts(Take(r, n)) <= SumCounts(r)
    decreases |r|
  {
    if |r| > n && n > 0 {
      SumTake(r[1..], n - 1);
      assert r[..n][1..] == r[1..][..n - 1];
    }
  }

  /** The ranked folders: at most twelve, counts never increasing along the list, ties in
      first-seen folder order, no folder twice, each one an entry of the `top` dict. */
  lemma RankedOrder(files: seq<FileEntry>)
    ensures var ranked := Ranked(files);
            var top := TopLevelCounts(PathList(files));
            && |ranked| <= MaxComponents
            && NonIncreasing(ranked)
            && StableFor(ranked, top)
            && NoDup(ranked)
            && (forall e :: e in ranked ==> e in top)
  {
    var paths := PathList(files);
    var top := TopLevelCounts(paths);
    TopLevelCountsSpec(paths);
    DedupSpec(Segments(paths));
    NamesDistinct(top);
    SortByCountSpec(top);
    var sorted := SortByCount(top);
    var ranked := Ranked(files);
    TakeSpec(sorted, MaxComponents);
    assert forall e :: e in ranked ==> e in sorted;
  }

  /** Each component is a top-level folder of a nested indexed path, and its count is the
      number of nested indexed paths under that folder. */
  lemma RankedCounts(files: seq<FileEntry>)
    ensures forall e :: e in Ranked(files) ==>
              e.name in Segments(PathList(files)) && e.count == multiset(Segments(PathList(files)))[e.name]
  {
    var paths := PathList(files);
    var top := TopLevelCounts(paths);
    RankedOrder(files);
    TopLevelCountsSpec(paths);
    DedupSpec(Segments(paths));
    forall e | e in Ranked(files)
      ensures e.name in Segments(paths) && e.count == multiset(Segments(paths))[e.name]
    {
      var k :| 0 <= k < |top| && top[k] == e;
      EntryCount(top, k);
      NamesIndex(top, k);
      assert e.name in Dedup(Segments(paths));
    }
  }

  /** The component counts add up to at most the number of indexed files. */
  lemma RankedSum(files: seq<FileEntry>)
    ensures SumCounts(Ranked(files)) <= |files|
  {
    var paths := PathList(files);
    var top := TopLevelCounts(paths);
    TopLevelCountsSpec(paths);
    SumTake(SortByCount(top), MaxComponents);
    SortSum(top);
  }

  lemma {:induction false} SegmentsNonEmpty(paths: seq<string>)
    ensures |Segments(paths)| > 0 <==> exists i :: 0 <= i < |paths| && Nested(paths[i])
    decreases |paths|
  {
    if |paths| > 0 {
      var prefix := paths[..|paths| - 1];
      SegmentsNonEmpty(prefix);
      assert forall i :: 0 <= i < |prefix| ==> prefix[i] == paths[i];
    }
  }

  /** There is at least one component exactly when some indexed path lies in a folder. */
  lemma RankedNonEmptyIff(files: seq<FileEntry>)
    ensures |Ranked(files)| > 0 <==> exists i :: 0 <= i < |files| && Nested(files[i].path)
  {
    var paths := PathList(files);
    var top := TopLevelCounts(paths);
    var segs := Segments(paths);
    TopLevelCountsSpec(paths);
    DedupSpec(segs);
    NamesLength(top);
    NamesDistinct(top);
    SortByCountSpec(top);
    assert |SortByCount(top)| == |multiset(SortByCount(top))| == |top|;
    assert |segs| > 0 ==> segs[0] in Dedup(segs);
    assert |Dedup(segs)| > 0 ==> Dedup(segs)[0] in segs;
    SegmentsNonEmpty(paths);
    assert forall i :: 0 <= i < |files| ==> paths[i] == files[i].path;
  }

  /** A component's id is written to the ledger only for a folder whose upper-cased name
      starts with "TOPLEVEL" and has at most 16 characters ("toplevel", say): every other
      component cites an id that no record carries. */
  lemma ComponentIdWritten(name: string)
    ensures ComponentId(name) == TopLevelId <==> Take(Upper(name), 16) == "TOPLEVEL"
  {
    var t := Take(Upper(name), 16);
    assert TopLevelId == ComponentIdPrefix + "TOPLEVEL";
    if ComponentId(name) == TopLevelId {
      assert t == (ComponentIdPrefix + t)[|ComponentIdPrefix|..];
    }
  }

  /** The counting loop of `extract_structure`. */
  method CountTopLevel(files: seq<FileEntry>) returns (top: seq<TopEntry>)
    ensures top == TopLevelCounts(PathList(files))
  {
    var paths := PathList(files);
    top := [];
    for i := 0 to |files|
      invariant top == TopLevelCounts(paths[..i])
    {
      var p := files[i].path;
      assert paths[..i + 1] == paths[..i] + [p];
      if Nested(p) {
        top := AddOne(top, FirstSegment(p));
      }
    }
    assert paths[..|files|] == paths;
  }

  /** The component loop of `extract_structure`: one component and one ledger record per
      ranked folder. */
  method EmitComponents(ranked: seq<TopEntry>, log: EvidenceLog) returns (components: seq<Component>)
    requires log.Valid()
    modifies log
    ensures log.Valid()
    ensures components == Components(ranked)
    ensures log.lines == old(log.lines) + TopLevelLines(ranked)
    ensures log.PresentIds() == old(log.PresentIds()) + (if |ranked| > 0 then {TopLevelId} else {})
  {
    components := [];
    for i := 0 to |ranked|
      invariant log.Valid()
      invariant components == Components(ranked[..i])
      invariant log.lines == old(log.lines) + TopLevelLines(ranked[..i])
      invariant log.PresentIds() == old(log.PresentIds()) + (if i > 0 then {TopLevelId} else {})
    {
      var e := ranked[i];
      assert ranked[..i + 1][..i] == ranked[..i] && ranked[..i + 1][i] == e;
      log.Append(TopLevelRecord(e.name));
      components := components + [ComponentOf(e)];
    }
    assert ranked[..|ranked|] == ranked;
  }

  /** `extract_structure`. */
  method ExtractStructure(index: Index, log: EvidenceLog) returns (signal: StructureSignal)
    requires log.Valid()
    modifies log
    ensures log.Valid()
    ensures signal.components == Components(Ranked(index.files))
    ensures log.lines == old(log.lines) + TopLevelLines(Ranked(index.files))
    ensures log.PresentIds() == old(log.PresentIds()) + (if |Ranked(index.files)| > 0 then {TopLevelId} else {})
    ensures signal.nodes == Names(Ranked(index.files))
    ensures signal.summary == StructureSummary && signal.edges == [] && signal.flows == []
  {
    var top := CountTopLevel(index.files);
    var ranked := Take(SortByCount(top), MaxComponents);
    var components := EmitComponents(ranked, log);
    ComponentsNames(ranked);
    signal := StructureSignal(StructureSummary, components, [], NodeIds(components), []);
  }

  lemma {:induction false} NamesSnoc(top: seq<TopEntry>, e: TopEntry)
    ensures Names(top + [e]) == Names(top) + [e.name]
    decreases |top|
  {
    if |top| > 0 {
      NamesSnoc(top[1..], e);
      assert (top + [e])[1..] == top[1..] + [e];
    }
  }
}
