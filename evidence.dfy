/**
 * The evidence ledger: an append-only log (`evidence.jsonl`), one record per line.
 * Writing is `write_evidence_jsonl`; reading back (in the gate) keeps the ids of the
 * lines that parse as an object carrying an `id` and skips every other line.
 * JSON itself is abstracted: a line is a parsed record, an object without an id,
 * or text that does not parse.
 */
module Evidence {
  import opened Wrappers
  import opened Text

  /** The `type` of a reference. */
  datatype RefType = FileLines | Snippet | EvidenceIdRef

  datatype Ref = Ref(refType: RefType, ref: string)

  /** The `kind` an extractor writes. */
  datatype Kind = Ci | Doc | Infra | Observability | Security | Code

  datatype Record = Record(id: string, kind: Kind, summary: string, refs: seq<Ref>)

  /** One line of the log as the reader sees it: a record whose `id` is a string,
      a line that parses but has no (string) `id`, or a line that does not parse. */
  datatype LogLine = Entry(rec: Record) | IdLess | Malformed

  /** The ids carried by the parsed lines of a log. */
  function IdsOf(lines: seq<LogLine>): set<string> {
    set k | 0 <= k < |lines| && lines[k].Entry? :: lines[k].rec.id
  }

  /** Appending a line adds its id if it carries one, and otherwise nothing: malformed
      and id-less lines are skipped, and no id read back before is lost. */
  lemma IdsOfAppend(lines: seq<LogLine>, line: LogLine)
    ensures IdsOf(lines + [line]) == IdsOf(lines) + (if line.Entry? then {line.rec.id} else {})
  {
    var s := lines + [line];
    assert forall k :: 0 <= k < |lines| ==> s[k] == lines[k];
    if line.Entry? {
      assert s[|lines|].rec.id == line.rec.id;
    }
  }

  /** The log file: whether it exists yet, and its lines in write order. */
  class EvidenceLog {
    var onDisk: bool
    var lines: seq<LogLine>

    ghost predicate Valid()
      reads this
    {
      !onDisk ==> lines == []
    }

    /** A run's log before any extractor wrote to it: there is no file yet. */
    constructor ()
      ensures Valid() && !onDisk && lines == []
    {
      onDisk := false;
      lines := [];
    }

    /** A log file that already exists, possibly holding lines that do not parse. */
    constructor Existing(existing: seq<LogLine>)
      ensures Valid() && onDisk && lines == existing
    {
      onDisk := true;
      lines := existing;
    }

    /** The ids a reader finds: none when there is no file. */
    function PresentIds(): set<string>
      reads this
    {
      if onDisk then IdsOf(lines) else {}
    }

    /** `write_evidence_jsonl`: creates the file if needed and adds one line at the end.
        Earlier lines are untouched, so a repeated id leaves both records in the log. */
    method Append(rec: Record)
      requires Valid()
      modifies this
      ensures Valid() && onDisk
      ensures lines == old(lines) + [Entry(rec)]
      ensures PresentIds() == old(PresentIds()) + {rec.id}
    {
      IdsOfAppend(lines, Entry(rec));
      onDisk := true;
      lines := lines + [Entry(rec)];
    }

    /** `if hits: write_evidence_jsonl(...)` with a record citing the first hit. */
    method AppendIfHit(id: string, kind: Kind, summary: string, hits: seq<string>)
      requires Valid()
      modifies this
      ensures Valid()
      ensures lines == old(lines) + CiteFirstHit(id, kind, summary, hits)
      ensures PresentIds() == old(PresentIds()) + IdIfHit(id, hits)
    {
      if |hits| > 0 {
        Append(HitRecord(id, kind, summary, hits[0]));
      }
    }
  }

  /** A record citing lines 1 to 80 of `p` in the `f"{p}:L1-L80"` form. */
  function HitRecord(id: string, kind: Kind, summary: string, p: string): Record {
    Record(id, kind, summary, [Ref(FileLines, p + ":L1-L80")])
  }

  /** The record an extractor writes for a non-empty hit list, citing its first member;
      nothing for an empty one. */
  function CiteFirstHit(id: string, kind: Kind, summary: string, hits: seq<string>): seq<LogLine> {
    if |hits| == 0 then [] else [Entry(HitRecord(id, kind, summary, hits[0]))]
  }

  /** The id `CiteFirstHit` contributes. */
  function IdIfHit(id: string, hits: seq<string>): set<string> {
    if |hits| == 0 then {} else {id}
  }

  /** `make_file_lines_ref`: "path:Lstart-Lend". */
  function MakeFileLinesRef(path: string, start: nat, end: nat): string {
    path + ":L" + NatToString(start) + "-L" + NatToString(end)
  }

  /** "L" followed by at least one decimal digit. */
  predicate IsLineMark(s: string) {
    |s| >= 2 && s[0] == 'L' && AllDigits(s[1..])
  }

  /** Reads a reference made by `MakeFileLinesRef` back into its parts. */
  function ParseFileLinesRef(r: string): Option<(string, nat, nat)> {
    match SplitLast(r, '-')
    case None => None
    case Some(dash) =>
      if !IsLineMark(dash.1) then None
      else
        match SplitLast(dash.0, ':')
        case None => None
        case Some(colon) =>
          if !IsLineMark(colon.1) then None
          else Some((colon.0, ParseNat(colon.1[1..]), ParseNat(dash.1[1..])))
  }

  lemma LineMarkParts(n: nat)
    ensures IsLineMark("L" + NatToString(n))
    ensures ("L" + NatToString(n))[1..] == NatToString(n)
    ensures '-' !in "L" + NatToString(n) && ':' !in "L" + NatToString(n)
  {
    var d := NatToString(n);
    assert ("L" + d)[1..] == d;
    assert forall k :: 0 <= k < |d| ==> ("L" + d)[k + 1] == d[k];
  }

  /** A file-lines reference determines its path and line range, whatever the path holds. */
  lemma ParseMakeFileLinesRef(path: string, start: nat, end: nat)
    ensures ParseFileLinesRef(MakeFileLinesRef(path, start, end)) == Some((path, start, end))
  {
    var ds, de := NatToString(start), NatToString(end);
    LineMarkParts(start);
    LineMarkParts(end);
    var before := path + [':'] + ("L" + ds);
    assert MakeFileLinesRef(path, start, end) == before + ['-'] + ("L" + de);
    SplitLastAt(before, "L" + de, '-');
    SplitLastAt(path, "L" + ds, ':');
    assert ("L" + ds)[1..] == ds && ("L" + de)[1..] == de;
    ParseNatToString(start);
    ParseNatToString(end);
  }
}
