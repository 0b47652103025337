/**
 * The file index (`ingest/index.py`): the size- and count-bounded selection of repository
 * files and the rough extension-to-language table.  Directory traversal, `stat` sizes and
 * the gitwildmatch include/exclude rules are inputs: the traversal is the candidate list in
 * `rglob` order, and the two rule sets are arbitrary predicates on relative paths.
 */
module FileIndex {
  import opened Wrappers
  import opened Seqs
  import opened Text
  import opened LexOrder

  datatype FileEntry = FileEntry(path: string, size: nat)

  datatype Index = Index(files: seq<FileEntry>, languages: seq<string>)

  /** `{e.path for e in index.files}`. */
  function Paths(index: Index): set<string> {
    set i | 0 <= i < |index.files| :: index.files[i].path
  }

  function PathList(files: seq<FileEntry>): seq<string> {
    seq(|files|, i requires 0 <= i < |files| => files[i].path)
  }

  // ----- `_detect_languages` -----

  /** `p.rsplit(".", 1)[-1].lower()` for a path that contains a dot. */
  function Extension(p: string): Option<string> {
    match SplitLast(p, '.')
    case None => None
    case Some(parts) => Some(Lower(parts.1))
  }

  const LanguageMap: map<string, string> := map[
    "go" := "Go", "py" := "Python", "ts" := "TypeScript", "js" := "JavaScript",
    "rs" := "Rust", "java" := "Java", "tf" := "Terraform", "yaml" := "YAML",
    "yml" := "YAML", "sql" := "SQL"]

  const MaxLanguages := 6

  /** The languages whose extension some path has. */
  function LanguagesOf(paths: seq<string>): set<string> {
    set i | 0 <= i < |paths| && Extension(paths[i]).Some? && Extension(paths[i]).value in LanguageMap
      :: LanguageMap[Extension(paths[i]).value]
  }

  /** Every detected language is a value of the table. */
  lemma LanguagesOfInTable(paths: seq<string>)
    ensures LanguagesOf(paths) <= LanguageMap.Values
  {
    forall l | l in LanguagesOf(paths) ensures l in LanguageMap.Values {
      var i :| 0 <= i < |paths| && Extension(paths[i]).Some? && Extension(paths[i]).value in LanguageMap
        && LanguageMap[Extension(paths[i]).value] == l;
    }
  }

  /** The extensions some path has. */
  ghost predicate ExtensionsOf(exts: set<string>, paths: seq<string>) {
    forall e :: e in exts <==> exists k :: 0 <= k < |paths| && Extension(paths[k]) == Some(e)
  }

  /** The extension-collecting loop of `_detect_languages`. */
  method CollectExtensions(paths: seq<string>) returns (exts: set<string>)
    ensures ExtensionsOf(exts, paths)
  {
    exts := {};
    for i := 0 to |paths|
      invariant forall e :: e in exts <==> exists k :: 0 <= k < i && Extension(paths[k]) == Some(e)
    {
      match Extension(paths[i]) {
        case Some(e) => exts := exts + {e};
        case None =>
      }
    }
  }

  /** `{mapping[e] for e in exts if e in mapping}`. */
  function LanguagesFound(exts: set<string>): set<string> {
    set e | e in exts && e in LanguageMap :: LanguageMap[e]
  }

  /** Looking the collected extensions up in the table finds exactly the languages of the paths. */
  lemma LanguagesOfExtensions(exts: set<string>, paths: seq<string>)
    requires ExtensionsOf(exts, paths)
    ensures forall l :: l in LanguagesFound(exts) <==> l in LanguagesOf(paths)
  {
    var found := LanguagesFound(exts);
    forall l ensures l in found <==> l in LanguagesOf(paths) {
      if l in found {
        var e :| e in exts && e in LanguageMap && LanguageMap[e] == l;
        var k :| 0 <= k < |paths| && Extension(paths[k]) == Some(e);
      }
      if l in LanguagesOf(paths) {
        var k :| 0 <= k < |paths| && Extension(paths[k]).Some? && Extension(paths[k]).value in LanguageMap
          && LanguageMap[Extension(paths[k]).value] == l;
        assert Extension(paths[k]).value in exts;
      }
    }
  }

  /** `_detect_languages`: the first six, in sorted order, of the distinct languages found. */
  method DetectLanguages(paths: seq<string>) returns (langs: seq<string>)
    ensures StrictlySorted(langs)
    ensures |langs| <= MaxLanguages
    ensures forall l :: l in langs ==> l in LanguagesOf(paths)
    ensures forall l :: l in LanguagesOf(paths) && l !in langs ==>
              |langs| == MaxLanguages && forall x :: x in langs ==> Less(x, l)
  {
    var exts := CollectExtensions(paths);
    var found := LanguagesFound(exts);
    LanguagesOfExtensions(exts, paths);
    var sorted := SortSet(found);
    var n := if |sorted| < MaxLanguages then |sorted| else MaxLanguages;
    langs := sorted[..n];
    forall l | l in LanguagesOf(paths) && l !in langs
      ensures |langs| == MaxLanguages && forall x :: x in langs ==> Less(x, l)
    {
      var j :| 0 <= j < |sorted| && sorted[j] == l;
      assert j >= n;
      forall x | x in langs ensures Less(x, l) {
        var k :| 0 <= k < n && langs[k] == x;
      }
    }
  }

  // ----- the selection loop of `build_file_index` -----

  /** One item of the traversal: a relative path, its size, and whether it is a regular file. */
  datatype Candidate = Candidate(path: string, size: nat, isFile: bool)

  predicate Selectable(c: Candidate, includes: string -> bool, excludes: string -> bool, maxBytes: int) {
    c.isFile && !excludes(c.path) && includes(c.path) && c.size <= maxBytes
  }

  /** Every selectable candidate, in traversal order. */
  function Selected(cands: seq<Candidate>, includes: string -> bool, excludes: string -> bool, maxBytes: int)
    : seq<FileEntry>
    decreases |cands|
  {
    if |cands| == 0 then []
    else
      var c := cands[|cands| - 1];
      Selected(cands[..|cands| - 1], includes, excludes, maxBytes)
        + (if Selectable(c, includes, excludes, maxBytes) then [FileEntry(c.path, c.size)] else [])
  }

  /** Every selected entry comes from a candidate that is a file, within the size limit,
      matched by the include rules and not by the exclude rules. */
  lemma {:induction false} SelectedSound(cands: seq<Candidate>, includes: string -> bool, excludes: string -> bool,
                                         maxBytes: int)
    ensures forall e :: e in Selected(cands, includes, excludes, maxBytes) ==>
              e.size <= maxBytes && includes(e.path) && !excludes(e.path)
              && Candidate(e.path, e.size, true) in cands
    decreases |cands|
  {
    if |cands| > 0 {
      var p := cands[..|cands| - 1];
      SelectedSound(p, includes, excludes, maxBytes);
      assert forall c :: c in p ==> c in cands;
    }
  }

  /** Selecting from a longer traversal only adds entries at the end. */
  lemma {:induction false} SelectedPrefix(cands: seq<Candidate>, k: nat, includes: string -> bool,
                                          excludes: string -> bool, maxBytes: int)
    requires k <= |cands|
    ensures var all := Selected(cands, includes, excludes, maxBytes);
            var part := Selected(cands[..k], includes, excludes, maxBytes);
            |part| <= |all| && all[..|part|] == part
    decreases |cands|
  {
    if k < |cands| {
      var p := cands[..|cands| - 1];
      SelectedPrefix(p, k, includes, excludes, maxBytes);
      assert p[..k] == cands[..k];
    } else {
      assert cands[..k] == cands;
    }
  }

  /** The count limit as the loop applies it: the test runs after an append, so at least
      one entry is kept whatever `max_files` is. */
  function Limit(maxFiles: int): nat {
    if maxFiles < 1 then 1 else maxFiles
  }

  /** `build_file_index`: the first `max(max_files, 1)` selectable candidates in traversal
      order, and the languages of exactly those files. */
  method BuildFileIndex(cands: seq<Candidate>, includes: string -> bool, excludes: string -> bool,
                        maxFiles: int, maxBytes: int) returns (index: Index)
    ensures index.files == Take(Selected(cands, includes, excludes, maxBytes), Limit(maxFiles))
    ensures |index.files| <= Limit(maxFiles)
    ensures StrictlySorted(index.languages) && |index.languages| <= MaxLanguages
    ensures forall l :: l in index.languages ==> l in LanguagesOf(PathList(index.files))
    ensures forall l :: l in LanguagesOf(PathList(index.files)) && l !in index.languages ==>
              |index.languages| == MaxLanguages && forall x :: x in index.languages ==> Less(x, l)
  {
    var entries: seq<FileEntry> := [];
    var i := 0;
    while i < |cands|
      invariant 0 <= i <= |cands|
      invariant entries == Selected(cands[..i], includes, excludes, maxBytes)
      invariant |entries| < Limit(maxFiles)
    {
      var c := cands[i];
      assert cands[..i + 1][..i] == cands[..i] && cands[..i + 1][i] == c;
      if c.isFile && !excludes(c.path) && includes(c.path) && c.size <= maxBytes {
        entries := entries + [FileEntry(c.path, c.size)];
        if |entries| >= maxFiles {
          SelectedPrefix(cands, i + 1, includes, excludes, maxBytes);
          break;
        }
      }
      i := i + 1;
    }
    if i == |cands| {
      assert cands[..i] == cands;
    }
    var langs := DetectLanguages(PathList(entries));
    index := Index(entries, langs);
  }
}
