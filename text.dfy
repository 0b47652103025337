/**
 * String operations the extractors, the scorer and the gate rely on, with the facts
 * about them that the rest of the model uses.  Python's `in`, `startswith`, `endswith`,
 * `lower`, `upper`, `strip`, `str(int)`, `", ".join` and `repr(list_of_str)` are modelled
 * here on `seq<char>`; case mapping and whitespace are the ASCII ones.
 */
module Text {
  import opened Wrappers

  predicate StartsWith(s: string, prefix: string) {
    |prefix| <= |s| && s[..|prefix|] == prefix
  }

  predicate EndsWith(s: string, suffix: string) {
    |suffix| <= |s| && s[|s| - |suffix|..] == suffix
  }

  /** Python's `sub in s` for strings. */
  predicate Contains(s: string, sub: string)
    decreases |s|
  {
    StartsWith(s, sub) || (|s| > 0 && Contains(s[1..], sub))
  }

  /** A string containing a non-empty `sub` contains its first character:
      the usual way to show that a fixed text does NOT contain a word. */
  lemma {:induction false} ContainsFirstChar(s: string, sub: string)
    requires |sub| > 0 && Contains(s, sub)
    ensures sub[0] in s
    decreases |s|
  {
    if StartsWith(s, sub) {
      assert s[0] == sub[0];
    } else {
      ContainsFirstChar(s[1..], sub);
      assert s == [s[0]] + s[1..];
    }
  }

  /** A string containing `sub` contains every character of `sub`. */
  lemma {:induction false} ContainsCharOf(s: string, sub: string, c: char)
    requires c in sub && Contains(s, sub)
    ensures c in s
    decreases |s|
  {
    if StartsWith(s, sub) {
      var k :| 0 <= k < |sub| && sub[k] == c;
      assert s[k] == c;
    } else {
      ContainsCharOf(s[1..], sub, c);
      assert s == [s[0]] + s[1..];
    }
  }

  lemma {:induction false} ContainsIn(p: string, sub: string, q: string)
    ensures Contains(p + sub + q, sub)
    decreases |p|
  {
    if p == [] {
      assert p + sub + q == sub + q;
      assert (sub + q)[..|sub|] == sub;
    } else {
      ContainsIn(p[1..], sub, q);
      assert (p + sub + q)[1..] == p[1..] + sub + q;
    }
  }

  lemma {:induction false} ContainsExtendLeft(a: string, s: string, sub: string)
    requires Contains(s, sub)
    ensures Contains(a + s, sub)
    decreases |a|
  {
    if a == [] {
      assert a + s == s;
    } else {
      ContainsExtendLeft(a[1..], s, sub);
      assert (a + s)[1..] == a[1..] + s;
    }
  }

  lemma {:induction false} ContainsExtendRight(s: string, b: string, sub: string)
    requires Contains(s, sub)
    ensures Contains(s + b, sub)
    decreases |s|
  {
    if StartsWith(s, sub) {
      assert (s + b)[..|sub|] == s[..|sub|];
    } else {
      ContainsExtendRight(s[1..], b, sub);
      assert (s + b)[1..] == s[1..] + b;
    }
  }

  lemma ContainsExtend(a: string, s: string, b: string, sub: string)
    requires Contains(s, sub)
    ensures Contains(a + s + b, sub)
  {
    ContainsExtendRight(s, b, sub);
    ContainsExtendLeft(a, s + b, sub);
    assert a + (s + b) == a + s + b;
  }

  // ----- `s.rsplit(c, 1)` -----

  /** The text before and after the last occurrence of `c`. */
  function SplitLast(s: string, c: char): Option<(string, string)>
    decreases |s|
  {
    if |s| == 0 then None
    else if s[|s| - 1] == c then Some((s[..|s| - 1], ""))
    else
      match SplitLast(s[..|s| - 1], c)
      case None => None
      case Some(parts) => Some((parts.0, parts.1 + [s[|s| - 1]]))
  }

  lemma {:induction false} SplitLastAt(a: string, b: string, c: char)
    requires c !in b
    ensures SplitLast(a + [c] + b, c) == Some((a, b))
    decreases |b|
  {
    var s := a + [c] + b;
    if |b| == 0 {
      assert s[..|s| - 1] == a;
    } else {
      var b' := b[..|b| - 1];
      assert s[..|s| - 1] == a + [c] + b';
      assert c !in b' by {
        assert forall k :: 0 <= k < |b'| ==> b'[k] == b[k];
      }
      SplitLastAt(a, b', c);
      assert b' + [b[|b| - 1]] == b;
    }
  }

  // ----- ASCII case mapping (`str.lower`, `str.upper`) -----

  function LowerChar(c: char): char {
    if 'A' <= c <= 'Z' then (c as int + 32) as char else c
  }

  function UpperChar(c: char): char {
    if 'a' <= c <= 'z' then (c as int - 32) as char else c
  }

  function Lower(s: string): string {
    seq(|s|, i requires 0 <= i < |s| => LowerChar(s[i]))
  }

  function Upper(s: string): string {
    seq(|s|, i requires 0 <= i < |s| => UpperChar(s[i]))
  }

  // ----- decimal digits (`str(n)` for a non-negative int) -----

  predicate IsDigit(c: char) {
    '0' <= c <= '9'
  }

  predicate AllDigits(s: string) {
    forall i :: 0 <= i < |s| ==> IsDigit(s[i])
  }

  function DigitChar(d: nat): char
    requires d < 10
  {
    ('0' as int + d) as char
  }

  /** `str(n)`: a non-empty string of decimal digits. */
  function NatToString(n: nat): (r: string)
    ensures |r| > 0 && AllDigits(r)
    decreases n
  {
    if n < 10 then [DigitChar(n)] else NatToString(n / 10) + [DigitChar(n % 10)]
  }

  function ParseNat(s: string): nat
    requires AllDigits(s)
    decreases |s|
  {
    if |s| == 0 then 0 else 10 * ParseNat(s[..|s| - 1]) + (s[|s| - 1] as int - '0' as int)
  }

  /** `int(str(n)) == n`: the decimal rendering loses nothing. */
  lemma {:induction false} ParseNatToString(n: nat)
    ensures ParseNat(NatToString(n)) == n
    decreases n
  {
    var s := NatToString(n);
    if n >= 10 {
      ParseNatToString(n / 10);
      assert s[..|s| - 1] == NatToString(n / 10);
    }
  }

  // ----- `sep.join(parts)` -----

  function Join(parts: seq<string>, sep: string): string
    decreases |parts|
  {
    if |parts| == 0 then ""
    else if |parts| == 1 then parts[0]
    else parts[0] + sep + Join(parts[1..], sep)
  }

  /** Every part shows up in the joined text. */
  lemma {:induction false} ContainsJoin(parts: seq<string>, sep: string, k: nat)
    requires k < |parts|
    ensures Contains(Join(parts, sep), parts[k])
    decreases |parts|
  {
    if |parts| == 1 {
      ContainsIn("", parts[0], "");
      assert "" + parts[0] + "" == parts[0];
    } else if k == 0 {
      ContainsIn("", parts[0], sep + Join(parts[1..], sep));
      assert "" + parts[0] + (sep + Join(parts[1..], sep)) == Join(parts, sep);
    } else {
      ContainsJoin(parts[1..], sep, k - 1);
      ContainsExtendLeft(parts[0] + sep, Join(parts[1..], sep), parts[k]);
      assert parts[0] + sep + Join(parts[1..], sep) == Join(parts, sep);
    }
  }

  /** A character of the joined text comes from the separator or from one of the parts. */
  lemma {:induction false} CharInJoin(parts: seq<string>, sep: string, c: char)
    requires c in Join(parts, sep)
    ensures c in sep || exists i :: 0 <= i < |parts| && c in parts[i]
    decreases |parts|
  {
    if |parts| > 1 {
      var rest := Join(parts[1..], sep);
      assert Join(parts, sep) == parts[0] + sep + rest;
      if c !in parts[0] && c !in sep {
        CharInJoin(parts[1..], sep, c);
        if c !in sep {
          var i :| 0 <= i < |parts[1..]| && c in parts[1..][i];
          assert c in parts[i + 1];
        }
      }
    }
  }

  /** A non-empty word is absent from any text lacking its first character. */
  lemma NotContainsByChar(s: string, w: string)
    requires |w| > 0 && w[0] !in s
    ensures !Contains(s, w)
  {
    if Contains(s, w) {
      ContainsFirstChar(s, w);
    }
  }

  /** A word is absent from any text lacking one of its characters. */
  lemma NotContainsWithout(s: string, w: string, c: char)
    requires c in w && c !in s
    ensures !Contains(s, w)
  {
    if Contains(s, w) {
      ContainsCharOf(s, w, c);
    }
  }

  /** A word whose first character is in neither the separator nor any part is absent
      from the joined text. */
  lemma WordAbsentFromJoin(parts: seq<string>, sep: string, w: string)
    requires |w| > 0 && w[0] !in sep
    requires forall i :: 0 <= i < |parts| ==> w[0] !in parts[i]
    ensures !Contains(Join(parts, sep), w)
  {
    if w[0] in Join(parts, sep) {
      CharInJoin(parts, sep, w[0]);
    }
    NotContainsByChar(Join(parts, sep), w);
  }

  /** For a word whose first character occurs only in the parts equal to it, the joined
      text contains the word exactly when the word is one of the parts. */
  lemma JoinMentions(parts: seq<string>, sep: string, w: string)
    requires |w| > 0 && w[0] !in sep
    requires forall i :: 0 <= i < |parts| && parts[i] != w ==> w[0] !in parts[i]
    ensures Contains(Join(parts, sep), w) <==> w in parts
  {
    if w in parts {
      var k :| 0 <= k < |parts| && parts[k] == w;
      ContainsJoin(parts, sep, k);
    } else {
      WordAbsentFromJoin(parts, sep, w);
    }
  }

  // ----- `str.strip()` over ASCII whitespace (the characters `str.isspace` accepts below 128) -----

  predicate IsSpace(c: char) {
    c as int == 32 || 9 <= c as int <= 13 || 28 <= c as int <= 31
  }

  function StripLeft(s: string): string
    decreases |s|
  {
    if |s| > 0 && IsSpace(s[0]) then StripLeft(s[1..]) else s
  }

  function StripRight(s: string): string
    decreases |s|
  {
    if |s| > 0 && IsSpace(s[|s| - 1]) then StripRight(s[..|s| - 1]) else s
  }

  function Strip(s: string): string {
    StripRight(StripLeft(s))
  }

  lemma {:induction false} StripLeftKeepsTail(a: string, t: string)
    requires |t| > 0 && !IsSpace(t[0])
    ensures EndsWith(StripLeft(a + t), t)
    decreases |a|
  {
    if a == [] {
      assert a + t == t;
    } else if IsSpace(a[0]) {
      assert (a + t)[1..] == a[1..] + t;
      StripLeftKeepsTail(a[1..], t);
    } else {
      assert (a + t)[|a + t| - |t|..] == t;
    }
  }

  /** Stripping `a + t` keeps all of `t` when `t` starts and ends with a visible character. */
  lemma StripKeepsTail(a: string, t: string)
    requires |t| > 0 && !IsSpace(t[0]) && !IsSpace(t[|t| - 1])
    ensures EndsWith(Strip(a + t), t)
  {
    StripLeftKeepsTail(a, t);
    var x := StripLeft(a + t);
    assert x[|x| - 1] == t[|t| - 1];
    assert StripRight(x) == x;
  }

  // ----- `repr(list_of_str)` for strings without quotes, backslashes or non-printable characters -----

  function Quote(s: string): string {
    "'" + s + "'"
  }

  function ReprItems(items: seq<string>): string
    decreases |items|
  {
    if |items| == 0 then ""
    else if |items| == 1 then Quote(items[0])
    else Quote(items[0]) + ", " + ReprItems(items[1..])
  }

  function ReprList(items: seq<string>): string {
    "[" + ReprItems(items) + "]"
  }

  lemma {:induction false} ReprItemsContains(items: seq<string>, k: nat)
    requires k < |items|
    ensures Contains(ReprItems(items), items[k])
    decreases |items|
  {
    if k == 0 {
      ContainsIn("'", items[0], "'");
      if |items| > 1 {
        ContainsExtendRight(Quote(items[0]), ", " + ReprItems(items[1..]), items[0]);
        assert Quote(items[0]) + (", " + ReprItems(items[1..])) == ReprItems(items);
      }
    } else {
      ReprItemsContains(items[1..], k - 1);
      ContainsExtendLeft(Quote(items[0]) + ", ", ReprItems(items[1..]), items[k]);
    }
  }

  /** Every item of a list shows up, verbatim, in its `repr`. */
  lemma ReprListContains(items: seq<string>, k: nat)
    requires k < |items|
    ensures Contains(ReprList(items), items[k])
  {
    ReprItemsContains(items, k);
    ContainsExtend("[", ReprItems(items), "]", items[k]);
  }
}
