/**
 The fragment of JavaScript's string library that the application uses:
 `trim`, `split` on a one-character separator, array indexing that yields
 `undefined` out of range, and the truthiness of a possibly-null string.
 Strings are sequences of Unicode scalar values; every character the
 application looks for lies in the Basic Multilingual Plane, so this agrees
 with JavaScript's UTF-16 code units on the separators and on whitespace.
 */
module JsString {
  import opened Wrappers

  /** The characters `String.prototype.trim` strips: WhiteSpace and
      LineTerminator of ECMA-262 (sections 12.2 and 12.3), where WhiteSpace
      includes every code point of the Unicode category Zs. */
  predicate IsWhitespace(c: char) {
    || c == '\t' || c == '\n' || c == '\U{000B}' || c == '\U{000C}' || c == '\r'
    || c == ' ' || c == '\U{00A0}' || c == '\U{1680}'
    || ('\U{2000}' <= c <= '\U{200A}')
    || c == '\U{2028}' || c == '\U{2029}' || c == '\U{202F}' || c == '\U{205F}'
    || c == '\U{3000}' || c == '\U{FEFF}'
  }

  /** JavaScript truthiness of a `string | null` value: null and "" are falsy. */
  predicate Truthy(o: Option<string>) {
    o.Some? && o.value != []
  }

  /** Strips leading whitespace: what is dropped is all whitespace, and what
      remains is a suffix that does not start with whitespace. */
  function TrimStart(s: string): (r: string)
    ensures |r| <= |s| && r == s[|s| - |r|..]
    ensures forall i :: 0 <= i < |s| - |r| ==> IsWhitespace(s[i])
    ensures r != [] ==> !IsWhitespace(r[0])
  {
    if s != [] && IsWhitespace(s[0]) then TrimStart(s[1..]) else s
  }

  /** Strips trailing whitespace: what is dropped is all whitespace, and what
      remains is a prefix that does not end with whitespace. */
  function TrimEnd(s: string): (r: string)
    ensures |r| <= |s| && r == s[..|r|]
    ensures forall i :: |r| <= i < |s| ==> IsWhitespace(s[i])
    ensures r != [] ==> !IsWhitespace(r[|r| - 1])
  {
    if s != [] && IsWhitespace(s[|s| - 1]) then TrimEnd(s[..|s| - 1]) else s
  }

  /** Number of leading whitespace characters of `s`. */
  function Lead(s: string): (n: nat)
    ensures n <= |s|
  {
    |s| - |TrimStart(s)|
  }

  /** `s.trim()`: the slice of `s` left after removing whitespace at both
      ends; everything removed is whitespace and the slice neither starts nor
      ends with whitespace. */
  function Trim(s: string): (r: string)
    ensures Lead(s) + |r| <= |s| && r == s[Lead(s)..Lead(s) + |r|]
    ensures forall i :: 0 <= i < Lead(s) ==> IsWhitespace(s[i])
    ensures forall i :: Lead(s) + |r| <= i < |s| ==> IsWhitespace(s[i])
    ensures r != [] ==> !IsWhitespace(r[0]) && !IsWhitespace(r[|r| - 1])
  {
    var t := TrimStart(s);
    var r := TrimEnd(t);
    assert r != [] ==> r[0] == t[0];
    r
  }

  /** JavaScript's `!s.trim()`: the trimmed string is empty, which happens
      exactly when every character of `s` is whitespace. */
  predicate IsBlank(s: string)
    ensures IsBlank(s) <==> forall i :: 0 <= i < |s| ==> IsWhitespace(s[i])
  {
    var r := Trim(s);
    assert r != [] ==> s[Lead(s)] == r[0];
    r == []
  }

  /** Trimming only removes characters: one absent from `s` is absent from
      its trim. */
  lemma TrimOmits(s: string, c: char)
    requires c !in s
    ensures c !in Trim(s)
  {
  }

  /** Trimming twice is trimming once. */
  lemma TrimIdempotent(s: string)
    ensures Trim(Trim(s)) == Trim(s)
  {
    var r := Trim(s);
    if r != [] {
      assert TrimStart(r) == r;
      assert TrimEnd(r) == r;
    }
  }

  /** Joins parts with a separator between neighbours (`parts.join(sep)`). */
  function Join(parts: seq<string>, sep: char): string {
    if parts == [] then []
    else if |parts| == 1 then parts[0]
    else parts[0] + [sep] + Join(parts[1..], sep)
  }

  /** `s.split(sep)` for a one-character separator: at least one part, no
      part contains the separator, and joining the parts back gives `s`. */
  function Split(s: string, sep: char): (parts: seq<string>)
    ensures |parts| >= 1
    ensures forall i :: 0 <= i < |parts| ==> sep !in parts[i]
    ensures Join(parts, sep) == s
  {
    if s == [] then [[]]
    else
      var rest := Split(s[1..], sep);
      if s[0] == sep then
        var parts := [[]] + rest;
        assert parts[1..] == rest;
        parts
      else
        var parts := [[s[0]] + rest[0]] + rest[1..];
        assert |rest| > 1 ==> rest[1..][1..] == rest[2..] && parts[1..] == rest[1..];
        assert |rest| > 1 ==> Join(rest, sep) == rest[0] + [sep] + Join(rest[1..], sep);
        parts
  }

  /** JavaScript array indexing: `undefined` beyond the end. */
  function At<T>(xs: seq<T>, k: nat): (r: Option<T>)
    ensures r.Some? <==> k < |xs|
    ensures r.Some? ==> r.value == xs[k]
  {
    if k < |xs| then Some(xs[k]) else None
  }

  /** `s.indexOf(c)` with -1 as `None`: the position of the first `c`. */
  function IndexOf(s: string, c: char): (r: Option<nat>)
    ensures r.None? <==> c !in s
    ensures r.Some? ==> r.value < |s| && s[r.value] == c && c !in s[..r.value]
  {
    if s == [] then None
    else if s[0] == c then Some(0)
    else
      match IndexOf(s[1..], c)
      case None => None
      case Some(i) =>
        assert s[..i + 1] == [s[0]] + s[1..][..i];
        Some(i + 1)
  }

  /** The text before the first `c`, or all of `s` when there is none. */
  function Before(s: string, c: char): string {
    match IndexOf(s, c)
    case None => s
    case Some(i) => s[..i]
  }

  /** The text after the first `c`, or `None` when there is none. */
  function After(s: string, c: char): Option<string> {
    match IndexOf(s, c)
    case None => None
    case Some(i) => Some(s[i + 1..])
  }

  /** The first occurrence of `c` in `a + [c] + b`, when `a` lacks `c`, is
      the one right after `a`. */
  lemma {:induction false} BeforeAfterOfFirst(a: string, c: char, b: string)
    requires c !in a
    ensures Before(a + [c] + b, c) == a
    ensures After(a + [c] + b, c) == Some(b)
  {
    var s := a + [c] + b;
    assert s[|a|] == c;
    var i := IndexOf(s, c).value;
    assert s[..i] == a;
    assert s[i + 1..] == b;
  }

  /** Without a separator, splitting yields the whole string. */
  lemma {:induction false} SplitWithoutSeparator(p: string, sep: char)
    requires sep !in p
    ensures Split(p, sep) == [p]
  {
    if p != [] {
      SplitWithoutSeparator(p[1..], sep);
      assert [p[0]] + p[1..] == p;
    }
  }

  /** A separator-free prefix followed by the separator splits off as the
      first part. */
  lemma {:induction false} SplitAfterPrefix(p: string, sep: char, t: string)
    requires sep !in p
    ensures Split(p + [sep] + t, sep) == [p] + Split(t, sep)
  {
    var s := p + [sep] + t;
    if p == [] {
      assert s[1..] == t;
    } else {
      assert s[1..] == p[1..] + [sep] + t;
      SplitAfterPrefix(p[1..], sep, t);
      assert [p[0]] + p[1..] == p;
    }
  }

  /** `Split` is the only way to cut a string into separator-free parts that
      join back to it: splitting a join recovers the parts. */
  lemma {:induction false} SplitJoin(parts: seq<string>, sep: char)
    requires |parts| >= 1
    requires forall i :: 0 <= i < |parts| ==> sep !in parts[i]
    ensures Split(Join(parts, sep), sep) == parts
  {
    if |parts| == 1 {
      SplitWithoutSeparator(parts[0], sep);
    } else {
      SplitJoin(parts[1..], sep);
      SplitAfterPrefix(parts[0], sep, Join(parts[1..], sep));
      assert [parts[0]] + parts[1..] == parts;
    }
  }

  /** The parts of `s.split(sep)`: the first is the text before the first
      separator, a second exists exactly when the separator occurs, and the
      remaining parts are the split of the text after the first separator. */
  lemma {:induction false} SplitFirst(s: string, sep: char)
    ensures Split(s, sep)[0] == Before(s, sep)
    ensures |Split(s, sep)| >= 2 <==> sep in s
    ensures sep in s ==> Split(s, sep)[1..] == Split(After(s, sep).value, sep)
  {
    match IndexOf(s, sep)
    case None =>
      SplitWithoutSeparator(s, sep);
    case Some(i) =>
      assert s == s[..i] + [sep] + s[i + 1..];
      SplitAfterPrefix(s[..i], sep, s[i + 1..]);
  }
}
