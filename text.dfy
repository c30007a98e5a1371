/**
 * The Python string operations the proxy relies on, over `seq<char>`:
 * `str.strip()`, `str.upper()`, `str.lower()` and `str.split(sep)` with a
 * one-character separator, together with `sep.join(parts)` as its inverse.
 */
module Text {

  /** Characters for which Python's `str.isspace()` holds, i.e. those `str.strip()` removes. */
  predicate IsSpace(c: char) {
    || c == ' '
    || ('\t' <= c <= '\r')
    || ('\U{1C}' <= c <= '\U{1F}')
    || c == '\U{85}' || c == '\U{A0}' || c == '\U{1680}'
    || ('\U{2000}' <= c <= '\U{200A}')
    || c == '\U{2028}' || c == '\U{2029}' || c == '\U{202F}' || c == '\U{205F}' || c == '\U{3000}'
  }

  predicate AllSpace(s: string) {
    forall i :: 0 <= i < |s| ==> IsSpace(s[i])
  }

  /** Neither end of `s` is whitespace: `s` is a fixed point of `str.strip()`. */
  predicate IsStripped(s: string) {
    s == [] || (!IsSpace(s[0]) && !IsSpace(s[|s| - 1]))
  }

  /** `s` is `r` with whitespace only before it (the first `i` characters) and after it. */
  predicate StripsAt(s: string, i: int, r: string) {
    0 <= i <= |s| - |r| && AllSpace(s[..i]) && s[i..i + |r|] == r && AllSpace(s[i + |r|..])
  }

  /** `s` with its leading whitespace removed (`str.lstrip()`): no longer than `s`, and not starting with whitespace. */
  function TrimStart(s: string): (r: string)
    ensures |r| <= |s|
    ensures r == [] || !IsSpace(r[0])
    decreases |s|
  {
    if s != [] && IsSpace(s[0]) then TrimStart(s[1..]) else s
  }

  /** `s` with its trailing whitespace removed (`str.rstrip()`): a prefix of `s` not ending with whitespace. */
  function TrimEnd(s: string): (r: string)
    ensures |r| <= |s| && r == s[..|r|]
    ensures r == [] || !IsSpace(r[|r| - 1])
    decreases |s|
  {
    if s != [] && IsSpace(s[|s| - 1]) then
      var r := TrimEnd(s[..|s| - 1]);
      assert s[..|s| - 1][..|r|] == s[..|r|];
      r
    else
      s
  }

  /** What TrimStart removes is whitespace, and what it keeps is the rest of `s`. */
  lemma {:induction false} TrimStartDropsSpaces(s: string)
    ensures var r := TrimStart(s); r == s[|s| - |r|..] && AllSpace(s[..|s| - |r|])
    decreases |s|
  {
    if s != [] && IsSpace(s[0]) {
      var r := TrimStart(s[1..]);
      TrimStartDropsSpaces(s[1..]);
      assert s[1..][|s| - 1 - |r|..] == s[|s| - |r|..];
      assert s[..|s| - |r|] == [s[0]] + s[1..][..|s| - 1 - |r|];
    } else {
      assert s[|s| - |s|..] == s;
    }
  }

  /** What TrimEnd removes is whitespace. */
  lemma {:induction false} TrimEndDropsSpaces(s: string)
    ensures AllSpace(s[|TrimEnd(s)|..])
    decreases |s|
  {
    if s != [] && IsSpace(s[|s| - 1]) {
      var r := TrimEnd(s[..|s| - 1]);
      TrimEndDropsSpaces(s[..|s| - 1]);
      assert forall i :: |r| <= i < |s| - 1 ==> s[i] == s[..|s| - 1][i];
    }
  }

  /** Python's `str.strip()`: no longer than `s`, and neither starting nor ending with whitespace. */
  function Strip(s: string): (r: string)
    ensures |r| <= |s|
    ensures IsStripped(r)
  {
    TrimEnd(TrimStart(s))
  }

  /** Strip cuts only whitespace, and only at the two ends: `s` is the result surrounded by whitespace. */
  lemma {:induction false} StripRemovesOnlySpace(s: string)
    ensures exists i :: StripsAt(s, i, Strip(s))
  {
    var t := TrimStart(s);
    var r := TrimEnd(t);
    var i := |s| - |t|;
    TrimStartDropsSpaces(s);
    TrimEndDropsSpaces(t);
    assert s[i..] == t;
    assert s[i..i + |r|] == t[..|r|] == r;
    assert s[i + |r|..] == t[|r|..];
    assert AllSpace(s[..i]);
    assert AllSpace(s[i + |r|..]);
    assert r == Strip(s);
    assert StripsAt(s, i, r);
  }

  lemma {:induction false} TrimStartSkipsSpaces(p: string, x: string)
    requires AllSpace(p)
    ensures TrimStart(p + x) == TrimStart(x)
    decreases |p|
  {
    if p == [] {
      assert p + x == x;
    } else {
      assert (p + x)[1..] == p[1..] + x;
      TrimStartSkipsSpaces(p[1..], x);
    }
  }

  lemma {:induction false} TrimEndSkipsSpaces(x: string, q: string)
    requires AllSpace(q)
    ensures TrimEnd(x + q) == TrimEnd(x)
    decreases |q|
  {
    if q == [] {
      assert x + q == x;
    } else {
      assert (x + q)[..|x + q| - 1] == x + q[..|q| - 1];
      TrimEndSkipsSpaces(x, q[..|q| - 1]);
    }
  }

  /**
   * The converse of Strip's postcondition: whenever `s` is a stripped `r`
   * surrounded by whitespace, `Strip(s)` is exactly `r`. Together the two say
   * that Strip is the only function with that description.
   */
  lemma {:induction false} StripCharacterization(p: string, r: string, q: string)
    requires AllSpace(p) && AllSpace(q) && IsStripped(r)
    ensures Strip(p + r + q) == r
  {
    assert p + r + q == p + (r + q);
    TrimStartSkipsSpaces(p, r + q);
    if r == [] {
      assert r + q == q + [];
      TrimStartSkipsSpaces(q, []);
    } else {
      assert (r + q)[0] == r[0];
      TrimEndSkipsSpaces(r, q);
    }
  }

  /** Stripping twice is stripping once. */
  lemma {:induction false} StripIdempotent(s: string)
    ensures Strip(Strip(s)) == Strip(s)
  {
    var r := Strip(s);
    assert [] + r + [] == r;
    StripCharacterization([], r, []);
  }

  /** ASCII upper-casing of one character. */
  function UpperChar(c: char): char {
    if 'a' <= c <= 'z' then (c as int - 32) as char else c
  }

  /** ASCII lower-casing of one character. */
  function LowerChar(c: char): char {
    if 'A' <= c <= 'Z' then (c as int + 32) as char else c
  }

  /** `str.upper()` restricted to ASCII letters: same length, each character mapped, no lower-case letter left. */
  function Upper(s: string): (r: string)
    ensures |r| == |s|
    ensures forall i :: 0 <= i < |s| ==> r[i] == UpperChar(s[i])
    ensures forall i :: 0 <= i < |r| ==> !('a' <= r[i] <= 'z')
  {
    if s == [] then [] else [UpperChar(s[0])] + Upper(s[1..])
  }

  /** `str.lower()` restricted to ASCII letters: same length, each character mapped, no upper-case letter left. */
  function Lower(s: string): (r: string)
    ensures |r| == |s|
    ensures forall i :: 0 <= i < |s| ==> r[i] == LowerChar(s[i])
    ensures forall i :: 0 <= i < |r| ==> !('A' <= r[i] <= 'Z')
  {
    if s == [] then [] else [LowerChar(s[0])] + Lower(s[1..])
  }

  /** Upper-casing twice is upper-casing once. */
  lemma {:induction false} UpperIdempotent(s: string)
    ensures Upper(Upper(s)) == Upper(s)
  {
  }

  /** Upper-casing changes no whitespace character and makes none, so it keeps a stripped string stripped. */
  lemma {:induction false} UpperKeepsStripped(s: string)
    requires IsStripped(s)
    ensures IsStripped(Upper(s))
  {
  }

  /** `sep.join(parts)`. */
  function Join(parts: seq<string>, sep: char): (s: string)
    decreases |parts|
  {
    if |parts| == 0 then []
    else if |parts| == 1 then parts[0]
    else parts[0] + [sep] + Join(parts[1..], sep)
  }

  /**
   * `s.split(sep)`: at least one part, no part contains the separator, and
   * joining the parts with the separator gives back `s`.
   */
  function Split(s: string, sep: char): (parts: seq<string>)
    ensures |parts| >= 1
    ensures forall i :: 0 <= i < |parts| ==> sep !in parts[i]
    ensures Join(parts, sep) == s
    decreases |s|
  {
    if s == [] then [[]]
    else
      var rest := Split(s[1..], sep);
      if s[0] == sep then
        assert [sep] + Join(rest, sep) == s;
        [[]] + rest
      else
        var parts := [[s[0]] + rest[0]] + rest[1..];
        assert parts[1..] == rest[1..];
        assert |rest| > 1 ==> Join(rest, sep) == rest[0] + [sep] + Join(rest[1..], sep);
        assert s == [s[0]] + s[1..];
        parts
  }

  /** Splitting at a separator splits the two sides independently. */
  lemma {:induction false} SplitAround(a: string, b: string, sep: char)
    ensures Split(a + [sep] + b, sep) == Split(a, sep) + Split(b, sep)
    decreases |a|
  {
    var s := a + [sep] + b;
    if a == [] {
      assert s[1..] == b;
    } else {
      assert s[0] == a[0] && s[1..] == a[1..] + [sep] + b;
      SplitAround(a[1..], b, sep);
    }
  }

  /** A string without the separator splits into itself alone. */
  lemma {:induction false} SplitWithoutSep(e: string, sep: char)
    requires sep !in e
    ensures Split(e, sep) == [e]
    decreases |e|
  {
    if e != [] {
      assert e[0] in e;
      assert forall c :: c in e[1..] ==> c in e;
      SplitWithoutSep(e[1..], sep);
      assert [e[0]] + e[1..] == e;
    }
  }

  /** Split inverts Join on separator-free parts: the two are a round trip both ways. */
  lemma {:induction false} SplitJoin(parts: seq<string>, sep: char)
    requires |parts| >= 1
    requires forall i :: 0 <= i < |parts| ==> sep !in parts[i]
    ensures Split(Join(parts, sep), sep) == parts
    decreases |parts|
  {
    SplitWithoutSep(parts[0], sep);
    if |parts| > 1 {
      SplitJoin(parts[1..], sep);
      SplitAround(parts[0], Join(parts[1..], sep), sep);
      assert [parts[0]] + parts[1..] == parts;
    }
  }

  /** The last part of a join is a suffix of the joined text, preceded by the separator when not the whole text. */
  lemma {:induction false} JoinEndsWithLast(parts: seq<string>, sep: char)
    requires |parts| >= 1
    ensures var s, e := Join(parts, sep), parts[|parts| - 1];
      |e| <= |s| && s[|s| - |e|..] == e && (|e| < |s| ==> s[|s| - |e| - 1] == sep)
    decreases |parts|
  {
    if |parts| > 1 {
      JoinEndsWithLast(parts[1..], sep);
    }
  }

  /**
   * `s.split(sep)[-1]`: the text after the last separator. It contains no
   * separator, it is a suffix of `s`, and it is either all of `s` or preceded
   * by a separator.
   */
  function LastSegment(s: string, sep: char): (e: string)
    ensures sep !in e
    ensures |e| <= |s| && s[|s| - |e|..] == e
    ensures |e| < |s| ==> s[|s| - |e| - 1] == sep
  {
    var parts := Split(s, sep);
    JoinEndsWithLast(parts, sep);
    parts[|parts| - 1]
  }

  /** The segment after a final separator is recovered exactly. */
  lemma {:induction false} LastSegmentAfterSep(a: string, e: string, sep: char)
    requires sep !in e
    ensures LastSegment(a + [sep] + e, sep) == e
  {
    SplitAround(a, e, sep);
    SplitWithoutSep(e, sep);
  }
}
