/**
 * The parts of Python's `str` API the repository relies on: `strip`, `lstrip`
 * and `rstrip` with a character set, `split` on one separator, `startswith`,
 * `endswith`, `upper`, `replace` of one character and integer-to-text conversion.
 */
module Strings {

  /** The characters Python's `str.strip()` removes when given no argument. */
  predicate IsSpace(c: char) {
    || '\t' <= c <= '\r'
    || '\U{001C}' <= c <= ' '
    || c == '\U{0085}' || c == '\U{00A0}' || c == '\U{1680}'
    || '\U{2000}' <= c <= '\U{200A}'
    || c == '\U{2028}' || c == '\U{2029}' || c == '\U{202F}' || c == '\U{205F}' || c == '\U{3000}'
  }

  /** Every character of `s` satisfies `p`. */
  predicate AllIn(s: string, p: char -> bool) {
    forall i :: 0 <= i < |s| ==> p(s[i])
  }

  /** Left stripping: the suffix left after dropping every leading character that `drop` holds of. */
  function TrimStart(s: string, drop: char -> bool): (r: string)
    ensures |r| <= |s| && r == s[|s| - |r|..]
    ensures AllIn(s[..|s| - |r|], drop)
    ensures r != [] ==> !drop(r[0])
    decreases |s|
  {
    if s != [] && drop(s[0]) then TrimStart(s[1..], drop) else s
  }

  /** Right stripping: the prefix left after dropping every trailing character that `drop` holds of. */
  function TrimEnd(s: string, drop: char -> bool): (r: string)
    ensures |r| <= |s| && r == s[..|r|]
    ensures AllIn(s[|r|..], drop)
    ensures r != [] ==> !drop(r[|r| - 1])
    decreases |s|
  {
    if s != [] && drop(s[|s| - 1]) then TrimEnd(s[..|s| - 1], drop) else s
  }

  /** Stripping whitespace from both ends. */
  function Strip(s: string): string {
    TrimEnd(TrimStart(s, IsSpace), IsSpace)
  }

  /** `t` is `v` with nothing but whitespace around it. */
  ghost predicate PaddedBy(v: string, t: string) {
    exists a: nat :: a + |t| <= |v| && v[a..a + |t|] == t
                     && AllIn(v[..a], IsSpace) && AllIn(v[a + |t|..], IsSpace)
  }

  /** `t` neither starts nor ends with whitespace. */
  predicate Trimmed(t: string) {
    t != [] ==> !IsSpace(t[0]) && !IsSpace(t[|t| - 1])
  }

  /** Dropping from a string whose every character may be dropped leaves nothing. */
  lemma {:induction false} TrimStartAll(s: string, drop: char -> bool)
    requires AllIn(s, drop)
    ensures TrimStart(s, drop) == []
    decreases |s|
  {
    if s != [] {
      assert AllIn(s[1..], drop) by {
        forall i | 0 <= i < |s[1..]| ensures drop(s[1..][i]) {
          assert s[1..][i] == s[i + 1];
        }
      }
      TrimStartAll(s[1..], drop);
    }
  }

  /** `strip()` keeps a slice of `s` and drops only whitespace around it. */
  lemma StripPadded(s: string)
    ensures PaddedBy(s, Strip(s))
  {
    var u := TrimStart(s, IsSpace);
    var t := TrimEnd(u, IsSpace);
    var a := |s| - |u|;
    assert u == s[a..];
    assert t == u[..|t|];
    assert s[a..a + |t|] == t;
    assert s[a + |t|..] == u[|t|..];
  }

  /** `strip()` returns the empty string exactly for blank input. */
  lemma StripBlank(s: string)
    ensures Strip(s) == [] <==> AllIn(s, IsSpace)
  {
    var u := TrimStart(s, IsSpace);
    var t := TrimEnd(u, IsSpace);
    var a := |s| - |u|;
    assert u == s[a..];
    if t == [] {
      assert u[|t|..] == u;
      forall i | 0 <= i < |s| ensures IsSpace(s[i]) {
        if i < a {
          assert s[..a][i] == s[i];
        } else {
          assert u[i - a] == s[i];
        }
      }
    }
    if AllIn(s, IsSpace) {
      TrimStartAll(s, IsSpace);
    }
  }

  /** What `strip()` promises: a trimmed core of `s` with only whitespace around it; empty iff `s` is blank. */
  lemma StripSpec(s: string)
    ensures Trimmed(Strip(s))
    ensures PaddedBy(s, Strip(s))
    ensures Strip(s) == [] <==> AllIn(s, IsSpace)
  {
    StripPadded(s);
    StripBlank(s);
    var u := TrimStart(s, IsSpace);
    var t := TrimEnd(u, IsSpace);
    if t != [] {
      assert t[0] == u[0];
    }
  }

  /** Stripping a string that already has no whitespace at either end changes nothing. */
  lemma StripTrimmed(t: string)
    requires Trimmed(t)
    ensures Strip(t) == t
  {
  }

  /** The single characters the code strips: the `@` in front of a reference and the `/` after a URL. */
  predicate IsAt(c: char) {
    c == '@'
  }

  predicate IsSlash(c: char) {
    c == '/'
  }

  predicate StartsWith(s: string, prefix: string) {
    |prefix| <= |s| && s[..|prefix|] == prefix
  }

  predicate EndsWith(s: string, suffix: string) {
    |suffix| <= |s| && s[|s| - |suffix|..] == suffix
  }

  /**
   * Upper-casing one character, for the characters whose upper case is a single ASCII letter:
   * `a`..`z`, the dotless `ı` and the long `ſ`. Other characters are left as they are.
   */
  function UpperChar(c: char): char {
    if 'a' <= c <= 'z' then (c as int - 32) as char
    else if c == '\U{0131}' then 'I'
    else if c == '\U{017F}' then 'S'
    else c
  }

  /** Upper-casing a string, character by character. */
  function Upper(s: string): (r: string)
    ensures |r| == |s| && forall i :: 0 <= i < |s| ==> r[i] == UpperChar(s[i])
  {
    seq(|s|, i requires 0 <= i < |s| => UpperChar(s[i]))
  }

  /** Upper-casing twice is upper-casing once. */
  lemma UpperIdempotent(s: string)
    ensures Upper(Upper(s)) == Upper(s)
  {
    var u := Upper(s);
    forall i | 0 <= i < |s| ensures Upper(u)[i] == u[i] {
      assert UpperChar(UpperChar(s[i])) == UpperChar(s[i]);
    }
  }

  /** Replacing every occurrence of one character by another. */
  function ReplaceChar(s: string, from: char, to: char): (r: string)
    ensures |r| == |s|
    ensures forall i :: 0 <= i < |s| ==> r[i] == if s[i] == from then to else s[i]
  {
    seq(|s|, i requires 0 <= i < |s| => if s[i] == from then to else s[i])
  }

  /** Splitting on one separator character: never empty, and the empty string splits into one empty part. */
  function Split(s: string, sep: char): (parts: seq<string>)
    ensures |parts| >= 1
    decreases |s|
  {
    if s == [] then [""]
    else if s[0] == sep then [""] + Split(s[1..], sep)
    else
      var rest := Split(s[1..], sep);
      [[s[0]] + rest[0]] + rest[1..]
  }

  /** Joining parts with a one-character separator. */
  function Join(parts: seq<string>, sep: char): string
    requires |parts| >= 1
  {
    if |parts| == 1 then parts[0] else parts[0] + [sep] + Join(parts[1..], sep)
  }

  /** A string without the separator splits into itself. */
  lemma {:induction false} SplitNoSep(s: string, sep: char)
    requires sep !in s
    ensures Split(s, sep) == [s]
    decreases |s|
  {
    if s != [] {
      SplitNoSep(s[1..], sep);
      assert [s[0]] + s[1..] == s;
    }
  }

  /** Splitting at the first separator: the part before it, then the split of the rest. */
  lemma {:induction false} SplitAtSep(a: string, sep: char, b: string)
    requires sep !in a
    ensures Split(a + [sep] + b, sep) == [a] + Split(b, sep)
    decreases |a|
  {
    var s := a + [sep] + b;
    if a == [] {
      assert s[1..] == b;
    } else {
      assert s[1..] == a[1..] + [sep] + b;
      SplitAtSep(a[1..], sep, b);
      assert [a[0]] + a[1..] == a;
    }
  }

  /** Joining the parts with the separator gives back the string. */
  lemma {:induction false} SplitJoin(s: string, sep: char)
    ensures Join(Split(s, sep), sep) == s
    decreases |s|
  {
    if s != [] {
      SplitJoin(s[1..], sep);
      var rest := Split(s[1..], sep);
      var parts := Split(s, sep);
      if s[0] == sep {
        assert parts[1..] == rest;
        assert Join(parts, sep) == "" + [sep] + Join(rest, sep);
      } else {
        assert parts[0] == [s[0]] + rest[0];
        assert parts[1..] == rest[1..];
        if |rest| == 1 {
          assert Join(parts, sep) == [s[0]] + rest[0];
        } else {
          assert Join(rest, sep) == rest[0] + [sep] + Join(rest[1..], sep);
          assert Join(parts, sep) == [s[0]] + rest[0] + [sep] + Join(rest[1..], sep);
        }
      }
      assert s == [s[0]] + s[1..];
    }
  }

  /** No part contains the separator. */
  lemma {:induction false} SplitPartsSepFree(s: string, sep: char)
    ensures forall k :: 0 <= k < |Split(s, sep)| ==> sep !in Split(s, sep)[k]
    decreases |s|
  {
    if s != [] {
      SplitPartsSepFree(s[1..], sep);
      var rest := Split(s[1..], sep);
      var parts := Split(s, sep);
      forall k | 0 <= k < |parts| ensures sep !in parts[k] {
        if s[0] == sep {
          if k > 0 {
            assert parts[k] == rest[k - 1];
          }
        } else if k > 0 {
          assert parts[k] == rest[k];
        } else {
          assert parts[0] == [s[0]] + rest[0];
        }
      }
    }
  }

  function DigitChar(d: nat): char
    requires d < 10
  {
    "0123456789"[d]
  }

  /** A natural number as text: its decimal digits. */
  function NatToDecimal(n: nat): string
    decreases n
  {
    if n < 10 then [DigitChar(n)] else NatToDecimal(n / 10) + [DigitChar(n % 10)]
  }

  /** An integer as text, with a minus sign when negative. */
  function IntToDecimal(n: int): string {
    if n < 0 then "-" + NatToDecimal(-n) else NatToDecimal(n)
  }
}
