/** String helpers shared by the modelled components; strings are sequences of characters. */
module Strings {

  predicate StartsWith(s: string, prefix: string)
  {
    |prefix| <= |s| && s[..|prefix|] == prefix
  }

  predicate EndsWith(s: string, suffix: string)
  {
    |suffix| <= |s| && s[|s| - |suffix|..] == suffix
  }

  /** `sub` occurs somewhere in `s` as a contiguous piece. */
  predicate Contains(s: string, sub: string)
  {
    exists i | 0 <= i <= |s| - |sub| :: OccursAt(s, sub, i)
  }

  predicate OccursAt(s: string, sub: string, i: int)
  {
    0 <= i <= |s| - |sub| && s[i..i + |sub|] == sub
  }

  predicate IsAsciiDigit(c: char) { '0' <= c <= '9' }

  predicate IsAsciiLower(c: char) { 'a' <= c <= 'z' }

  predicate IsAsciiUpper(c: char) { 'A' <= c <= 'Z' }

  predicate IsAsciiAlnum(c: char) { IsAsciiDigit(c) || IsAsciiLower(c) || IsAsciiUpper(c) }

  function ToUpperChar(c: char): char
  {
    if IsAsciiLower(c) then (c as int - 'a' as int + 'A' as int) as char else c
  }

  function ToLowerChar(c: char): char
  {
    if IsAsciiUpper(c) then (c as int - 'A' as int + 'a' as int) as char else c
  }

  /** ASCII lower-casing, character by character; other characters are kept. */
  function ToLowerAscii(s: string): (r: string)
    ensures |r| == |s|
    ensures forall i :: 0 <= i < |s| ==> r[i] == ToLowerChar(s[i])
  {
    if s == [] then [] else [ToLowerChar(s[0])] + ToLowerAscii(s[1..])
  }

  /** ASCII upper-casing, character by character; other characters are kept. */
  function ToUpperAscii(s: string): (r: string)
    ensures |r| == |s|
    ensures forall i :: 0 <= i < |s| ==> r[i] == ToUpperChar(s[i])
  {
    if s == [] then [] else [ToUpperChar(s[0])] + ToUpperAscii(s[1..])
  }

  /** ASCII case-insensitive equality. */
  predicate EqualsIgnoreCase(a: string, b: string)
  {
    ToLowerAscii(a) == ToLowerAscii(b)
  }

  /** Equal ignoring case, character by character. */
  lemma EqualsIgnoreCaseByChars(a: string, b: string)
    requires |a| == |b|
    requires forall i | 0 <= i < |a| :: ToLowerChar(a[i]) == ToLowerChar(b[i])
    ensures EqualsIgnoreCase(a, b)
  {
    assert ToLowerAscii(a) == ToLowerAscii(b);
  }

  /** Strings of different lengths differ in any case. */
  lemma LengthsDifferIgnoringCase(a: string, b: string)
    requires |a| != |b|
    ensures !EqualsIgnoreCase(a, b)
  {
    assert |ToLowerAscii(a)| != |ToLowerAscii(b)|;
  }

  /** Splits on every occurrence of `sep`; always yields at least one piece, as Rust's and
      Python's `split` and JavaScript's `split` with a one-character separator do. */
  function Split(s: string, sep: char): (r: seq<string>)
    ensures |r| >= 1
    ensures forall i :: 0 <= i < |r| ==> sep !in r[i]
    decreases |s|
  {
    if sep !in s then [s]
    else
      var k := IndexOf(s, sep);
      [s[..k]] + Split(s[k + 1..], sep)
  }

  /** Index of the first `c` in `s`. */
  function IndexOf(s: string, c: char): (k: nat)
    requires c in s
    ensures k < |s| && s[k] == c && c !in s[..k]
  {
    if s[0] == c then 0 else 1 + IndexOf(s[1..], c)
  }

  /** Joins the pieces with `sep` between neighbours. */
  function Join(pieces: seq<string>, sep: string): string
  {
    if pieces == [] then ""
    else if |pieces| == 1 then pieces[0]
    else pieces[0] + sep + Join(pieces[1..], sep)
  }

  lemma {:induction false} JoinSplit(s: string, sep: char)
    ensures Join(Split(s, sep), [sep]) == s
    decreases |s|
  {
    if sep in s {
      var k := IndexOf(s, sep);
      var rest := Split(s[k + 1..], sep);
      JoinSplit(s[k + 1..], sep);
      JoinCons(s[..k], rest, [sep]);
      assert s == s[..k] + [sep] + s[k + 1..];
    }
  }

  /** Joining a piece in front of at least one more puts the separator between them. */
  lemma JoinCons(a: string, rest: seq<string>, sep: string)
    requires |rest| >= 1
    ensures Join([a] + rest, sep) == a + sep + Join(rest, sep)
  {
    assert ([a] + rest)[1..] == rest;
  }

  /** Splitting text that holds no separator gives the text itself. */
  lemma SplitWithoutSeparator(s: string, sep: char)
    requires sep !in s
    ensures Split(s, sep) == [s]
  {
  }

  /** The first separator ends the first piece. */
  lemma SplitAtFirst(a: string, b: string, sep: char)
    requires sep !in a
    ensures Split(a + [sep] + b, sep) == [a] + Split(b, sep)
  {
    var s := a + [sep] + b;
    assert s[|a|] == sep;
    assert s[..|a|] == a;
    assert s[|a| + 1..] == b;
  }

  /** Concatenation regroups. */
  lemma AppendAssoc(x: string, y: string, z: string)
    ensures (x + y) + z == x + (y + z)
  {
  }

  /** Decimal rendering of an integer (the `to_s`/`toString`/string interpolation of it). */
  function IntToString(n: int): (r: string)
    ensures |r| >= 1
  {
    if n < 0 then "-" + NatToString(-n) else NatToString(n)
  }

  function NatToString(n: nat): (r: string)
    ensures |r| >= 1
    ensures forall i :: 0 <= i < |r| ==> IsAsciiDigit(r[i])
  {
    if n < 10 then [DigitChar(n)] else NatToString(n / 10) + [DigitChar(n % 10)]
  }

  function DigitChar(d: nat): char
    requires d < 10
  {
    ('0' as int + d) as char
  }
}
