/**
 * The JavaScript string operations the modelled code relies on, over Dafny
 * strings (sequences of Unicode scalar values): `trim`, `startsWith`,
 * `includes`, `split` on one separator character, `join`, and ASCII
 * `toLowerCase`.
 */
module Strings {
  import opened Wrappers

  /** The characters `String.prototype.trim` removes: WhiteSpace and LineTerminator of ECMA-262. */
  predicate IsWhitespace(c: char) {
    || c == ' ' || c == '\t' || c == '\n' || c == '\r'
    || c == '\U{0B}' || c == '\U{0C}' || c == '\U{A0}' || c == '\U{FEFF}'
    || c == '\U{1680}' || ('\U{2000}' <= c <= '\U{200A}')
    || c == '\U{2028}' || c == '\U{2029}' || c == '\U{202F}' || c == '\U{205F}' || c == '\U{3000}'
  }

  /** The length of the longest all-whitespace prefix of `s`. */
  function LeadingWhitespace(s: string): (n: nat)
    ensures n <= |s|
    ensures forall k :: 0 <= k < n ==> IsWhitespace(s[k])
    ensures n == |s| || !IsWhitespace(s[n])
  {
    if |s| > 0 && IsWhitespace(s[0]) then 1 + LeadingWhitespace(s[1..]) else 0
  }

  /** The length of the longest all-whitespace suffix of `s`. */
  function TrailingWhitespace(s: string): (n: nat)
    ensures n <= |s|
    ensures forall k :: |s| - n <= k < |s| ==> IsWhitespace(s[k])
    ensures n == |s| || !IsWhitespace(s[|s| - n - 1])
  {
    if |s| > 0 && IsWhitespace(s[|s| - 1]) then 1 + TrailingWhitespace(s[..|s| - 1]) else 0
  }

  function TrimStart(s: string): string {
    s[LeadingWhitespace(s)..]
  }

  function TrimEnd(s: string): string {
    s[..|s| - TrailingWhitespace(s)]
  }

  /** `s.trim()`: `s` without its leading and trailing whitespace. */
  function Trim(s: string): (r: string)
    ensures LeadingWhitespace(s) + |r| <= |s|
    ensures r == s[LeadingWhitespace(s)..LeadingWhitespace(s) + |r|]
    ensures forall k :: LeadingWhitespace(s) + |r| <= k < |s| ==> IsWhitespace(s[k])
    ensures r == [] || (!IsWhitespace(r[0]) && !IsWhitespace(r[|r| - 1]))
  {
    var t := TrimStart(s);
    var r := TrimEnd(t);
    assert r == s[LeadingWhitespace(s)..LeadingWhitespace(s) + |r|];
    r
  }

  /** A string that neither starts nor ends with whitespace is its own trim. */
  lemma TrimOfTrimmed(s: string)
    requires s == [] || (!IsWhitespace(s[0]) && !IsWhitespace(s[|s| - 1]))
    ensures Trim(s) == s
  {
  }

  /** Trimming is idempotent. */
  lemma TrimIdempotent(s: string)
    ensures Trim(Trim(s)) == Trim(s)
  {
    TrimOfTrimmed(Trim(s));
  }

  /** Every character of `s` is whitespace. */
  predicate AllWhitespace(s: string) {
    forall k :: 0 <= k < |s| ==> IsWhitespace(s[k])
  }

  /** The leading whitespace of `s` ends where its first other character is. */
  lemma {:induction false} LeadingWhitespaceAt(s: string, i: nat)
    requires i < |s| && AllWhitespace(s[..i]) && !IsWhitespace(s[i])
    ensures LeadingWhitespace(s) == i
  {
    if i > 0 {
      assert s[..i][0] == s[0];
      assert s[1..][..i - 1] == s[..i][1..];
      LeadingWhitespaceAt(s[1..], i - 1);
    }
  }

  /** The trailing whitespace of `s` starts after its last other character. */
  lemma {:induction false} TrailingWhitespaceAt(s: string, b: nat)
    requires b < |s| && AllWhitespace(s[|s| - b..]) && !IsWhitespace(s[|s| - b - 1])
    ensures TrailingWhitespace(s) == b
  {
    if b > 0 {
      assert s[|s| - b..][b - 1] == s[|s| - 1];
      var t := s[..|s| - 1];
      assert t[|t| - (b - 1)..] == s[|s| - b..|s| - 1];
      assert s[|s| - b..|s| - 1] == s[|s| - b..][..b - 1];
      assert t[|t| - (b - 1) - 1] == s[|s| - b - 1];
      TrailingWhitespaceAt(t, b - 1);
    }
  }

  /** The trim of a text with known whitespace margins. */
  lemma TrimExact(s: string, a: nat, b: nat)
    requires a + b < |s|
    requires AllWhitespace(s[..a]) && AllWhitespace(s[|s| - b..])
    requires !IsWhitespace(s[a]) && !IsWhitespace(s[|s| - b - 1])
    ensures Trim(s) == s[a..|s| - b]
  {
    LeadingWhitespaceAt(s, a);
    var t := s[a..];
    assert t[|t| - b..] == s[|s| - b..];
    TrailingWhitespaceAt(t, b);
  }

  /** `s.startsWith(p)`. */
  predicate StartsWith(s: string, p: string) {
    |p| <= |s| && s[..|p|] == p
  }

  /** `s.includes(t)`: `t` occurs in `s` at some offset. */
  predicate Contains(s: string, t: string) {
    exists i :: 0 <= i <= |s| - |t| && OccursAt(s, t, i)
  }

  /** `t` occurs in `s` starting at offset `i`. */
  predicate OccursAt(s: string, t: string, i: int) {
    0 <= i && i + |t| <= |s| && s[i..i + |t|] == t
  }

  /** A known occurrence witnesses `Contains`. */
  lemma ContainsWitness(s: string, t: string, i: int)
    requires OccursAt(s, t, i)
    ensures Contains(s, t)
  {
  }

  /** The position of the first `c` in `s`, if any. */
  function IndexOf(s: string, c: char): (r: Option<nat>)
    ensures r.None? <==> c !in s
    ensures r.Some? ==> r.value < |s| && s[r.value] == c && c !in s[..r.value]
  {
    if |s| == 0 then None
    else if s[0] == c then Some(0)
    else
      match IndexOf(s[1..], c)
      case None => None
      case Some(i) =>
        assert s[1..][..i] == s[1..i + 1];
        Some(i + 1)
  }

  /** `s.split(c)` for a one-character separator `c`. */
  function Split(s: string, c: char): (parts: seq<string>)
    ensures |parts| >= 1
    ensures forall k :: 0 <= k < |parts| ==> c !in parts[k]
    decreases |s|
  {
    match IndexOf(s, c)
    case None => [s]
    case Some(i) => [s[..i]] + Split(s[i + 1..], c)
  }

  /** `parts.join(c)`. */
  function Join(parts: seq<string>, c: char): string {
    if |parts| == 0 then ""
    else if |parts| == 1 then parts[0]
    else parts[0] + [c] + Join(parts[1..], c)
  }

  /** Joining the pieces of a split restores the original string. */
  lemma {:induction false} JoinSplit(s: string, c: char)
    ensures Join(Split(s, c), c) == s
    decreases |s|
  {
    match IndexOf(s, c)
    case None =>
    case Some(i) =>
      var rest := Split(s[i + 1..], c);
      var parts := [s[..i]] + rest;
      assert Split(s, c) == parts;
      assert parts[1..] == rest;
      JoinSplit(s[i + 1..], c);
      assert Join(parts, c) == s[..i] + [c] + Join(rest, c);
      assert s == s[..i] + [c] + s[i + 1..];
  }

  /** The pieces after the first one, joined again, are everything after the first `c`. */
  lemma SplitRest(s: string, c: char, i: nat)
    requires IndexOf(s, c) == Some(i)
    ensures Split(s, c)[0] == s[..i]
    ensures Join(Split(s, c)[1..], c) == s[i + 1..]
  {
    JoinSplit(s[i + 1..], c);
    assert Split(s, c)[1..] == Split(s[i + 1..], c);
  }

  /** The last piece of a split is the last piece of what follows the first separator. */
  lemma SplitLast(s: string, c: char, i: nat)
    requires IndexOf(s, c) == Some(i)
    ensures var parts, rest := Split(s, c), Split(s[i + 1..], c);
      parts[|parts| - 1] == rest[|rest| - 1]
  {
    var rest := Split(s[i + 1..], c);
    assert Split(s, c) == [s[..i]] + rest;
  }

  /** Splitting at a separator that does not occur gives the string back whole. */
  lemma SplitNoSeparator(s: string, c: char)
    requires c !in s
    ensures Split(s, c) == [s]
  {
  }

  /** Splitting `a + [c] + b`, where `a` has no `c`, puts `a` first and then the pieces of `b`. */
  lemma SplitAtSeparator(a: string, c: char, b: string)
    requires c !in a
    ensures Split(a + [c] + b, c) == [a] + Split(b, c)
  {
    var s := a + [c] + b;
    var i := |a|;
    assert s[i] == c && c !in s[..i] by { assert s[..i] == a; }
    assert IndexOf(s, c) == Some(i);
    assert s[..i] == a;
    assert s[i + 1..] == b;
  }

  function LowerChar(c: char): char {
    if 'A' <= c <= 'Z' then (c as int + 32) as char else c
  }

  /** `s.toLowerCase()` on ASCII letters; every other character is kept. */
  function ToLower(s: string): (r: string)
    ensures |r| == |s|
    ensures forall k :: 0 <= k < |s| ==> r[k] == LowerChar(s[k])
  {
    if |s| == 0 then "" else [LowerChar(s[0])] + ToLower(s[1..])
  }

  /** A text without capital letters is its own lower case. */
  lemma ToLowerOfLower(s: string)
    requires forall k :: 0 <= k < |s| ==> !('A' <= s[k] <= 'Z')
    ensures ToLower(s) == s
  {
    var r := ToLower(s);
    assert forall k :: 0 <= k < |s| ==> r[k] == s[k];
  }

  /** Lower-casing is idempotent. */
  lemma ToLowerIdempotent(s: string)
    ensures ToLower(ToLower(s)) == ToLower(s)
  {
  }
}
