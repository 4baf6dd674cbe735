/** ASCII text: the string methods that the identity and ingestion services use. */
module Text {

  predicate IsSpace(c: char) { c == ' ' || 9 <= c as int <= 13 || 28 <= c as int <= 31 }

  function UpperChar(c: char): char {
    if 'a' <= c <= 'z' then c - 'a' + 'A' else c
  }

  function Upper(s: string): (r: string)
    ensures |r| == |s| && forall k :: 0 <= k < |s| ==> r[k] == UpperChar(s[k])
  {
    seq(|s|, k requires 0 <= k < |s| => UpperChar(s[k]))
  }

  /** How many leading characters satisfy `p`. */
  function Span(s: string, p: char -> bool): (n: nat)
    ensures n <= |s|
    ensures forall k :: 0 <= k < n ==> p(s[k])
    ensures n < |s| ==> !p(s[n])
  {
    if s == [] || !p(s[0]) then 0 else 1 + Span(s[1..], p)
  }

  function StripLeft(s: string): string { s[Span(s, IsSpace)..] }

  function StripRight(s: string): (r: string)
    ensures r <= s
    ensures r == [] || !IsSpace(r[|r| - 1])
    ensures forall k :: |r| <= k < |s| ==> IsSpace(s[k])
  {
    if s == [] || !IsSpace(s[|s| - 1]) then s else StripRight(s[..|s| - 1])
  }

  function Strip(s: string): string { StripRight(StripLeft(s)) }

  /** `re.sub` of one or more characters satisfying `p` by a single space. */
  function Squeeze(s: string, p: char -> bool): string
    decreases |s|
  {
    if s == [] then []
    else if p(s[0]) then " " + Squeeze(s[Span(s, p)..], p)
    else [s[0]] + Squeeze(s[1..], p)
  }

  predicate Contains(s: string, part: string) { exists i :: 0 <= i <= |s| && part <= s[i..] }

  const LOWER := "abcdefghijklmnopqrstuvwxyz"
  const UPPER := "ABCDEFGHIJKLMNOPQRSTUVWXYZ"

  /** Each lower-case letter goes to its capital, and every other character stays. */
  lemma UpperIsCapital(c: char)
    ensures forall k :: 0 <= k < 26 ==> UpperChar(LOWER[k]) == UPPER[k]
    ensures c !in LOWER ==> UpperChar(c) == c
  {
    if 'a' <= c <= 'z' { assert LOWER[c as int - 97] == c; }
  }

  /** White space is the blank, the layout characters from tab to carriage return, and the four separators. */
  lemma SpacesAre(c: char)
    ensures IsSpace(c) <==> c as int in {9, 10, 11, 12, 13, 28, 29, 30, 31, 32}
  {
  }

  lemma StripLeftIsSuffix(s: string)
    ensures s == s[..Span(s, IsSpace)] + StripLeft(s)
    ensures forall k :: 0 <= k < Span(s, IsSpace) ==> IsSpace(s[k])
    ensures StripLeft(s) != [] ==> !IsSpace(StripLeft(s)[0])
  {
  }

  lemma StripRightIsPrefix(s: string)
    ensures s == StripRight(s) + s[|StripRight(s)|..]
    ensures forall k :: |StripRight(s)| <= k < |s| ==> IsSpace(s[k])
  {
  }

  /** Stripping removes white space at the ends, all of it and nothing else. */
  lemma StripIsBetweenSpaces(s: string) returns (before: string, after: string)
    ensures s == before + Strip(s) + after
    ensures (forall k :: 0 <= k < |before| ==> IsSpace(before[k])) && forall k :: 0 <= k < |after| ==> IsSpace(after[k])
    ensures Strip(s) != [] ==> !IsSpace(Strip(s)[0]) && !IsSpace(Strip(s)[|Strip(s)| - 1])
  {
    var rest := StripLeft(s);
    StripLeftIsSuffix(s);
    StripRightIsPrefix(rest);
    before, after := s[..Span(s, IsSpace)], rest[|StripRight(rest)|..];
  }
}
