/** Vessel-name normalisation: a name becomes its maximal alphanumeric runs, in upper case,
    separated by single spaces. */
module Normalizer {
  import opened Wrappers
  import opened Text

  predicate Kept(c: char) { 'A' <= c <= 'Z' || '0' <= c <= '9' }

  predicate Separates(c: char) { !Kept(c) }

  function Normalize(name: Option<string>): string {
    if name.None? || name.value == [] then ""
    else
      var s := Upper(Strip(name.value));
      Strip(Squeeze(Squeeze(s, Separates), IsSpace))
  }

  type UnitReal = r: real | 0.0 <= r <= 1.0 witness 0.0

  /** `ratio` is the library's sequence similarity, about which nothing else is assumed. */
  function Similarity(name1: Option<string>, name2: Option<string>, ratio: (string, string) -> UnitReal): UnitReal {
    if name1.None? || name2.None? || name1.value == [] || name2.value == [] then 0.0
    else if Upper(Strip(name1.value)) == Upper(Strip(name2.value)) then 1.0
    else if Normalize(name1) == Normalize(name2) then 0.99
    else ratio(Normalize(name1), Normalize(name2))
  }

  // ---------------------------------------------------------------- reference: runs and their join

  /** The maximal alphanumeric runs of an upper-case string. */
  function Runs(s: string): (r: seq<string>)
    ensures WordList(r)
    decreases |s|
  {
    if s == [] then []
    else if !Kept(s[0]) then Runs(s[1..])
    else var n := Span(s, Kept); [s[..n]] + Runs(s[n..])
  }

  /** The runs of any name, case ignored. */
  function NameRuns(name: string): seq<string> { Runs(Upper(name)) }

  ghost predicate WordList(r: seq<string>) {
    forall i :: 0 <= i < |r| ==> r[i] != [] && forall k :: 0 <= k < |r[i]| ==> Kept(r[i][k])
  }

  function Join(r: seq<string>): string {
    if r == [] then [] else if |r| == 1 then r[0] else r[0] + " " + Join(r[1..])
  }

  /** Only A-Z, 0-9 and single inner spaces. */
  ghost predicate Normal(s: string) {
    && (forall k :: 0 <= k < |s| ==> Kept(s[k]) || s[k] == ' ')
    && (s != [] ==> s[0] != ' ' && s[|s| - 1] != ' ')
    && (forall k :: 0 <= k < |s| - 1 ==> s[k] != ' ' || s[k + 1] != ' ')
  }

  lemma {:induction false} JoinIsNormal(r: seq<string>)
    requires WordList(r)
    ensures Normal(Join(r)) && (r != [] ==> Join(r) != [])
  {
    if |r| > 1 {
      JoinIsNormal(r[1..]);
      assert Join(r) == r[0] + " " + Join(r[1..]);
    }
  }

  lemma {:induction false} SpanOfPrefix(w: string, s: string)
    requires forall k :: 0 <= k < |w| ==> Kept(w[k])
    requires s == [] || !Kept(s[0])
    ensures Span(w + s, Kept) == |w|
  {
    assert forall k :: 0 <= k < |w| ==> (w + s)[k] == w[k];
    assert s != [] ==> (w + s)[|w|] == s[0];
  }

  lemma {:induction false} RunsOfJoin(r: seq<string>)
    requires WordList(r)
    ensures Runs(Join(r)) == r
  {
    if r == [] {
    } else if |r| == 1 {
      SpanOfPrefix(r[0], []);
      assert r[0] + [] == r[0];
    } else {
      RunsOfJoin(r[1..]);
      var rest := " " + Join(r[1..]);
      assert Join(r) == r[0] + rest;
      SpanOfPrefix(r[0], rest);
      assert rest[1..] == Join(r[1..]);
      assert (r[0] + rest)[|r[0]|..] == rest;
      assert (r[0] + rest)[..|r[0]|] == r[0];
    }
  }

  // ---------------------------------------------------------------- the code meets the reference

  lemma {:induction false} RunsSkipSeparators(s: string, n: nat)
    requires n <= |s| && forall k :: 0 <= k < n ==> !Kept(s[k])
    ensures Runs(s) == Runs(s[n..])
  {
    if n > 0 { RunsSkipSeparators(s[1..], n - 1); assert s[1..][n - 1..] == s[n..]; }
  }

  lemma {:induction false} RunsIgnoreTrailing(s: string, n: nat)
    requires n <= |s| && forall k :: n <= k < |s| ==> !Kept(s[k])
    ensures Runs(s[..n]) == Runs(s)
    decreases |s|
  {
    if n == 0 {
      RunsSkipSeparators(s, |s|);
    } else if !Kept(s[0]) {
      RunsIgnoreTrailing(s[1..], n - 1);
      assert s[1..][..n - 1] == s[..n][1..];
    } else {
      var m := Span(s, Kept);
      assert Kept(s[m - 1]);
      RunsIgnoreTrailing(s[m..], n - m);
      FirstRunOfPrefix(s, m, n);
    }
  }

  lemma FirstRunOfPrefix(s: string, m: nat, n: nat)
    requires 0 < m == Span(s, Kept) && m <= n <= |s|
    ensures Runs(s[..n]) == [s[..m]] + Runs(s[m..][..n - m]) && Runs(s) == [s[..m]] + Runs(s[m..])
  {
    assert s[..n] == s[..m] + s[m..n];
    SpanOfPrefix(s[..m], s[m..n]);
    assert s[m..][..n - m] == s[m..n] == s[..n][m..] && s[..n][..m] == s[..m];
    assert s[..n][0] == s[0];
  }

  lemma StripKeepsRuns(s: string)
    ensures NameRuns(Strip(s)) == NameRuns(s)
  {
    var n := Span(s, IsSpace);
    var left := StripLeft(s);
    RunsSkipSeparators(Upper(s), n);
    assert Upper(s)[n..] == Upper(left);
    var m := |Strip(s)|;
    RunsIgnoreTrailing(Upper(left), m);
    assert Upper(left)[..m] == Upper(Strip(s));
  }

  function Lead(s: string): string { if s != [] && !Kept(s[0]) then " " else "" }

  function Trail(s: string): string { if Runs(s) != [] && !Kept(s[|s| - 1]) then " " else "" }

  /** Squeezing separators leaves the joined runs, with at most one space on either side. */
  lemma {:induction false} SqueezeIsPaddedJoin(s: string)
    ensures Squeeze(s, Separates) == Lead(s) + Join(Runs(s)) + Trail(s)
    decreases |s|
  {
    if s == [] {
    } else if Separates(s[0]) {
      var n := Span(s, Separates);
      PadsOfSeparator(s, n);
      assert Squeeze(s, Separates) == " " + Squeeze(s[n..], Separates);
      SqueezeIsPaddedJoin(s[n..]);
    } else {
      var n := Span(s, Kept);
      SqueezeWord(s);
      PadsOfWord(s, n);
      SqueezeIsPaddedJoin(s[n..]);
    }
  }

  lemma {:induction false} RunsOfSeparator(s: string, n: nat)
    requires s != [] && Separates(s[0]) && n == Span(s, Separates)
    ensures Lead(s) == " " && Lead(s[n..]) == "" && Runs(s) == Runs(s[n..]) && Trail(s) == Trail(s[n..])
  {
    RunsSkipSeparators(s, n);
  }

  lemma {:induction false} PadsOfSeparator(s: string, n: nat)
    requires s != [] && Separates(s[0]) && n == Span(s, Separates)
    ensures Lead(s) + Join(Runs(s)) + Trail(s) == " " + (Lead(s[n..]) + Join(Runs(s[n..])) + Trail(s[n..]))
  {
    RunsOfSeparator(s, n);
    var j := Join(Runs(s));
    Regroup(" ", "", j, Trail(s));
    assert " " + "" + j == " " + j;
  }

  lemma Regroup(w: string, a: string, j: string, b: string)
    ensures (w + a + j) + b == w + (a + j + b)
    ensures "" + w == w == w + ""
  {
  }

  lemma {:induction false} RunsOfWord(s: string, n: nat)
    requires s != [] && Kept(s[0]) && n == Span(s, Kept)
    ensures if Runs(s[n..]) == [] then Join(Runs(s)) == s[..n] && Trail(s) == Lead(s[n..]) && Trail(s[n..]) == ""
            else Join(Runs(s)) == s[..n] + " " + Join(Runs(s[n..])) && Trail(s) == Trail(s[n..]) && Lead(s[n..]) == " "
  {
    var rest := s[n..];
    if Runs(rest) == [] {
      AllSeparators(rest);
      assert Runs(s) == [s[..n]];
    } else {
      assert Runs(s)[1..] == Runs(rest);
    }
  }

  lemma {:induction false} PadsOfWord(s: string, n: nat)
    requires s != [] && Kept(s[0]) && n == Span(s, Kept)
    ensures Lead(s) + Join(Runs(s)) + Trail(s) == s[..n] + (Lead(s[n..]) + Join(Runs(s[n..])) + Trail(s[n..]))
  {
    RunsOfWord(s, n);
    var w, a, j, b := s[..n], Lead(s[n..]), Join(Runs(s[n..])), Trail(s[n..]);
    Regroup(w, a, j, b);
    Regroup(Join(Runs(s)), "", "", "");
    Regroup(a, "", "", "");
  }

  lemma {:induction false} AllSeparators(s: string)
    requires Runs(s) == []
    ensures forall k :: 0 <= k < |s| ==> !Kept(s[k])
    decreases |s|
  {
    if s != [] { AllSeparators(s[1..]); }
  }

  lemma SpanOfTail(s: string)
    requires s != [] && Kept(s[0])
    ensures Span(s, Kept) == 1 + Span(s[1..], Kept)
    ensures s[1..][Span(s[1..], Kept)..] == s[Span(s, Kept)..]
    ensures s[..Span(s, Kept)] == [s[0]] + s[1..][..Span(s[1..], Kept)]
  {
  }

  lemma {:induction false} SqueezeWord(s: string)
    ensures Squeeze(s, Separates) == s[..Span(s, Kept)] + Squeeze(s[Span(s, Kept)..], Separates)
    decreases |s|
  {
    if s == [] || !Kept(s[0]) {
      assert s[..0] == [] && s[0..] == s;
    } else {
      SqueezeWord(s[1..]);
      SpanOfTail(s);
      SqueezeHead(s);
    }
  }

  lemma SqueezeHead(s: string)
    requires s != [] && Kept(s[0])
    ensures Squeeze(s, Separates) == [s[0]] + Squeeze(s[1..], Separates)
  {
  }

  /** The second substitution finds nothing to collapse. */
  lemma {:induction false} CollapseIsIdentity(s: string)
    requires forall k :: 0 <= k < |s| ==> IsSpace(s[k]) ==> s[k] == ' '
    requires forall k :: 0 <= k < |s| - 1 ==> s[k] != ' ' || s[k + 1] != ' '
    ensures Squeeze(s, IsSpace) == s
    decreases |s|
  {
    if s != [] {
      if IsSpace(s[0]) { assert Span(s[1..], IsSpace) == 0; assert Span(s, IsSpace) == 1; }
      CollapseIsIdentity(s[1..]);
    }
  }

  lemma StripLeftPadded(a: string, t: string)
    requires (a == "" || a == " ") && (t == [] || !IsSpace(t[0]))
    ensures StripLeft(a + t) == t
  {
    if a == " " {
      assert (a + t)[1..] == t && Span(a + t, IsSpace) == 1 + Span(t, IsSpace);
    } else {
      assert a + t == t;
    }
  }

  lemma StripRightPadded(j: string, b: string)
    requires (b == "" || b == " ") && (j == [] || !IsSpace(j[|j| - 1]))
    ensures StripRight(j + b) == j
  {
    if b == " " { assert (j + b)[..|j + b| - 1] == j; } else { assert j + b == j; }
  }

  lemma StripPadded(a: string, j: string, b: string)
    requires (a == "" || a == " ") && (b == "" || b == " ") && (j == [] ==> b == "")
    requires j != [] ==> !IsSpace(j[0]) && !IsSpace(j[|j| - 1])
    ensures Strip(a + j + b) == j
  {
    assert a + j + b == a + (j + b);
    assert j + b != [] ==> (j + b)[0] == j[0];
    StripLeftPadded(a, j + b);
    StripRightPadded(j, b);
  }

  lemma PaddedJoinIsCollapsed(a: string, j: string, b: string)
    requires (a == "" || a == " ") && (b == "" || b == " ") && Normal(j) && (j == [] ==> b == "")
    ensures Strip(Squeeze(a + j + b, IsSpace)) == j
  {
    var t := a + j + b;
    forall k | 0 <= k < |t| ensures IsSpace(t[k]) ==> t[k] == ' ' {
      if |a| <= k < |a| + |j| { assert t[k] == j[k - |a|]; }
    }
    forall k | 0 <= k < |t| - 1 ensures t[k] != ' ' || t[k + 1] != ' ' {
      if |a| <= k < |a| + |j| { assert t[k] == j[k - |a|]; }
      if |a| <= k + 1 < |a| + |j| { assert t[k + 1] == j[k + 1 - |a|]; }
    }
    CollapseIsIdentity(t);
    StripPadded(a, j, b);
  }

  /** The code computes the joined runs, for every name. */
  lemma NormalizeIsJoinedRuns(name: string)
    ensures Normalize(Some(name)) == Join(NameRuns(name))
  {
    if name != [] {
      var s := Upper(Strip(name));
      StripKeepsRuns(name);
      SqueezeIsPaddedJoin(s);
      JoinIsNormal(Runs(s));
      PaddedJoinIsCollapsed(Lead(s), Join(Runs(s)), Trail(s));
    }
  }

  /** Past its first word and the space after it, a normal string is normal. */
  lemma NormalTail(s: string, n: nat)
    requires Normal(s) && n == Span(s, Kept) && n < |s|
    ensures 0 < n && n + 1 < |s| && s[n] == ' ' && Kept(s[n + 1]) && Normal(s[n + 1..])
  {
    assert s[n] == ' ' && s[0] != ' ';
    var rest := s[n + 1..];
    assert forall k :: 0 <= k < |rest| ==> rest[k] == s[k + n + 1];
  }

  lemma FirstWordAndRest(s: string, n: nat)
    requires n == Span(s, Kept) && 0 < n && n + 1 < |s| && s[n] == ' ' && Kept(s[n + 1])
    ensures Runs(s) == [s[..n]] + Runs(s[n + 1..]) && Runs(s[n + 1..]) != []
  {
    assert s[n..][1..] == s[n + 1..];
    assert Runs(s[n..]) == Runs(s[n + 1..]);
    assert s[n + 1..][0] == s[n + 1];
  }

  lemma Rejoin(s: string, n: nat, r: seq<string>)
    requires n + 1 < |s| && s[n] == ' ' && r != [] && Join(r) == s[n + 1..]
    ensures Join([s[..n]] + r) == s
  {
    JoinOfMore(s[..n], r);
    assert s == s[..n] + " " + s[n + 1..];
  }

  lemma SingleWord(s: string)
    requires s != [] && Span(s, Kept) == |s|
    ensures Runs(s) == [s]
  {
    assert s[..|s|] == s && s[|s|..] == [] && Kept(s[0]);
  }

  lemma {:induction false} NormalIsJoin(s: string)
    requires Normal(s)
    ensures Join(Runs(s)) == s
    decreases |s|
  {
    var n := Span(s, Kept);
    if n < |s| {
      NormalTail(s, n);
      NormalIsJoin(s[n + 1..]);
      FirstWordAndRest(s, n);
      Rejoin(s, n, Runs(s[n + 1..]));
    } else if s != [] {
      SingleWord(s);
    }
  }

  lemma JoinOfMore(w: string, r: seq<string>)
    requires r != []
    ensures Join([w] + r) == w + " " + Join(r)
  {
    assert ([w] + r)[1..] == r;
  }

  /** Normalisation reaches a normal form and changes exactly what is not in normal form. */
  lemma NormalFormIsReached(name: string)
    ensures Normal(Normalize(Some(name)))
    ensures Normalize(Some(name)) == name <==> Normal(name)
    ensures Normalize(Some(Normalize(Some(name)))) == Normalize(Some(name))
  {
    NormalizeIsJoinedRuns(name);
    JoinIsNormal(NameRuns(name));
    NormalIsFixed(Normalize(Some(name)));
    if Normal(name) { NormalIsFixed(name); }
  }

  lemma NormalIsFixed(s: string)
    requires Normal(s)
    ensures Normalize(Some(s)) == s
  {
    NormalizeIsJoinedRuns(s);
    assert Upper(s) == s;
    NormalIsJoin(s);
  }

  /** Two names get the same normal form exactly when their runs agree, case ignored. */
  lemma SameNormalFormIffSameRuns(name1: string, name2: string)
    ensures Normalize(Some(name1)) == Normalize(Some(name2)) <==> NameRuns(name1) == NameRuns(name2)
  {
    NormalizeIsJoinedRuns(name1);
    NormalizeIsJoinedRuns(name2);
    RunsOfJoin(NameRuns(name1));
    RunsOfJoin(NameRuns(name2));
  }

  /** Two recorded names are alike in full when they agree but for case and outer blanks, all but in full when their
      runs do, and otherwise as the library says. A missing or empty name is like no other. */
  lemma SimilarityIs(name1: string, name2: string, ratio: (string, string) -> UnitReal)
    ensures Similarity(None, Some(name2), ratio) == Similarity(Some(name1), None, ratio) == 0.0
    ensures name1 == "" || name2 == "" ==> Similarity(Some(name1), Some(name2), ratio) == 0.0
    ensures name1 != "" && name2 != "" && Upper(Strip(name1)) == Upper(Strip(name2)) ==>
              Similarity(Some(name1), Some(name2), ratio) == 1.0
    ensures name1 != "" && name2 != "" && Upper(Strip(name1)) != Upper(Strip(name2)) ==>
              var r1, r2 := NameRuns(name1), NameRuns(name2);
              Similarity(Some(name1), Some(name2), ratio) == if r1 == r2 then 0.99 else ratio(Join(r1), Join(r2))
  {
    SameNormalFormIffSameRuns(name1, name2);
    NormalizeIsJoinedRuns(name1);
    NormalizeIsJoinedRuns(name2);
  }
}
