/** Which of two records survives a merge, and the columns it is given. */
module Survivorship {
  import opened Text
  import opened Vessels

  datatype Rule = TextClean | FirstNonNull | MaxNumeric

  const COMPARABLE: seq<(string, Rule)> := [
    ("vessel_name", TextClean), ("imo_number", FirstNonNull), ("vcn", FirstNonNull),
    ("vessel_type", FirstNonNull), ("vessel_size_teu", MaxNumeric), ("flag", FirstNonNull),
    ("last_port_of_call", FirstNonNull), ("next_port_of_call", FirstNonNull),
    ("port_of_lading", FirstNonNull), ("port_of_discharge", FirstNonNull),
    ("reason_for_visit", FirstNonNull), ("cargo_type", FirstNonNull), ("commodity", FirstNonNull),
    ("quantity_value", MaxNumeric), ("quantity_unit", FirstNonNull), ("grt", MaxNumeric),
    ("loa_value", MaxNumeric), ("dwt", MaxNumeric), ("forward_draft_value", MaxNumeric),
    ("aft_draft_value", MaxNumeric), ("call_sign", FirstNonNull)]

  predicate Present(v: Value) { v != Null && v != Words("") }

  predicate Unclean(name: string) { '-' in name || '.' in name }

  /** How many of the first `n` of some columns are filled. */
  function Filled(columns: seq<(string, Rule)>, call: VesselCall, n: nat): nat
    requires n <= |columns|
  {
    if n == 0 then 0 else Filled(columns, call, n - 1) + if Present(Column(call, columns[n - 1].0)) then 1 else 0
  }

  function Completeness(call: VesselCall): int {
    Filled(COMPARABLE, call, |COMPARABLE|) - if NameOf(call).Some? && Unclean(NameOf(call).value) then 2 else 0
  }

  /** The columns that are neither missing nor empty. */
  ghost function FilledColumns(columns: seq<(string, Rule)>, call: VesselCall, n: nat): set<string>
    requires n <= |columns|
  {
    set i | 0 <= i < n && Column(call, columns[i].0) !in {Null, Words("")} :: columns[i].0
  }

  lemma {:induction false} FilledIsSize(columns: seq<(string, Rule)>, call: VesselCall, n: nat)
    requires n <= |columns| && NamedOnce(columns)
    ensures Filled(columns, call, n) == |FilledColumns(columns, call, n)|
  {
    if n > 0 {
      FilledIsSize(columns, call, n - 1);
      var name := columns[n - 1].0;
      assert name !in FilledColumns(columns, call, n - 1);
      assert FilledColumns(columns, call, n) == FilledColumns(columns, call, n - 1)
                                                + if Column(call, name) !in {Null, Words("")} then {name} else {};
    }
  }

  /** Two less for a name with a hyphen or a full stop. */
  ghost predicate MoreComplete(v1: VesselCall, v2: VesselCall) {
    |FilledColumns(COMPARABLE, v1, |COMPARABLE|)| - (if HasSeparator(v1) then 2 else 0)
      > |FilledColumns(COMPARABLE, v2, |COMPARABLE|)| - (if HasSeparator(v2) then 2 else 0)
  }

  predicate HasSeparator(call: VesselCall) {
    NameOf(call).Some? && exists k :: 0 <= k < |NameOf(call).value| && NameOf(call).value[k] in "-."
  }

  lemma SurvivesUnlessLessComplete(v1: VesselCall, v2: VesselCall)
    ensures FirstSurvives(v1, v2) <==> !MoreComplete(v2, v1)
  {
    ComparableAreNamedOnce();
    FilledIsSize(COMPARABLE, v1, |COMPARABLE|);
    FilledIsSize(COMPARABLE, v2, |COMPARABLE|);
    SeparatorIsUnclean(v1);
    SeparatorIsUnclean(v2);
  }

  lemma SeparatorIsUnclean(call: VesselCall)
    ensures HasSeparator(call) <==> NameOf(call).Some? && Unclean(NameOf(call).value)
  {
  }

  /** The first record survives unless the second one is strictly more complete. */
  method DetermineSurvivor(v1: VesselCall, v2: VesselCall) returns (first: bool)
    ensures first <==> !MoreComplete(v2, v1)
    ensures first == FirstSurvives(v1, v2)
  {
    SurvivesUnlessLessComplete(v1, v2);
    var score1, score2 := 0, 0;
    for i := 0 to |COMPARABLE|
      invariant score1 == Filled(COMPARABLE, v1, i) && score2 == Filled(COMPARABLE, v2, i)
    {
      if Present(Column(v1, COMPARABLE[i].0)) { score1 := score1 + 1; }
      if Present(Column(v2, COMPARABLE[i].0)) { score2 := score2 + 1; }
    }
    if NameOf(v1).Some? && Unclean(NameOf(v1).value) { score1 := score1 - 2; }
    if NameOf(v2).Some? && Unclean(NameOf(v2).value) { score2 := score2 - 2; }
    first := score1 >= score2;
  }

  predicate FirstSurvives(v1: VesselCall, v2: VesselCall) { Completeness(v1) >= Completeness(v2) }

  predicate Ragged(s: string) { '-' in s || (s != [] && s[|s| - 1] == '.') }

  /** Numeric columns hold numbers; a text there is not convertible and falls to the default. */
  function ResolveField(rule: Rule, v1: Value, v2: Value): Value {
    if v1 == Null then v2
    else if v2 == Null || v1 == v2 then v1
    else match (rule, v1, v2)
      case (TextClean, Words(s1), Words(s2)) => if Ragged(Strip(s1)) && !Ragged(Strip(s2)) then v2 else v1
      case (MaxNumeric, Number(n1), Number(n2)) => if n1 >= n2 then v1 else v2
      case _ => v1
  }

  /** The consolidated value is one of the two, is lost only when both are, and does not depend
      on the order of the records where the rule is a maximum. */
  lemma ResolveFieldChooses(rule: Rule, v1: Value, v2: Value)
    ensures ResolveField(rule, v1, v2) in {v1, v2}
    ensures ResolveField(rule, v1, v2) == Null <==> v1 == v2 == Null
    ensures rule.MaxNumeric? && v1.Number? && v2.Number? ==>
              ResolveField(rule, v1, v2) == ResolveField(rule, v2, v1)
              && ResolveField(rule, v1, v2).number >= v1.number && ResolveField(rule, v1, v2).number >= v2.number
  {
  }

  /** A missing value gives way to any other. Of two values the first is kept, but for a ragged text beside one that is
      not, and for a smaller number where the larger counts. */
  lemma ResolveFieldPrefers(rule: Rule, v1: Value, v2: Value)
    ensures v1 == Null ==> ResolveField(rule, v1, v2) == v2
    ensures v2 == Null ==> ResolveField(rule, v1, v2) == v1
    ensures v1 != Null && v2 != Null && v1 != v2 ==>
              (ResolveField(rule, v1, v2) == v2
               <==> (rule.TextClean? && v1.Words? && v2.Words? && RaggedText(v1.text) && !RaggedText(v2.text))
                    || (rule.MaxNumeric? && v1.Number? && v2.Number? && v1.number < v2.number))
  {
    if v1.Words? { RaggedIs(v1.text); }
    if v2.Words? { RaggedIs(v2.text); }
  }

  lemma RaggedIs(s: string)
    ensures Ragged(Strip(s)) <==> RaggedText(s)
  {
    if Strip(s) != [] && Strip(s)[|Strip(s)| - 1] == '.' {
      assert Strip(s) == Strip(s)[..|Strip(s)| - 1] + ".";
    }
  }

  /** A hyphen anywhere, or a full stop at the end, outer blanks apart. */
  ghost predicate RaggedText(s: string) { '-' in Strip(s) || (exists t :: Strip(s) == t + ".") }

  ghost predicate IsComparable(name: string) { exists i :: 0 <= i < |COMPARABLE| && COMPARABLE[i].0 == name }

  function Resolved(column: (string, Rule), v1: VesselCall, v2: VesselCall): Value {
    ResolveField(column.1, Column(v1, column.0), Column(v2, column.0))
  }

  /** The first `n` columns, resolved. */
  function Preview(columns: seq<(string, Rule)>, v1: VesselCall, v2: VesselCall, n: nat): Columns
    requires n <= |columns|
  {
    if n == 0 then map[] else Preview(columns, v1, v2, n - 1)[columns[n - 1].0 := Resolved(columns[n - 1], v1, v2)]
  }

  function Consolidated(v1: VesselCall, v2: VesselCall): Columns { Preview(COMPARABLE, v1, v2, |COMPARABLE|) }

  /** A preview of the first `n` of some columns, column by column. */
  ghost predicate Previews(consolidated: Columns, columns: seq<(string, Rule)>, v1: VesselCall, v2: VesselCall, n: nat)
    requires n <= |columns|
  {
    && (forall name :: name in consolidated <==> exists i :: 0 <= i < n && columns[i].0 == name)
    && (forall i :: 0 <= i < n ==>
        columns[i].0 in consolidated && consolidated[columns[i].0] == Resolved(columns[i], v1, v2))
  }

  ghost predicate NamedOnce(columns: seq<(string, Rule)>) {
    forall i, j :: 0 <= i < j < |columns| ==> columns[i].0 != columns[j].0
  }

  lemma ComparableAreNamedOnce()
    ensures NamedOnce(COMPARABLE)
  {
  }

  lemma PreviewGrows(consolidated: Columns, columns: seq<(string, Rule)>, v1: VesselCall, v2: VesselCall, n: nat,
                     next: nat)
    requires NamedOnce(columns) && n < |columns| && next == n + 1 && Previews(consolidated, columns, v1, v2, n)
    ensures Previews(consolidated[columns[n].0 := Resolved(columns[n], v1, v2)], columns, v1, v2, next)
  {
  }

  /** What merging uses: exactly the given columns, each with its resolved value. */
  lemma {:induction false} PreviewIs(columns: seq<(string, Rule)>, v1: VesselCall, v2: VesselCall, n: nat)
    requires NamedOnce(columns) && n <= |columns|
    ensures Previews(Preview(columns, v1, v2, n), columns, v1, v2, n)
  {
    if n > 0 {
      PreviewIs(columns, v1, v2, n - 1);
      PreviewGrows(Preview(columns, v1, v2, n - 1), columns, v1, v2, n - 1, n);
    }
  }

  lemma ConsolidatedIs(v1: VesselCall, v2: VesselCall)
    ensures Previews(Consolidated(v1, v2), COMPARABLE, v1, v2, |COMPARABLE|)
  {
    ComparableAreNamedOnce();
    PreviewIs(COMPARABLE, v1, v2, |COMPARABLE|);
  }

  /** Exactly the comparable columns, each with the value its rule resolves from the two records. */
  method GeneratePreview(v1: VesselCall, v2: VesselCall) returns (consolidated: Columns)
    ensures forall name :: name in consolidated <==> IsComparable(name)
    ensures forall i :: 0 <= i < |COMPARABLE| ==>
              var (name, rule) := COMPARABLE[i];
              name in consolidated && consolidated[name] == ResolveField(rule, Column(v1, name), Column(v2, name))
    ensures consolidated == Consolidated(v1, v2)
  {
    consolidated := map[];
    for i := 0 to |COMPARABLE|
      invariant consolidated == Preview(COMPARABLE, v1, v2, i)
    {
      var name := COMPARABLE[i].0;
      consolidated := consolidated[name := ResolveField(COMPARABLE[i].1, Column(v1, name), Column(v2, name))];
    }
    ConsolidatedIs(v1, v2);
  }

  // ---------------------------------------------------------------- agreeing records

  ghost predicate Agree(v1: VesselCall, v2: VesselCall) {
    forall i :: 0 <= i < |COMPARABLE| ==> Column(v1, COMPARABLE[i].0) == Column(v2, COMPARABLE[i].0)
  }

  lemma {:induction false} AgreeingAreEquallyFilled(v1: VesselCall, v2: VesselCall, n: nat)
    requires n <= |COMPARABLE| && Agree(v1, v2)
    ensures Filled(COMPARABLE, v1, n) == Filled(COMPARABLE, v2, n)
  {
    if n > 0 { AgreeingAreEquallyFilled(v1, v2, n - 1); }
  }

  lemma {:induction false} PreviewOfAgreeing(v1: VesselCall, v2: VesselCall, n: nat)
    requires n <= |COMPARABLE| && Agree(v1, v2)
    ensures forall name :: name in Preview(COMPARABLE, v1, v2, n) ==>
              Preview(COMPARABLE, v1, v2, n)[name] == Column(v1, name)
  {
    if n > 0 {
      PreviewOfAgreeing(v1, v2, n - 1);
      assert COMPARABLE[n - 1].0 in Preview(COMPARABLE, v1, v2, n);
    }
  }

  /** Of two agreeing records the first survives, and its columns read as before. */
  lemma AgreeingKeepTheFirst(v1: VesselCall, v2: VesselCall, name: string)
    requires Agree(v1, v2)
    ensures FirstSurvives(v1, v2) && FirstSurvives(v2, v1)
    ensures Column(VesselCall(v1.columns + Consolidated(v1, v2), v1.merged, v1.mergedInto), name) == Column(v1, name)
  {
    AgreeingAreEquallyFilled(v1, v2, |COMPARABLE|);
    assert COMPARABLE[0].0 == "vessel_name";
    PreviewOfAgreeing(v1, v2, |COMPARABLE|);
  }
}
