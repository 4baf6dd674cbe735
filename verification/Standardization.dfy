/** Row normalisation: columns renamed to their canonical names, and conflicting duplicates kept beside them. */
module Standardization {

  datatype Value = Null | Text(text: string)

  /** One cell; a row lists its cells in column order, each column once. */
  datatype Cell = Cell(column: string, value: Value)

  predicate Blank(v: Value) { v.Null? || v.text == "" }

  // ---- The names of alternates ----

  function Digit(n: nat): char
    requires n < 10
  {
    "0123456789"[n]
  }

  function Decimal(n: nat): string {
    if n < 10 then [Digit(n)] else Decimal(n / 10) + [Digit(n % 10)]
  }

  function Alternate(base: string, k: nat): string { base + "__source_" + Decimal(k) }

  ghost predicate IsAlternate(name: string) { exists base: string, k: nat :: k >= 2 && name == Alternate(base, k) }

  lemma {:induction false} DecimalHasNoUnderscore(n: nat)
    ensures Decimal(n) != [] && '_' !in Decimal(n)
  {
    if n >= 10 { DecimalHasNoUnderscore(n / 10); }
  }

  lemma {:induction false} DecimalIsInjective(m: nat, n: nat)
    requires Decimal(m) == Decimal(n)
    ensures m == n
  {
    DecimalHasNoUnderscore(m / 10);
    DecimalHasNoUnderscore(n / 10);
    var s := Decimal(m);
    if m >= 10 && n >= 10 {
      assert Decimal(m / 10) == s[..|s| - 1] == Decimal(n / 10);
      DecimalIsInjective(m / 10, n / 10);
      assert s[|s| - 1] == Digit(m % 10) == Digit(n % 10);
    } else {
      assert |s| == 1;
      assert s[0] == Digit(m % 10) == Digit(n % 10);
    }
  }

  lemma LastUnderscoreSplits(a: string, x: string, b: string, y: string)
    requires '_' !in x && '_' !in y && a + "_" + x == b + "_" + y
    ensures a == b && x == y
  {
    var s := a + "_" + x;
    assert s[|a|] == '_' && s[|b|] == '_';
    assert forall i :: |a| < i < |s| ==> s[i] == x[i - |a| - 1] && s[i] != '_';
    assert forall i :: |b| < i < |s| ==> s[i] == y[i - |b| - 1] && s[i] != '_';
    assert |a| == |b|;
    assert a == s[..|a|] == b && x == s[|a| + 1..] == y;
  }

  /** An alternate name tells its base and its number. */
  lemma AlternateIsInjective(b: string, j: nat, c: string, k: nat)
    requires Alternate(b, j) == Alternate(c, k)
    ensures b == c && j == k
  {
    DecimalHasNoUnderscore(j);
    DecimalHasNoUnderscore(k);
    assert Alternate(b, j) == b + "__source" + "_" + Decimal(j) && Alternate(c, k) == c + "__source" + "_" + Decimal(k);
    LastUnderscoreSplits(b + "__source", Decimal(j), c + "__source", Decimal(k));
    DecimalIsInjective(j, k);
    assert (b + "__source")[..|b|] == b && (c + "__source")[..|b|] == c;
  }

  // ---- What each canonical column should hold ----

  /** The non-blank values mapped to a name, in column order. */
  function Given(row: seq<Cell>, canon: string -> string, name: string): seq<Value> {
    if row == [] then []
    else
      var cell := row[|row| - 1];
      Given(row[..|row| - 1], canon, name)
      + if canon(cell.column) == name && !Blank(cell.value) then [cell.value] else []
  }

  /** Those that differ from the first. */
  function Others(row: seq<Cell>, canon: string -> string, name: string): seq<Value> {
    if row == [] then []
    else
      var before, cell := row[..|row| - 1], row[|row| - 1];
      var given := Given(before, canon, name);
      Others(before, canon, name)
      + if canon(cell.column) == name && !Blank(cell.value) && given != [] && cell.value != given[0] then [cell.value]
        else []
  }

  ghost predicate Mapped(row: seq<Cell>, canon: string -> string, name: string) {
    exists k :: 0 <= k < |row| && canon(row[k].column) == name
  }

  ghost predicate Present(row: seq<Cell>, canon: string -> string, name: string, v: Value) {
    exists k :: 0 <= k < |row| && canon(row[k].column) == name && row[k].value == v
  }

  /** A mapped name holds its first non-blank value, or one of its blanks when it has none. */
  ghost predicate Holds(normalized: map<string, Value>, row: seq<Cell>, canon: string -> string, name: string) {
    && (name in normalized <==> Mapped(row, canon, name))
    && (name in normalized ==> Present(row, canon, name, normalized[name]))
    && (name in normalized ==>
          if Given(row, canon, name) == [] then Blank(normalized[name])
          else normalized[name] == Given(row, canon, name)[0])
  }

  /** The differing values stand under the numbers from 2 on, without a gap and nothing more. */
  ghost predicate Keeps(normalized: map<string, Value>, row: seq<Cell>, canon: string -> string, name: string) {
    forall k: nat :: k >= 2 ==>
      && (Alternate(name, k) in normalized <==> k - 2 < |Others(row, canon, name)|)
      && (Alternate(name, k) in normalized ==> normalized[Alternate(name, k)] == Others(row, canon, name)[k - 2])
  }

  /** No column is canonically called like an alternate. */
  ghost predicate Plain(row: seq<Cell>, canon: string -> string) {
    forall k :: 0 <= k < |row| ==> !IsAlternate(canon(row[k].column))
  }

  ghost predicate Normalised(normalized: map<string, Value>, row: seq<Cell>, canon: string -> string) {
    && (forall name :: !IsAlternate(name) ==> Holds(normalized, row, canon, name))
    && (forall name :: Keeps(normalized, row, canon, name))
  }

  // ---- The loop ----

  datatype Progress = Progress(normalized: map<string, Value>, counts: map<string, nat>)

  function Take(p: Progress, cell: Cell, canon: string -> string): Progress {
    var name := canon(cell.column);
    if name !in p.normalized || Blank(p.normalized[name]) then p.(normalized := p.normalized[name := cell.value])
    else if Blank(cell.value) || cell.value == p.normalized[name] then p
    else
      var count := (if name in p.counts then p.counts[name] else 1) + 1;
      Progress(p.normalized[Alternate(name, count) := cell.value], p.counts[name := count])
  }

  /** Cell by cell, whatever the columns are called. */
  function TakeAll(row: seq<Cell>, canon: string -> string): Progress {
    if row == [] then Progress(map[], map[]) else Take(TakeAll(row[..|row| - 1], canon), row[|row| - 1], canon)
  }

  ghost predicate Counted(counts: map<string, nat>, row: seq<Cell>, canon: string -> string) {
    forall name :: if name in counts then counts[name] == |Others(row, canon, name)| + 1
                   else Others(row, canon, name) == []
  }

  /** `nameOf` stands for the canonical event name of a source name and a movement. */
  function WithEventName(worksheet: string, m: map<string, Value>,
                         nameOf: (string, Value) -> string): map<string, Value> {
    if worksheet == "Events" && "Event_Name" in m && !Blank(m["Event_Name"]) then
      m["Event_Name" := Text(nameOf(m["Event_Name"].text, if "Movement_Type" in m then m["Movement_Type"] else Null))]
    else m
  }

  /** Only the events sheet is treated further, and there only a recorded event name: its canonical name takes its
      place, and every other column stays. */
  lemma OnlyEventNamesAreReplaced(worksheet: string, m: map<string, Value>, nameOf: (string, Value) -> string)
    ensures var t := WithEventName(worksheet, m, nameOf);
            && (forall name :: name in t <==> name in m)
            && (forall name :: name in m && name != "Event_Name" ==> t[name] == m[name])
            && ("Event_Name" in m ==>
                if worksheet != "Events" || m["Event_Name"] == Null || m["Event_Name"] == Text("") then
                  t["Event_Name"] == m["Event_Name"]
                else if "Movement_Type" in m then
                  t["Event_Name"] == Text(nameOf(m["Event_Name"].text, m["Movement_Type"]))
                else t["Event_Name"] == Text(nameOf(m["Event_Name"].text, Null)))
  {
  }

  method NormalizeRow(worksheet: string, row: seq<Cell>, canon: string -> string, nameOf: (string, Value) -> string)
    returns (normalized: map<string, Value>)
    ensures normalized == WithEventName(worksheet, TakeAll(row, canon).normalized, nameOf)
    ensures Plain(row, canon) && worksheet != "Events" ==> Normalised(normalized, row, canon)
  {
    normalized := map[];
    var duplicateCounts: map<string, nat> := map[];
    for i := 0 to |row|
      invariant Progress(normalized, duplicateCounts) == TakeAll(row[..i], canon)
    {
      assert row[..i + 1][..i] == row[..i];
      var canonical, value := canon(row[i].column), row[i].value;
      if canonical !in normalized || Blank(normalized[canonical]) {
        normalized := normalized[canonical := value];
        continue;
      }
      if Blank(value) || value == normalized[canonical] { continue; }
      var seen := if canonical in duplicateCounts then duplicateCounts[canonical] else 1;
      duplicateCounts := duplicateCounts[canonical := seen + 1];
      normalized := normalized[Alternate(canonical, duplicateCounts[canonical]) := value];
    }
    assert row[..|row|] == row;
    if worksheet == "Events" && "Event_Name" in normalized && !Blank(normalized["Event_Name"]) {
      var movement := if "Movement_Type" in normalized then normalized["Movement_Type"] else Null;
      normalized := normalized["Event_Name" := Text(nameOf(normalized["Event_Name"].text, movement))];
    }
    if Plain(row, canon) { TakeAllNormalises(row, canon); }
  }

  /** Unless a column is already called like an alternate, every name ends up as it should. */
  lemma {:induction false} TakeAllNormalises(row: seq<Cell>, canon: string -> string)
    requires Plain(row, canon)
    ensures Normalised(TakeAll(row, canon).normalized, row, canon) && Counted(TakeAll(row, canon).counts, row, canon)
  {
    if row != [] {
      var init, cell := row[..|row| - 1], row[|row| - 1];
      TakeAllNormalises(init, canon);
      assert row == init + [cell];
      TakeNormalises(TakeAll(init, canon), init, cell, canon);
    }
  }

  lemma TakeNormalises(p: Progress, row: seq<Cell>, cell: Cell, canon: string -> string)
    requires Normalised(p.normalized, row, canon) && Counted(p.counts, row, canon) && !IsAlternate(canon(cell.column))
    ensures Normalised(Take(p, cell, canon).normalized, row + [cell], canon)
    ensures Counted(Take(p, cell, canon).counts, row + [cell], canon)
  {
    var name := canon(cell.column);
    if name !in p.normalized || Blank(p.normalized[name]) {
      FirstValue(p.normalized, row, cell, canon);
    } else if Blank(cell.value) || cell.value == p.normalized[name] {
      SameValue(p.normalized, row, cell, canon);
    } else {
      OtherValue(p.normalized, row, cell, canon, (if name in p.counts then p.counts[name] else 1) + 1);
    }
  }

  lemma Extended(row: seq<Cell>, cell: Cell, canon: string -> string, name: string)
    ensures Given(row + [cell], canon, name)
         == Given(row, canon, name) + if canon(cell.column) == name && !Blank(cell.value) then [cell.value] else []
    ensures Others(row + [cell], canon, name)
         == Others(row, canon, name)
            + if canon(cell.column) == name && !Blank(cell.value) && Given(row, canon, name) != []
                                          && cell.value != Given(row, canon, name)[0] then [cell.value] else []
    ensures Mapped(row + [cell], canon, name) <==> Mapped(row, canon, name) || canon(cell.column) == name
    ensures forall v :: Present(row, canon, name, v) || (canon(cell.column) == name && cell.value == v) ==>
              Present(row + [cell], canon, name, v)
  {
    assert (row + [cell])[..|row|] == row;
    forall v | Present(row, canon, name, v) ensures Present(row + [cell], canon, name, v) {
      var k :| 0 <= k < |row| && canon(row[k].column) == name && row[k].value == v;
      assert canon((row + [cell])[k].column) == name && (row + [cell])[k].value == v;
    }
    if Mapped(row, canon, name) {
      var k :| 0 <= k < |row| && canon(row[k].column) == name;
      assert canon((row + [cell])[k].column) == name;
    }
    if canon(cell.column) == name { assert canon((row + [cell])[|row|].column) == name; }
  }

  lemma FirstValue(was: map<string, Value>, row: seq<Cell>, cell: Cell, canon: string -> string)
    requires Normalised(was, row, canon) && !IsAlternate(canon(cell.column))
    requires canon(cell.column) !in was || Blank(was[canon(cell.column)])
    ensures Normalised(was[canon(cell.column) := cell.value], row + [cell], canon)
    ensures forall name :: Others(row + [cell], canon, name) == Others(row, canon, name)
  {
    var now, target := was[canon(cell.column) := cell.value], canon(cell.column);
    assert Holds(was, row, canon, target);
    GivenAreNotBlank(row, canon, target);
    forall name
      ensures Others(row + [cell], canon, name) == Others(row, canon, name) && Keeps(now, row + [cell], canon, name)
    {
      Extended(row, cell, canon, name);
      assert Keeps(was, row, canon, name);
      forall k: nat | k >= 2 ensures Alternate(name, k) != target { assert IsAlternate(Alternate(name, k)); }
    }
    forall name | !IsAlternate(name) ensures Holds(now, row + [cell], canon, name) {
      Extended(row, cell, canon, name);
      assert Holds(was, row, canon, name);
    }
  }

  lemma {:induction false} GivenAreNotBlank(row: seq<Cell>, canon: string -> string, name: string)
    ensures forall v :: v in Given(row, canon, name) ==> !Blank(v)
    ensures Given(row, canon, name) != [] ==> Mapped(row, canon, name)
  {
    if row != [] {
      var n := |row| - 1;
      GivenAreNotBlank(row[..n], canon, name);
      if Mapped(row[..n], canon, name) {
        var k :| 0 <= k < n && canon(row[..n][k].column) == name;
        assert canon(row[k].column) == name;
      }
      assert canon(row[n].column) == name ==> Mapped(row, canon, name);
    }
  }

  lemma SameValue(was: map<string, Value>, row: seq<Cell>, cell: Cell, canon: string -> string)
    requires Normalised(was, row, canon) && !IsAlternate(canon(cell.column))
    requires canon(cell.column) in was && !Blank(was[canon(cell.column)])
    requires Blank(cell.value) || cell.value == was[canon(cell.column)]
    ensures Normalised(was, row + [cell], canon)
    ensures forall name :: Others(row + [cell], canon, name) == Others(row, canon, name)
  {
    assert Holds(was, row, canon, canon(cell.column));
    forall name
      ensures Others(row + [cell], canon, name) == Others(row, canon, name) && Keeps(was, row + [cell], canon, name)
    {
      Extended(row, cell, canon, name);
      assert Keeps(was, row, canon, name);
    }
    forall name | !IsAlternate(name) ensures Holds(was, row + [cell], canon, name) {
      Extended(row, cell, canon, name);
      assert Holds(was, row, canon, name);
    }
  }

  lemma OtherValue(was: map<string, Value>, row: seq<Cell>, cell: Cell, canon: string -> string, count: nat)
    requires Normalised(was, row, canon) && !IsAlternate(canon(cell.column))
    requires canon(cell.column) in was && !Blank(was[canon(cell.column)])
    requires !Blank(cell.value) && cell.value != was[canon(cell.column)]
    requires count == |Others(row, canon, canon(cell.column))| + 2
    ensures Normalised(was[Alternate(canon(cell.column), count) := cell.value], row + [cell], canon)
    ensures forall name :: |Others(row + [cell], canon, name)|
                           == |Others(row, canon, name)| + if name == canon(cell.column) then 1 else 0
  {
    var target := canon(cell.column);
    var now := was[Alternate(target, count) := cell.value];
    assert IsAlternate(Alternate(target, count));
    assert Holds(was, row, canon, target);
    forall name
      ensures |Others(row + [cell], canon, name)| == |Others(row, canon, name)| + if name == target then 1 else 0
      ensures Keeps(now, row + [cell], canon, name)
    {
      Extended(row, cell, canon, name);
      assert Keeps(was, row, canon, name);
      forall k: nat | k >= 2 ensures Alternate(name, k) == Alternate(target, count) ==> name == target && k == count {
        if Alternate(name, k) == Alternate(target, count) { AlternateIsInjective(name, k, target, count); }
      }
    }
    forall name | !IsAlternate(name) ensures Holds(now, row + [cell], canon, name) {
      Extended(row, cell, canon, name);
      assert Holds(was, row, canon, name);
    }
  }

  // ---- What that means for the values ----

  lemma {:induction false} GivenAre(row: seq<Cell>, canon: string -> string, name: string, v: Value)
    ensures v in Given(row, canon, name) <==> Present(row, canon, name, v) && !Blank(v)
  {
    if row != [] {
      var init, cell := row[..|row| - 1], row[|row| - 1];
      GivenAre(init, canon, name, v);
      assert row == init + [cell];
      Extended(init, cell, canon, name);
      if Present(row, canon, name, v) {
        var k :| 0 <= k < |row| && canon(row[k].column) == name && row[k].value == v;
        assert k < |init| ==> canon(init[k].column) == name && init[k].value == v;
      }
    }
  }

  lemma {:induction false} FirstOrOther(row: seq<Cell>, canon: string -> string, name: string, v: Value)
    ensures v in Given(row, canon, name) ==> v == Given(row, canon, name)[0] || v in Others(row, canon, name)
    ensures v in Others(row, canon, name) ==> v in Given(row, canon, name)
  {
    if row != [] {
      var init, cell := row[..|row| - 1], row[|row| - 1];
      FirstOrOther(init, canon, name, v);
      assert row == init + [cell];
      Extended(init, cell, canon, name);
    }
  }

  /** No value is lost: each stands under its canonical name or under one of the alternates. */
  lemma NothingIsLost(normalized: map<string, Value>, row: seq<Cell>, canon: string -> string, k: nat)
    requires Normalised(normalized, row, canon) && Plain(row, canon) && k < |row| && !Blank(row[k].value)
    ensures var name, v := canon(row[k].column), row[k].value;
            && name in normalized
            && (normalized[name] == v
                || exists j: nat :: j >= 2 && Alternate(name, j) in normalized && normalized[Alternate(name, j)] == v)
  {
    var name, v := canon(row[k].column), row[k].value;
    assert Holds(normalized, row, canon, name) && Keeps(normalized, row, canon, name);
    assert Present(row, canon, name, v);
    GivenAre(row, canon, name, v);
    FirstOrOther(row, canon, name, v);
    if v in Others(row, canon, name) {
      var i :| 0 <= i < |Others(row, canon, name)| && Others(row, canon, name)[i] == v;
      var j: nat := i + 2;
      assert j - 2 == i && Alternate(name, j) in normalized && normalized[Alternate(name, j)] == v;
    }
  }

  /** No value is invented: what stands under a name came from a column of that name, and what stands under an
      alternate from a column of its base. */
  lemma NothingIsInvented(normalized: map<string, Value>, row: seq<Cell>, canon: string -> string, name: string)
    requires Normalised(normalized, row, canon) && name in normalized
    ensures Present(row, canon, name, normalized[name])
            || exists base: string, k: nat ::
                 k >= 2 && name == Alternate(base, k) && Present(row, canon, base, normalized[name])
  {
    if IsAlternate(name) {
      var base: string, k: nat :| k >= 2 && name == Alternate(base, k);
      assert Keeps(normalized, row, canon, base);
      GivenAre(row, canon, base, normalized[name]);
      FirstOrOther(row, canon, base, normalized[name]);
    } else {
      assert Holds(normalized, row, canon, name);
    }
  }

  /** A column that is already called like an alternate can be overwritten by one: its value is gone. */
  lemma AlternateColumnCanBeOverwritten(canon: string -> string, a: Value, b: Value, c: Value)
    requires canon("X__source_2") == "X__source_2" && canon("X") == "X" && canon("x") == "X"
    requires !Blank(a) && !Blank(b) && !Blank(c) && a != b && a != c && b != c
    ensures TakeAll([Cell("X__source_2", a), Cell("X", b), Cell("x", c)], canon).normalized
            == map["X" := b, "X__source_2" := c]
  {
    var row := [Cell("X__source_2", a), Cell("X", b), Cell("x", c)];
    assert row[..2] == [Cell("X__source_2", a), Cell("X", b)] && row[..2][..1] == [Cell("X__source_2", a)];
    assert row[..2][..1][..0] == [];
    assert Decimal(2) == "2" && Alternate("X", 2) == "X__source_2";
    assert TakeAll(row[..2][..1], canon) == Progress(map["X__source_2" := a], map[]);
    assert TakeAll(row[..2], canon) == Progress(map["X__source_2" := a, "X" := b], map[]);
  }
}
