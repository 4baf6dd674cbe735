/** What normalisation loses, read off the columns of the row alone. */
module AlternateColumns {
  import opened Standardization
  import opened StandardizationLoss

  /** No column is canonically called like an alternate of an alternate. */
  ghost predicate Flat(row: seq<Cell>, canon: string -> string) {
    forall k, base: string, j: nat :: 0 <= k < |row| && j >= 2 && canon(row[k].column) == Alternate(base, j) ==>
                                        !IsAlternate(base)
  }

  /** The cell is one more value of its column that differs from the first: the number due to it. */
  function Number(row: seq<Cell>, canon: string -> string, t: nat): nat
    requires t < |row|
  {
    |Others(row[..t], canon, canon(row[t].column))| + 2
  }

  predicate Differs(row: seq<Cell>, canon: string -> string, t: nat)
    requires t < |row|
  {
    var given := Given(row[..t], canon, canon(row[t].column));
    !Blank(row[t].value) && given != [] && row[t].value != given[0]
  }

  /** Cell `t` is such a value, the column called like its number `key` holds another value `u` before it, and `u` does
      not come again in that column after it. */
  predicate SpoilsAt(row: seq<Cell>, canon: string -> string, t: nat, key: string, u: Value)
    requires t < |row|
  {
    && Differs(row, canon, t) && key == Alternate(canon(row[t].column), Number(row, canon, t))
    && Given(row[..t], canon, key) != [] && u == Given(row[..t], canon, key)[0] && u != row[t].value
    && forall s :: t < s < |row| ==> !(canon(row[s].column) == key && row[s].value == u)
  }

  ghost predicate Spoiled(row: seq<Cell>, canon: string -> string, key: string, u: Value) {
    exists t: nat :: t < |row| && SpoilsAt(row, canon, t, key, u)
  }

  lemma SpoiledGrows(row: seq<Cell>, cell: Cell, canon: string -> string, key: string, u: Value)
    ensures Spoiled(row + [cell], canon, key, u)
            <==> (Spoiled(row, canon, key, u) && !(canon(cell.column) == key && cell.value == u))
                 || SpoilsAt(row + [cell], canon, |row|, key, u)
  {
    var now := row + [cell];
    forall t: nat | t < |row|
      ensures SpoilsAt(now, canon, t, key, u)
              <==> SpoilsAt(row, canon, t, key, u) && !(canon(cell.column) == key && cell.value == u)
    {
      assert now[..t] == row[..t] && now[t] == row[t];
      if SpoilsAt(now, canon, t, key, u) {
        forall s | t < s < |row| ensures !(canon(row[s].column) == key && row[s].value == u) {
          assert now[s] == row[s];
        }
        assert now[|row|] == cell;
      }
    }
  }

  // ---- What holds along the row

  ghost predicate TracksPlain(p: Progress, row: seq<Cell>, canon: string -> string, name: string) {
    && Holds(p.normalized, row, canon, name) && CountOf(p, name) == |Others(row, canon, name)| + 1
  }

  /** A column called like a number not yet given out holds its own first value. */
  ghost predicate TracksDue(p: Progress, row: seq<Cell>, canon: string -> string, base: string) {
    forall j: nat :: j >= |Others(row, canon, base)| + 2 ==> Holds(p.normalized, row, canon, Alternate(base, j))
  }

  ghost predicate TracksNested(p: Progress, name: string) {
    CountOf(p, name) >= 1 && forall j: nat :: j > CountOf(p, name) ==> Alternate(name, j) !in p.normalized
  }

  ghost predicate Tracks(p: Progress, row: seq<Cell>, canon: string -> string) {
    && (forall name :: !IsAlternate(name) ==> TracksPlain(p, row, canon, name) && TracksDue(p, row, canon, name))
    && (forall name :: IsAlternate(name) ==> TracksNested(p, name))
  }

  lemma HoldsElsewhere(p: Progress, row: seq<Cell>, cell: Cell, canon: string -> string, name: string)
    requires Holds(p.normalized, row, canon, name) && canon(cell.column) != name
    requires Alternate(canon(cell.column), CountOf(p, canon(cell.column)) + 1) != name
    ensures Holds(Take(p, cell, canon).normalized, row + [cell], canon, name)
  {
    Extended(row, cell, canon, name);
    if Mapped(row + [cell], canon, name) {
      var k :| 0 <= k < |row + [cell]| && canon((row + [cell])[k].column) == name;
      assert row[k] == (row + [cell])[k];
    }
  }

  lemma HoldsHere(p: Progress, row: seq<Cell>, cell: Cell, canon: string -> string)
    requires Holds(p.normalized, row, canon, canon(cell.column))
    ensures Holds(Take(p, cell, canon).normalized, row + [cell], canon, canon(cell.column))
  {
    var name := canon(cell.column);
    Extended(row, cell, canon, name);
    GivenAreNotBlank(row, canon, name);
    OwnNumber(name, CountOf(p, name) + 1);
  }

  lemma PlainHere(p: Progress, row: seq<Cell>, cell: Cell, canon: string -> string)
    requires TracksPlain(p, row, canon, canon(cell.column))
    ensures TracksPlain(Take(p, cell, canon), row + [cell], canon, canon(cell.column))
  {
    Extended(row, cell, canon, canon(cell.column));
    GivenAreNotBlank(row, canon, canon(cell.column));
    HoldsHere(p, row, cell, canon);
  }

  lemma PlainElsewhere(p: Progress, row: seq<Cell>, cell: Cell, canon: string -> string, name: string)
    requires TracksPlain(p, row, canon, name) && canon(cell.column) != name
    requires Alternate(canon(cell.column), CountOf(p, canon(cell.column)) + 1) != name
    ensures TracksPlain(Take(p, cell, canon), row + [cell], canon, name)
  {
    Extended(row, cell, canon, name);
    HoldsElsewhere(p, row, cell, canon, name);
  }

  lemma PlainStep(p: Progress, row: seq<Cell>, cell: Cell, canon: string -> string, name: string)
    requires Tracks(p, row, canon) && !IsAlternate(name)
    ensures TracksPlain(Take(p, cell, canon), row + [cell], canon, name)
  {
    CountIsPositive(p, row, canon, canon(cell.column));
    if canon(cell.column) == name {
      PlainHere(p, row, cell, canon);
    } else {
      PlainElsewhere(p, row, cell, canon, name);
    }
  }

  lemma CountIsPositive(p: Progress, row: seq<Cell>, canon: string -> string, name: string)
    requires Tracks(p, row, canon)
    ensures CountOf(p, name) >= 1 && IsAlternate(Alternate(name, CountOf(p, name) + 1))
  {
    assert IsAlternate(name) || TracksPlain(p, row, canon, name);
  }

  lemma DueStep(p: Progress, row: seq<Cell>, cell: Cell, canon: string -> string, base: string, j: nat)
    requires Tracks(p, row, canon) && !IsAlternate(base) && j >= |Others(row + [cell], canon, base)| + 2
    ensures Holds(Take(p, cell, canon).normalized, row + [cell], canon, Alternate(base, j))
  {
    var target, key := canon(cell.column), Alternate(base, j);
    Extended(row, cell, canon, base);
    assert TracksDue(p, row, canon, base) && TracksPlain(p, row, canon, base);
    if target == key {
      HoldsHere(p, row, cell, canon);
    } else if Alternate(target, CountOf(p, target) + 1) == key {
      AlternateIsInjective(target, CountOf(p, target) + 1, base, j);
      NumberIsDue(p, row, cell, canon);
      HoldsAsBefore(p, row, cell, canon, key);
    } else {
      HoldsElsewhere(p, row, cell, canon, key);
    }
  }

  /** If the cell is given the number, it was one of the differing values, so the number is no longer due. */
  lemma NumberIsDue(p: Progress, row: seq<Cell>, cell: Cell, canon: string -> string)
    requires TracksPlain(p, row, canon, canon(cell.column))
    requires |Others(row + [cell], canon, canon(cell.column))| == |Others(row, canon, canon(cell.column))|
    ensures Take(p, cell, canon).counts == p.counts
    ensures Take(p, cell, canon).normalized in {p.normalized, p.normalized[canon(cell.column) := cell.value]}
  {
    Extended(row, cell, canon, canon(cell.column));
    GivenAreNotBlank(row, canon, canon(cell.column));
  }

  lemma HoldsAsBefore(p: Progress, row: seq<Cell>, cell: Cell, canon: string -> string, name: string)
    requires Holds(p.normalized, row, canon, name) && canon(cell.column) != name
    requires Take(p, cell, canon).normalized in {p.normalized, p.normalized[canon(cell.column) := cell.value]}
    ensures Holds(Take(p, cell, canon).normalized, row + [cell], canon, name)
  {
    Extended(row, cell, canon, name);
    if Mapped(row + [cell], canon, name) {
      var k :| 0 <= k < |row + [cell]| && canon((row + [cell])[k].column) == name;
      assert row[k] == (row + [cell])[k];
    }
  }

  lemma NestedStep(p: Progress, row: seq<Cell>, cell: Cell, canon: string -> string, name: string)
    requires Tracks(p, row, canon) && IsAlternate(name) && Flat([cell], canon)
    ensures TracksNested(Take(p, cell, canon), name)
  {
    var target, q := canon(cell.column), Take(p, cell, canon);
    var c := CountOf(p, target) + 1;
    assert TracksNested(p, name);
    forall j: nat | j > CountOf(q, name) ensures Alternate(name, j) !in q.normalized {
      assert [cell][0] == cell && j >= 2;
      if Alternate(target, c) == Alternate(name, j) { AlternateIsInjective(target, c, name, j); }
    }
  }

  lemma {:induction false} TakeAllTracks(row: seq<Cell>, canon: string -> string)
    requires Flat(row, canon)
    ensures Tracks(TakeAll(row, canon), row, canon)
  {
    if row != [] {
      var before, cell := row[..|row| - 1], row[|row| - 1];
      assert row == before + [cell];
      TakeAllTracks(before, canon);
      var p := TakeAll(before, canon);
      forall name | !IsAlternate(name)
        ensures TracksPlain(Take(p, cell, canon), row, canon, name) && TracksDue(Take(p, cell, canon), row, canon, name)
      {
        PlainStep(p, before, cell, canon, name);
        forall j: nat | j >= |Others(row, canon, name)| + 2
          ensures Holds(Take(p, cell, canon).normalized, row, canon, Alternate(name, j))
        {
          DueStep(p, before, cell, canon, name, j);
        }
      }
      forall name | IsAlternate(name) ensures TracksNested(Take(p, cell, canon), name) {
        NestedStep(p, before, cell, canon, name);
      }
    }
  }

  // ---- The result

  lemma NestedIsNotGiven(row: seq<Cell>, canon: string -> string, name: string, j: nat)
    requires Flat(row, canon) && IsAlternate(name) && j >= 2
    ensures Given(row, canon, Alternate(name, j)) == []
  {
    GivenAreNotBlank(row, canon, Alternate(name, j));
  }

  lemma OverwritesIff(p: Progress, row: seq<Cell>, cell: Cell, canon: string -> string, key: string, u: Value)
    requires Tracks(p, row, canon) && Flat(row, canon)
    ensures SpoilsAt(row + [cell], canon, |row|, key, u)
            <==> && key == Alternate(canon(cell.column), CountOf(p, canon(cell.column)) + 1)
                 && Overwrites(p, canon(cell.column), cell.value) && u == p.normalized[key]
  {
    var name, now := canon(cell.column), row + [cell];
    assert now[..|row|] == row && now[|row|] == cell;
    if IsAlternate(name) {
      assert TracksNested(p, name);
      NestedIsNotGiven(row, canon, name, Number(now, canon, |row|));
    } else {
      OverwritesPlainIff(p, row, cell, canon, key, u);
    }
  }

  lemma OverwritesPlainIff(p: Progress, row: seq<Cell>, cell: Cell, canon: string -> string, key: string, u: Value)
    requires TracksPlain(p, row, canon, canon(cell.column)) && TracksDue(p, row, canon, canon(cell.column))
    ensures SpoilsAt(row + [cell], canon, |row|, key, u)
            <==> && key == Alternate(canon(cell.column), CountOf(p, canon(cell.column)) + 1)
                 && Overwrites(p, canon(cell.column), cell.value) && u == p.normalized[key]
  {
    var name, now := canon(cell.column), row + [cell];
    var due := Alternate(name, CountOf(p, name) + 1);
    assert now[..|row|] == row && now[|row|] == cell;
    assert Holds(p.normalized, row, canon, due);
    GivenAreNotBlank(row, canon, name);
    GivenAreNotBlank(row, canon, due);
  }

  /** For every flat row the values lost are those the columns show to be spoiled. */
  lemma {:induction false} LostIffSpoiled(row: seq<Cell>, canon: string -> string, key: string, u: Value)
    requires Flat(row, canon)
    ensures (key, u) in Lost(row, canon) <==> Spoiled(row, canon, key, u)
  {
    if row != [] {
      var before, cell := row[..|row| - 1], row[|row| - 1];
      assert row == before + [cell];
      LostIffSpoiled(before, canon, key, u);
      TakeAllTracks(before, canon);
      var p := TakeAll(before, canon);
      OverwritesIff(p, before, cell, canon, key, u);
      SpoiledGrows(before, cell, canon, key, u);
      OwnNumber(canon(cell.column), CountOf(p, canon(cell.column)) + 1);
    }
  }

  /** Normalisation keeps every value of a flat row if and only if no cell spoils another. */
  lemma NothingIsSpoiledIff(row: seq<Cell>, canon: string -> string)
    requires Flat(row, canon)
    ensures (forall k :: 0 <= k < |row| && !Blank(row[k].value) ==>
             Found(TakeAll(row, canon), canon(row[k].column), row[k].value))
       <==> forall key, u :: !Spoiled(row, canon, key, u)
  {
    NothingIsLostIff(row, canon);
    forall key, u ensures (key, u) in Lost(row, canon) <==> Spoiled(row, canon, key, u) {
      LostIffSpoiled(row, canon, key, u);
    }
    if Lost(row, canon) != {} {
      var x :| x in Lost(row, canon);
      assert (x.0, x.1) in Lost(row, canon);
    }
  }
}
