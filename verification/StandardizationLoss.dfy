/** Rows whose columns may already be called like alternates: exactly which values normalisation loses. */
module StandardizationLoss {
  import opened Standardization

  type Named = (string, Value)

  /** How many values a name has been given so far, its own included, once there are two. */
  function CountOf(p: Progress, name: string): nat { if name in p.counts then p.counts[name] else 1 }

  /** The value stands under its name or under one of the numbers given out for it. */
  ghost predicate Found(p: Progress, name: string, v: Value) {
    || (name in p.normalized && p.normalized[name] == v)
    || exists j: nat :: 2 <= j <= CountOf(p, name) && Numbered(p, name, j, v)
  }

  predicate Numbered(p: Progress, name: string, j: nat, v: Value) {
    Alternate(name, j) in p.normalized && p.normalized[Alternate(name, j)] == v
  }

  /** The next cell is a conflicting value of a name, and the number due to it is already a column holding another. */
  predicate Overwrites(p: Progress, name: string, v: Value) {
    && name in p.normalized && !Blank(p.normalized[name]) && !Blank(v) && v != p.normalized[name]
    && var key := Alternate(name, CountOf(p, name) + 1);
       key in p.normalized && !Blank(p.normalized[key]) && p.normalized[key] != v
  }

  function LostBy(p: Progress, lost: set<Named>, name: string, v: Value): set<Named> {
    var key := Alternate(name, CountOf(p, name) + 1);
    lost + (if Overwrites(p, name, v) then {(key, p.normalized[key])} else {}) - {(name, v)}
  }

  /** The values overwritten so far that have not come again in their own column. */
  function Lost(row: seq<Cell>, canon: string -> string): set<Named> {
    if row == [] then {}
    else
      var before, cell := row[..|row| - 1], row[|row| - 1];
      LostBy(TakeAll(before, canon), Lost(before, canon), canon(cell.column), cell.value)
  }

  // ---- What holds along the row

  ghost predicate Written(p: Progress, key: string) {
    exists base: string, j: nat :: 2 <= j <= CountOf(p, base) && key == Alternate(base, j)
  }

  /** The numbers given out are there, and a name that has any is there itself. */
  ghost predicate Standing(p: Progress) {
    && (forall base :: base in p.counts ==> p.counts[base] >= 1)
    && (forall base: string, j: nat :: 2 <= j <= CountOf(p, base) ==>
          Alternate(base, j) in p.normalized && !Blank(p.normalized[Alternate(base, j)]))
    && (forall base: string :: CountOf(p, base) >= 2 ==> base in p.normalized && !Blank(p.normalized[base]))
  }

  /** A name that is no alternate given out differs from all of its own. */
  ghost predicate Differing(p: Progress) {
    forall name: string, j: nat :: !Written(p, name) && 2 <= j <= CountOf(p, name) && name in p.normalized ==>
      !Numbered(p, name, j, p.normalized[name])
  }

  ghost predicate Gone(p: Progress, lost: set<Named>) {
    forall x :: x in lost ==> Written(p, x.0) && !Blank(x.1) && !Found(p, x.0, x.1)
  }

  ghost predicate Sound(p: Progress, lost: set<Named>) { Standing(p) && Differing(p) && Gone(p, lost) }

  /** Every value given is found, but for those lost. */
  ghost predicate Accounted(p: Progress, lost: set<Named>, row: seq<Cell>, canon: string -> string) {
    forall name: string, v: Value :: Present(row, canon, name, v) && !Blank(v) && (name, v) !in lost ==>
      Found(p, name, v)
  }

  // ---- The three kinds of cell

  lemma OwnNumber(name: string, c: nat)
    ensures forall base: string, j: nat :: Alternate(base, j) == Alternate(name, c) ==> base == name && j == c
    ensures Alternate(name, c) != name
  {
    forall base: string, j: nat | Alternate(base, j) == Alternate(name, c) ensures base == name && j == c {
      AlternateIsInjective(base, j, name, c);
    }
    assert |Alternate(name, c)| > |name|;
  }

  /** Filling an absent or blank name disturbs nothing that was given out. */
  lemma FillKeeps(p: Progress, lost: set<Named>, name: string, v: Value)
    requires Sound(p, lost) && (name !in p.normalized || Blank(p.normalized[name]))
    ensures Sound(p.(normalized := p.normalized[name := v]), lost - {(name, v)})
    ensures Found(p.(normalized := p.normalized[name := v]), name, v)
    ensures forall n, w :: !Blank(w) && Found(p, n, w) ==> Found(p.(normalized := p.normalized[name := v]), n, w)
  {
    var q := p.(normalized := p.normalized[name := v]);
    assert !Written(p, name);
    forall base: string, j: nat | 2 <= j <= CountOf(p, base)
      ensures Alternate(base, j) != name && forall w :: Numbered(q, base, j, w) <==> Numbered(p, base, j, w)
    {
      assert Written(p, Alternate(base, j));
    }
    forall key ensures Written(q, key) <==> Written(p, key) {
    }
    forall n, w | !Blank(w) && n != name ensures Found(q, n, w) <==> Found(p, n, w) {
    }
  }

  /** Giving out the next number keeps what was given out, and leaves only a value overwritten by it behind. */
  lemma NumberStands(p: Progress, name: string, v: Value, q: Progress)
    requires Standing(p) && Differing(p) && name in p.normalized && !Blank(p.normalized[name]) && !Blank(v)
    requires v != p.normalized[name] && q == WithNumber(p, name, v)
    ensures Standing(q) && Differing(q)
    ensures !Written(p, Alternate(name, CountOf(p, name) + 1))
    ensures forall key :: Written(q, key) <==> Written(p, key) || key == Alternate(name, CountOf(p, name) + 1)
  {
    var c := CountOf(p, name) + 1;
    OwnNumber(name, c);
    forall key ensures Written(q, key) <==> Written(p, key) || key == Alternate(name, c) {
      if Written(p, key) {
        var base: string, j: nat :| 2 <= j <= CountOf(p, base) && key == Alternate(base, j);
        assert 2 <= j <= CountOf(q, base);
      }
      if key == Alternate(name, c) { assert 2 <= c <= CountOf(q, name); }
    }
    forall n: string, j: nat | !Written(q, n) && 2 <= j <= CountOf(q, n) && n in q.normalized
      ensures !Numbered(q, n, j, q.normalized[n])
    {
      assert j <= CountOf(p, n) ==> !Numbered(p, n, j, p.normalized[n]);
    }
  }

  function WithNumber(p: Progress, name: string, v: Value): Progress {
    var c := CountOf(p, name) + 1;
    Progress(p.normalized[Alternate(name, c) := v], p.counts[name := c])
  }

  /** What is found afterwards: what was, except at the overwritten place, and the new value. */
  lemma NumberFinds(p: Progress, name: string, v: Value, n: string, w: Value)
    requires Standing(p) && name in p.normalized && v != p.normalized[name]
    ensures var key := Alternate(name, CountOf(p, name) + 1);
            && Found(WithNumber(p, name, v), name, v)
            && (Found(p, n, w) && !(n == key && p.normalized.Keys >= {key} && p.normalized[key] == w) ==>
                Found(WithNumber(p, name, v), n, w))
            && (Found(WithNumber(p, name, v), n, w) && n != key ==> Found(p, n, w) || (n == name && w == v))
  {
    var c, q := CountOf(p, name) + 1, WithNumber(p, name, v);
    OwnNumber(name, c);
    assert Numbered(q, name, c, v) && 2 <= c <= CountOf(q, name);
    if Found(p, n, w) && !(n in p.normalized && p.normalized[n] == w) {
      var j: nat :| 2 <= j <= CountOf(p, n) && Numbered(p, n, j, w);
      assert 2 <= j <= CountOf(q, n) && Numbered(q, n, j, w);
    }
    if Found(q, n, w) && n != Alternate(name, c) && !(n in q.normalized && q.normalized[n] == w) {
      var j: nat :| 2 <= j <= CountOf(q, n) && Numbered(q, n, j, w);
      assert !(n == name && j == c) ==> 2 <= j <= CountOf(p, n) && Numbered(p, n, j, w);
    }
  }

  lemma GoneAfterNumber(p: Progress, lost: set<Named>, name: string, v: Value)
    requires Sound(p, lost) && name in p.normalized && !Blank(p.normalized[name]) && !Blank(v)
    requires v != p.normalized[name]
    ensures Gone(WithNumber(p, name, v), LostBy(p, lost, name, v))
  {
    var key, q := Alternate(name, CountOf(p, name) + 1), WithNumber(p, name, v);
    NumberStands(p, name, v, q);
    OwnNumber(name, CountOf(p, name) + 1);
    forall x | x in LostBy(p, lost, name, v) ensures Written(q, x.0) && !Blank(x.1) && !Found(q, x.0, x.1) {
      if x in lost {
        NumberFinds(p, name, v, x.0, x.1);
      } else {
        OverwrittenIsGone(p, name, v);
      }
    }
  }

  lemma OverwrittenIsGone(p: Progress, name: string, v: Value)
    requires Standing(p) && Differing(p) && Overwrites(p, name, v)
    ensures var key := Alternate(name, CountOf(p, name) + 1);
            !Found(WithNumber(p, name, v), key, p.normalized[key])
  {
    var key, q := Alternate(name, CountOf(p, name) + 1), WithNumber(p, name, v);
    NumberStands(p, name, v, q);
    OwnNumber(name, CountOf(p, name) + 1);
    forall j: nat | 2 <= j <= CountOf(q, key) ensures !Numbered(q, key, j, p.normalized[key]) {
      assert !Numbered(p, key, j, p.normalized[key]);
    }
  }

  lemma TakeKeepsSound(p: Progress, lost: set<Named>, cell: Cell, canon: string -> string)
    requires Sound(p, lost)
    ensures Sound(Take(p, cell, canon), LostBy(p, lost, canon(cell.column), cell.value))
  {
    var name, v := canon(cell.column), cell.value;
    if name !in p.normalized || Blank(p.normalized[name]) {
      FillKeeps(p, lost, name, v);
    } else if !Blank(v) && v != p.normalized[name] {
      NumberStands(p, name, v, WithNumber(p, name, v));
      GoneAfterNumber(p, lost, name, v);
    }
  }

  lemma TakeKeepsFound(p: Progress, lost: set<Named>, cell: Cell, canon: string -> string, n: string, w: Value)
    requires Sound(p, lost) && !Blank(w) && (n, w) !in LostBy(p, lost, canon(cell.column), cell.value)
    requires Found(p, n, w) || (n, w) in lost || (n == canon(cell.column) && w == cell.value)
    ensures Found(Take(p, cell, canon), n, w)
  {
    var name, v := canon(cell.column), cell.value;
    if name !in p.normalized || Blank(p.normalized[name]) {
      FillKeeps(p, lost, name, v);
    } else if !Blank(v) && v != p.normalized[name] {
      NumberFinds(p, name, v, n, w);
    }
  }

  /** Exactly the values in `Lost` are lost. */
  lemma {:induction false} LostExactly(row: seq<Cell>, canon: string -> string)
    ensures Sound(TakeAll(row, canon), Lost(row, canon)) && Accounted(TakeAll(row, canon), Lost(row, canon), row, canon)
  {
    if row != [] {
      var before, cell := row[..|row| - 1], row[|row| - 1];
      var p, lost := TakeAll(before, canon), Lost(before, canon);
      LostExactly(before, canon);
      TakeKeepsSound(p, lost, cell, canon);
      forall name: string, v: Value | Present(row, canon, name, v) && !Blank(v) && (name, v) !in Lost(row, canon)
        ensures Found(TakeAll(row, canon), name, v)
      {
        var k :| 0 <= k < |row| && canon(row[k].column) == name && row[k].value == v;
        assert k < |before| ==>
          canon(before[k].column) == name && before[k].value == v && Present(before, canon, name, v);
        TakeKeepsFound(p, lost, cell, canon, name, v);
      }
    }
  }

  /** For any row and any canonical names: a value is found after normalisation if and only if no alternate overwrote
      it, or it came again in its own column afterwards. */
  lemma FoundIff(row: seq<Cell>, canon: string -> string, k: nat)
    requires k < |row| && !Blank(row[k].value)
    ensures Found(TakeAll(row, canon), canon(row[k].column), row[k].value)
            <==> (canon(row[k].column), row[k].value) !in Lost(row, canon)
  {
    LostExactly(row, canon);
    assert Present(row, canon, canon(row[k].column), row[k].value);
  }

  /** What stands under a name that no number was given out for came from a column of that name. */
  ghost predicate Rooted(p: Progress, row: seq<Cell>, canon: string -> string) {
    forall key :: key in p.normalized && !Written(p, key) ==> Present(row, canon, key, p.normalized[key])
  }

  ghost predicate AllGiven(lost: set<Named>, row: seq<Cell>, canon: string -> string) {
    forall x :: x in lost ==> Present(row, canon, x.0, x.1)
  }

  lemma TakeKeepsRooted(p: Progress, lost: set<Named>, row: seq<Cell>, cell: Cell, canon: string -> string)
    requires Sound(p, lost) && Rooted(p, row, canon)
    ensures Rooted(Take(p, cell, canon), row + [cell], canon)
  {
    var name, v, q := canon(cell.column), cell.value, Take(p, cell, canon);
    forall key | key in q.normalized && !Written(q, key) ensures Present(row + [cell], canon, key, q.normalized[key]) {
      Extended(row, cell, canon, key);
      if name !in p.normalized || Blank(p.normalized[name]) {
        FillKeeps(p, lost, name, v);
      } else if !Blank(v) && v != p.normalized[name] {
        NumberStands(p, name, v, WithNumber(p, name, v));
      }
    }
  }

  lemma LostByWereGiven(p: Progress, lost: set<Named>, row: seq<Cell>, cell: Cell, canon: string -> string)
    requires Sound(p, lost) && Rooted(p, row, canon) && AllGiven(lost, row, canon)
    ensures AllGiven(LostBy(p, lost, canon(cell.column), cell.value), row + [cell], canon)
  {
    var name, v := canon(cell.column), cell.value;
    forall x | x in LostBy(p, lost, name, v) ensures Present(row + [cell], canon, x.0, x.1) {
      Extended(row, cell, canon, x.0);
      if Overwrites(p, name, v) { NumberStands(p, name, v, WithNumber(p, name, v)); }
    }
  }

  lemma {:induction false} LostWereGiven(row: seq<Cell>, canon: string -> string)
    ensures Rooted(TakeAll(row, canon), row, canon) && AllGiven(Lost(row, canon), row, canon)
  {
    if row != [] {
      var before, cell := row[..|row| - 1], row[|row| - 1];
      LostExactly(before, canon);
      LostWereGiven(before, canon);
      TakeKeepsRooted(TakeAll(before, canon), Lost(before, canon), before, cell, canon);
      LostByWereGiven(TakeAll(before, canon), Lost(before, canon), before, cell, canon);
      assert row == before + [cell];
    }
  }

  /** For any row and any canonical names: nothing is lost if and only if every value that an alternate overwrote came
      again in its own column afterwards. */
  lemma NothingIsLostIff(row: seq<Cell>, canon: string -> string)
    ensures (forall k :: 0 <= k < |row| && !Blank(row[k].value) ==>
             Found(TakeAll(row, canon), canon(row[k].column), row[k].value))
       <==> Lost(row, canon) == {}
  {
    LostExactly(row, canon);
    LostWereGiven(row, canon);
    forall k | 0 <= k < |row| && !Blank(row[k].value)
      ensures Found(TakeAll(row, canon), canon(row[k].column), row[k].value)
         <==> (canon(row[k].column), row[k].value) !in Lost(row, canon)
    {
      FoundIff(row, canon, k);
    }
    forall x | x in Lost(row, canon)
      ensures exists k :: 0 <= k < |row| && !Blank(row[k].value)
                && (canon(row[k].column), row[k].value) in Lost(row, canon)
    {
      var k :| 0 <= k < |row| && canon(row[k].column) == x.0 && row[k].value == x.1;
      assert x == (x.0, x.1);
    }
  }

  /** A row without a column called like an alternate is such a row. */
  lemma PlainLosesNothing(row: seq<Cell>, canon: string -> string)
    requires Plain(row, canon)
    ensures Lost(row, canon) == {}
  {
    LostExactly(row, canon);
    LostWereGiven(row, canon);
    forall key | Written(TakeAll(row, canon), key) ensures IsAlternate(key) {
    }
    forall name, v | Present(row, canon, name, v) ensures !IsAlternate(name) {
    }
    assert forall x :: x in Lost(row, canon) ==> Present(row, canon, x.0, x.1) && Written(TakeAll(row, canon), x.0);
  }
}
