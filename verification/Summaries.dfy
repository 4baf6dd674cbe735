/** The dashboard summary on demand: readers who hold no lock compute it, and store it as the active snapshot, while the
    worker replaces the dataset. When the snapshot that is served is the one of the dataset that is served. */
module Summaries {
  import opened Wrappers
  import opened Activation

  /** A summary on its way: computed from the rows, and then filed under the batch that is live by then. Its update
      deactivates the first `seen` snapshots, those committed when the statement begins. */
  datatype Reader = Computed(rows: seq<CanonicalRow>) | Filed(rows: seq<CanonicalRow>, batch: nat, seen: nat)

  /** The worker's transaction from its own snapshot on. */
  datatype Rebuild = Rebuild(batch: nat, staged: seq<int>, seen: nat)

  /** `live` and `staged` say which dataset is visible. */
  datatype World = World(live: nat, staged: seq<int>, data: Data, readers: seq<Reader>, rebuild: Option<Rebuild>)

  datatype Move =
    | Summarise                                // a reader computes a summary of the visible rows
    | File(k: nat)                             // looks up the live batch, and begins to deactivate
    | Store(k: nat)                            // has deactivated, adds its snapshot and commits
    | Analyse(batch: nat, staged: seq<int>)    // the worker deactivates what it sees and adds its snapshot, uncommitted
    | Commit                                   // the activating commit
    | Abandon                                  // a rollback instead

  /** Both updates match every snapshot of the tenant, so the second to touch one waits for the first to end. */
  predicate Blocked(w: World, seen: nat) { w.rebuild.Some? && w.rebuild.value.seen > 0 && seen > 0 }

  predicate Can(w: World, m: Move) {
    match m
    case Summarise => w.data.rows != []
    case File(k) => k < |w.readers| && w.readers[k].Computed?
    case Store(k) => k < |w.readers| && w.readers[k].Filed? && !Blocked(w, w.readers[k].seen)
    case Analyse(_, _) => w.rebuild.None?
    case Commit => w.rebuild.Some?
    case Abandon => w.rebuild.Some?
  }

  function Replaced(snapshots: seq<Snapshot>, seen: nat, s: Snapshot): seq<Snapshot>
    requires seen <= |snapshots|
  {
    Deactivated(snapshots[..seen]) + snapshots[seen..] + [s]
  }

  /** Nothing is ever deleted here, so what was seen is still there. */
  ghost predicate SeenIsThere(w: World) {
    && (w.rebuild.Some? ==> w.rebuild.value.seen <= |w.data.snapshots|)
    && (forall k :: 0 <= k < |w.readers| && w.readers[k].Filed? ==> w.readers[k].seen <= |w.data.snapshots|)
  }

  function Next(w: World, m: Move): World
    requires Can(w, m) && SeenIsThere(w)
  {
    match m
    case Summarise => w.(readers := w.readers + [Computed(w.data.rows)])
    case File(k) =>
      w.(readers := w.readers[k := Filed(w.readers[k].rows, w.live, |w.data.snapshots|)])
    case Store(k) =>
      var r := w.readers[k];
      w.(data := Data(w.data.rows, Replaced(w.data.snapshots, r.seen, Snapshot(r.batch, r.rows, true))),
         readers := w.readers[..k] + w.readers[k + 1..])
    case Analyse(b, staged) => w.(rebuild := Some(Rebuild(b, staged, |w.data.snapshots|)))
    case Commit =>
      var r := w.rebuild.value;
      var rows := Derived(r.batch, r.staged);
      World(r.batch, r.staged, Data(rows, Replaced(w.data.snapshots, r.seen, Snapshot(r.batch, rows, true))),
            w.readers, None)
    case Abandon => w.(rebuild := None)
  }

  // ---------------------------------------------------------------- what is served

  ghost predicate Served(w: World) { Serves(w.data, w.live, w.staged) }

  /** The visible rows are those of the live batch, and the snapshot stored last is active. */
  ghost predicate Fits(w: World) {
    && SeenIsThere(w) && w.data.rows == Derived(w.live, w.staged)
    && (w.data.snapshots != [] ==> w.data.snapshots[|w.data.snapshots| - 1].active)
  }

  lemma NextFits(w: World, m: Move)
    requires Fits(w) && Can(w, m)
    ensures Fits(Next(w, m))
  {
  }

  predicate Stores(m: Move) { m.Store? || m.Commit? }

  /** A summary is stored in time if its rows are the visible ones, it is filed under the live batch, and nothing has
      been stored since its update began. The worker's only needs the last. */
  predicate InTime(w: World, m: Move)
    requires Can(w, m)
  {
    match m
    case Store(k) =>
      var r := w.readers[k];
      r.rows == w.data.rows && r.batch == w.live && r.seen == |w.data.snapshots|
    case Commit => w.rebuild.value.seen == |w.data.snapshots|
    case _ => true
  }

  lemma ServedAfterReplacing(snapshots: seq<Snapshot>, seen: nat, s: Snapshot, rows: seq<CanonicalRow>, b: nat,
                             staged: seq<int>)
    requires seen <= |snapshots| && s.active && rows == Derived(b, staged)
    requires snapshots != [] ==> snapshots[|snapshots| - 1].active
    ensures Serves(Data(rows, Replaced(snapshots, seen, s)), b, staged)
            <==> s == Snapshot(b, rows, true) && seen == |snapshots|
  {
    var after := Replaced(snapshots, seen, s);
    assert after[|after| - 1] == s;
    if seen < |snapshots| { assert after[|snapshots| - 1] == snapshots[|snapshots| - 1]; }
  }

  /** Whatever was served before: after a snapshot is stored, the served one is that of the live dataset if and only if
      it was stored in time. */
  lemma ServedIffInTime(w: World, m: Move)
    requires Fits(w) && Can(w, m) && Stores(m)
    ensures Served(Next(w, m)) <==> InTime(w, m)
  {
    match m
    case Store(k) =>
      var r := w.readers[k];
      ServedAfterReplacing(w.data.snapshots, r.seen, Snapshot(r.batch, r.rows, true), w.data.rows, w.live, w.staged);
    case Commit =>
      var r := w.rebuild.value;
      var rows := Derived(r.batch, r.staged);
      ServedAfterReplacing(w.data.snapshots, r.seen, Snapshot(r.batch, rows, true), rows, r.batch, r.staged);
  }

  // ---------------------------------------------------------------- runs

  ghost predicate CanAll(w: World, moves: seq<Move>)
    requires Fits(w)
    decreases |moves|
  {
    moves == [] || (Can(w, moves[0]) && (NextFits(w, moves[0]); CanAll(Next(w, moves[0]), moves[1..])))
  }

  ghost function After(w: World, moves: seq<Move>): (t: World)
    requires Fits(w) && CanAll(w, moves)
    ensures Fits(t)
    decreases |moves|
  {
    if moves == [] then w
    else
      NextFits(w, moves[0]);
      After(Next(w, moves[0]), moves[1..])
  }

  /** The last move that stores a snapshot is in time; if there is none, the right one is served from the start. */
  ghost predicate LastInTime(w: World, moves: seq<Move>, served: bool)
    requires Fits(w) && CanAll(w, moves)
    decreases |moves|
  {
    if moves == [] then served
    else
      NextFits(w, moves[0]);
      LastInTime(Next(w, moves[0]), moves[1..], if Stores(moves[0]) then InTime(w, moves[0]) else served)
  }

  /** Over any run of readers and workers, the served snapshot is that of the live dataset at the end if and only if the
      last one stored was stored in time. */
  lemma {:induction false} LastStoreDecides(w: World, moves: seq<Move>)
    requires Fits(w) && CanAll(w, moves)
    ensures Served(After(w, moves)) <==> LastInTime(w, moves, Served(w))
    decreases |moves|
  {
    if moves != [] {
      NextFits(w, moves[0]);
      if Stores(moves[0]) { ServedIffInTime(w, moves[0]); }
      LastStoreDecides(Next(w, moves[0]), moves[1..]);
    }
  }

  // ---------------------------------------------------------------- a summary that comes too late

  const OLD_ROWS := Derived(0, [7])

  const NEW_ROWS := Derived(1, [8])

  const BEFORE := World(0, [7], Data(OLD_ROWS, [Snapshot(0, OLD_ROWS, true)]), [], None)

  const LATE: seq<Move> := [Summarise, Analyse(1, [8]), Commit, File(0), Store(0)]

  /** The worlds of that run. */
  function Late(i: nat): World {
    var first, both := [Snapshot(0, OLD_ROWS, true)], [Snapshot(0, OLD_ROWS, false), Snapshot(1, NEW_ROWS, true)];
    match i
    case 0 => BEFORE
    case 1 => World(0, [7], Data(OLD_ROWS, first), [Computed(OLD_ROWS)], None)
    case 2 => World(0, [7], Data(OLD_ROWS, first), [Computed(OLD_ROWS)], Some(Rebuild(1, [8], 1)))
    case 3 => World(1, [8], Data(NEW_ROWS, both), [Computed(OLD_ROWS)], None)
    case 4 => World(1, [8], Data(NEW_ROWS, both), [Filed(OLD_ROWS, 1, 2)], None)
    case _ => World(1, [8], Data(NEW_ROWS, Deactivated(both) + [Snapshot(1, OLD_ROWS, true)]), [], None)
  }

  lemma LateNext(i: nat)
    requires i < 5
    ensures Fits(Late(i)) && Can(Late(i), LATE[i]) && Next(Late(i), LATE[i]) == Late(i + 1)
  {
    assert OLD_ROWS[0] == CanonicalRow(0, 7) && NEW_ROWS[0] == CanonicalRow(1, 8);
  }

  lemma {:induction false} LateRuns(i: nat)
    requires i <= 5
    ensures Fits(Late(i)) && CanAll(Late(i), LATE[i..]) && After(Late(i), LATE[i..]) == Late(5)
    decreases 5 - i
  {
    if i < 5 {
      LateNext(i);
      LateRuns(i + 1);
      assert LATE[i..][1..] == LATE[i + 1..];
    }
  }

  /** A summary of the old rows, computed before an activation, is stored under the new batch after it, and served. */
  lemma LateSummaryIsServed()
    ensures Fits(BEFORE) && Served(BEFORE) && CanAll(BEFORE, LATE)
    ensures var w := After(BEFORE, LATE);
            && w.data.rows == NEW_ROWS != OLD_ROWS && !Served(w)
            && w.data.snapshots[|w.data.snapshots| - 1] == Snapshot(1, OLD_ROWS, true)
  {
    LateRuns(0);
    assert LATE[0..] == LATE;
    assert OLD_ROWS[0] == CanonicalRow(0, 7) && NEW_ROWS[0] == CanonicalRow(1, 8);
  }
}
