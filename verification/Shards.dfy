/** One shard of the ledger (pkg/manifest/shard.go): its state, what it still
    owes the log, and the drain that hands that debt to a flush. */
module Shards {
  import opened Statuses
  import opened Records
  import opened Durability

  /** A drain's dirty sets, taken whole so a failed append can restore them. */
  datatype Drained = Drained(dirty: set<Cell>, unsettled: set<Path>)

  /** A shard's state, as a value. */
  datatype ShardState = ShardState(
    cells: map<Cell, Value>, dirty: set<Cell>, unsettled: set<Path>, inflight: set<Path>, stale: bool)
  {
    ghost predicate Wf() {
      && (forall c | c in cells :: Typed(c, cells[c]))
      && dirty <= cells.Keys
      && (forall k | k in unsettled :: SettledCell(k) in dirty)
      && (forall c | c in dirty && cells[c] == SettledVal(false) :: c.SettledCell? && c.key in unsettled)
    }

    predicate HasDirty() {
      dirty != {} || unsettled != {}
    }

    /** A change this run made: owed to the log, a withdrawn settlement ahead of
        everything else. */
    function WithPut(c: Cell, v: Value): ShardState
      requires Typed(c, v)
    {
      this.(cells := cells[c := v], dirty := dirty + {c},
            unsettled := if v == SettledVal(false) then unsettled + {c.key} else unsettled)
    }

    function AfterDrain(): ShardState {
      ShardState(cells, {}, {}, inflight + Paths(dirty), stale)
    }

    function AfterRestore(d: Drained): ShardState {
      ShardState(cells, dirty + d.dirty, unsettled + d.unsettled, inflight - Paths(d.dirty), stale)
    }

    function AfterAck(d: Drained): ShardState {
      ShardState(cells, dirty, unsettled, inflight - Paths(d.dirty), true)
    }
  }

  const FRESH := ShardState(map[], {}, {}, {}, false)

  /** The entry paths among some cells. */
  function Paths(cs: set<Cell>): set<Path> {
    set c | c in cs && c.EntryCell? :: c.path
  }

  /** What a drain emits: every dirty cell's current value, behind a leading
      `false` for each collection unsettled since the last drain. */
  ghost predicate Emits(cells: map<Cell, Value>, dirty: set<Cell>, unsettled: set<Path>, tag: Path, recs: seq<Rec>) {
    && dirty <= cells.Keys
    && (forall r | r in recs ::
          && r.shard == tag && r.cell in dirty
          && (r.val == cells[r.cell]
              || (r.cell.SettledCell? && r.cell.key in unsettled && r.val == SettledVal(false))))
    && (forall c | c in dirty :: Rec(tag, c, cells[c]) in recs)
    && (forall k | k in unsettled :: Rec(tag, SettledCell(k), SettledVal(false)) in recs)
    && Emitted(recs)
  }

  /** Within a class, entries precede marks, marks completions, and completions
      settlements. */
  predicate Emitted(recs: seq<Rec>) {
    forall i, j :: 0 <= i < j < |recs| && Class(recs[i].val) == Class(recs[j].val) ==>
      Emission(recs[i].val) <= Emission(recs[j].val)
  }

  /** The groups a drain emits, in order, behind the leading withdrawals. */
  datatype Group = Open | Closed | Marks | Completed | Settlements | RunMeta

  predicate InGroup(g: Group, c: Cell, v: Value, unsettled: set<Path>)
    requires Typed(c, v)
  {
    match g
    case Open => c.EntryCell? && !v.entry.status.Settled()
    case Closed => c.EntryCell? && v.entry.status.Settled()
    case Marks => c.MarkCell?
    case Completed => c.CompletedCell?
    case Settlements => c.SettledCell? && !(c.key in unsettled && v == SettledVal(false))
    case RunMeta => c.RunCell?
  }

  /** Where a record stands in the drain: the leading withdrawals, then the groups. */
  function Place(unsettled: set<Path>, r: Rec): nat {
    match r.val
    case SettledVal(b) => if !b && r.cell.SettledCell? && r.cell.key in unsettled then 0 else 5
    case EntryVal(e) => if e.status.Settled() then 2 else 1
    case MarkVal(_) => 3
    case CompletedVal => 4
    case RunVal(_) => 6
  }

  predicate InPlace(unsettled: set<Path>, recs: seq<Rec>) {
    forall i, j :: 0 <= i < j < |recs| ==> Place(unsettled, recs[i]) <= Place(unsettled, recs[j])
  }

  /** Enumerates a set in some order. */
  method Enumerate<T(==)>(s: set<T>) returns (q: seq<T>)
    ensures forall x :: x in q <==> x in s
    ensures |q| == |s|
  {
    q := [];
    var rest := s;
    while rest != {}
      invariant forall x :: x in s <==> x in rest || x in q
      invariant |q| + |rest| == |s|
      decreases rest
    {
      var x :| x in rest;
      q := q + [x];
      rest := rest - {x};
    }
  }

  class Shard {
    var cells: map<Cell, Value>
    var dirty: set<Cell>
    var unsettled: set<Path>
    var inflight: set<Path>
    var stale: bool

    constructor ()
      ensures State() == FRESH
    {
      cells, dirty, unsettled, inflight, stale := map[], {}, {}, {}, false;
    }

    function State(): ShardState
      reads this
    {
      ShardState(cells, dirty, unsettled, inflight, stale)
    }

    method Put(c: Cell, v: Value)
      requires Typed(c, v)
      modifies this
      ensures State() == old(State()).WithPut(c, v)
    {
      cells := cells[c := v];
      dirty := dirty + {c};
      if v == SettledVal(false) {
        unsettled := unsettled + {c.key};
      }
    }

    /** Applies one replayed log record, which leaves the shard's snapshot behind
        the log. */
    method ApplyRecord(c: Cell, v: Value)
      modifies this
      ensures State() == old(State()).(cells := old(cells)[c := v], stale := true)
    {
      cells := cells[c := v];
      stale := true;
    }

    /** Emits the selected cells with their current values. */
    method Emit(tag: Path, chosen: set<Cell>) returns (recs: seq<Rec>)
      requires chosen <= cells.Keys
      ensures forall r | r in recs :: r.shard == tag && r.cell in chosen && r.val == cells[r.cell]
      ensures forall c | c in chosen :: Rec(tag, c, cells[c]) in recs
    {
      var order := Enumerate(chosen);
      recs := [];
      for i := 0 to |order|
        invariant forall r | r in recs :: r.shard == tag && r.cell in chosen && r.val == cells[r.cell]
        invariant forall j | 0 <= j < i :: Rec(tag, order[j], cells[order[j]]) in recs
      {
        recs := recs + [Rec(tag, order[i], cells[order[i]])];
      }
    }

    /** The leading withdrawals of every collection unsettled since the last
        drain. */
    method EmitWithdrawals(tag: Path) returns (recs: seq<Rec>)
      ensures forall r | r in recs ::
                r.shard == tag && r.cell.SettledCell? && r.cell.key in unsettled && r.val == SettledVal(false)
      ensures forall k | k in unsettled :: Rec(tag, SettledCell(k), SettledVal(false)) in recs
    {
      var order := Enumerate(unsettled);
      recs := [];
      for i := 0 to |order|
        invariant forall r | r in recs ::
                    r.shard == tag && r.cell.SettledCell? && r.cell.key in unsettled && r.val == SettledVal(false)
        invariant forall j | 0 <= j < i :: Rec(tag, SettledCell(order[j]), SettledVal(false)) in recs
      {
        recs := recs + [Rec(tag, SettledCell(order[i]), SettledVal(false))];
      }
    }

    /** The batch for everything changed since the last flush, group by group. */
    method EmitAll(tag: Path) returns (recs: seq<Rec>)
      requires State().Wf()
      ensures Emits(cells, dirty, unsettled, tag, recs) && InPlace(unsettled, recs)
    {
      hide InPlace, Emitted;
      var leads := EmitWithdrawals(tag);
      var open := Emit(tag, Select(Group.Open));
      var closed := Emit(tag, Select(Group.Closed));
      var marks := Emit(tag, Select(Marks));
      var completed := Emit(tag, Select(Completed));
      var settled := Emit(tag, Select(Settlements));
      var run := Emit(tag, Select(RunMeta));
      recs := leads + open + closed + marks + completed + settled + run;
      InOrder(unsettled, leads, open, closed, marks, completed, settled, run);
      forall r ensures r in recs <==> r in leads || r in open || r in closed || r in marks || r in completed
                                      || r in settled || r in run {}
      forall c | c in dirty ensures Rec(tag, c, cells[c]) in recs {
        if c !in Select(Group.Open) + Select(Group.Closed) + Select(Marks) + Select(Completed) + Select(Settlements)
               + Select(RunMeta) {
          // A withdrawal that still stands already leads the batch.
          assert c.SettledCell? && c.key in unsettled && Rec(tag, SettledCell(c.key), SettledVal(false)) in leads;
        }
      }
      InPlaceEmitted(unsettled, recs);
    }

    /** The dirty cells of one group of the drain. */
    function Select(g: Group): (s: set<Cell>)
      requires State().Wf()
      reads this
      ensures s <= dirty
    {
      set c | c in dirty && InGroup(g, c, cells[c], unsettled)
    }

    /** Hands the dirty sets to the caller with the records that carry them; the
        drained entries stay in flight until acknowledged or restored. */
    method DrainDirty(tag: Path) returns (d: Drained, recs: seq<Rec>)
      requires State().Wf()
      modifies this
      ensures State() == old(State()).AfterDrain()
      ensures d == Drained(old(dirty), old(unsettled))
      ensures Emits(old(cells), d.dirty, d.unsettled, tag, recs) && InPlace(d.unsettled, recs)
    {
      d := Drained(dirty, unsettled);
      recs := EmitAll(tag);
      inflight := inflight + Paths(dirty);
      dirty, unsettled := {}, {};
    }

    /** Undoes a drain whose records never reached the log: the drained cells
        rejoin whatever was dirtied meanwhile. */
    method RestoreDirty(d: Drained)
      modifies this
      ensures State() == old(State()).AfterRestore(d)
    {
      dirty, unsettled := dirty + d.dirty, unsettled + d.unsettled;
      inflight := inflight - Paths(d.dirty);
    }

    /** Closes the in-flight window: the drained entries are durable, and the
        snapshot now trails the log. */
    method AckDrained(d: Drained)
      modifies this
      ensures State() == old(State()).AfterAck(d)
    {
      stale := true;
      inflight := inflight - Paths(d.dirty);
    }
  }

  /** The seven groups of a drain are emitted in durability order. */
  lemma InOrder(us: set<Path>, leads: seq<Rec>, open: seq<Rec>, closed: seq<Rec>, marks: seq<Rec>, completed: seq<Rec>,
                settled: seq<Rec>, run: seq<Rec>)
    requires AllIn(us, leads, 0) && AllIn(us, open, 1) && AllIn(us, closed, 2) && AllIn(us, marks, 3) && AllIn(us, completed, 4)
    requires AllIn(us, settled, 5) && AllIn(us, run, 6)
    ensures InPlace(us, leads + open + closed + marks + completed + settled + run)
  {
    hide AllIn, UpTo;
    assert UpTo(us, leads, 0) by { AtUpTo(us, leads, 0); }
    NextGroup(us, leads, open, 0);
    NextGroup(us, leads + open, closed, 1);
    NextGroup(us, leads + open + closed, marks, 2);
    NextGroup(us, leads + open + closed + marks, completed, 3);
    NextGroup(us, leads + open + closed + marks + completed, settled, 4);
    NextGroup(us, leads + open + closed + marks + completed + settled, run, 5);
  }

  ghost predicate AllIn(us: set<Path>, recs: seq<Rec>, place: nat) {
    forall r | r in recs :: Place(us, r) == place
  }

  ghost predicate UpTo(us: set<Path>, recs: seq<Rec>, place: nat) {
    InPlace(us, recs) && forall r | r in recs :: Place(us, r) <= place
  }

  lemma AtUpTo(us: set<Path>, recs: seq<Rec>, place: nat)
    requires AllIn(us, recs, place)
    ensures UpTo(us, recs, place)
  {
  }

  lemma NextGroup(us: set<Path>, a: seq<Rec>, b: seq<Rec>, place: nat)
    requires UpTo(us, a, place) && AllIn(us, b, place + 1)
    ensures UpTo(us, a + b, place + 1) && InPlace(us, a + b)
  {
    hide Place;
    var s := a + b;
    forall i, j | 0 <= i < j < |s| ensures Place(us, s[i]) <= Place(us, s[j]) {
      if j >= |a| { assert s[j] in b; assert i < |a| ==> s[i] in a; assert i >= |a| ==> s[i] in b; }
    }
  }

  /** Within a class that is the order of emission: withdrawals are the only
      records of their class a batch leads with. */
  lemma InPlaceEmitted(us: set<Path>, recs: seq<Rec>)
    requires InPlace(us, recs)
    ensures Emitted(recs)
  {
    forall i, j | 0 <= i < j < |recs| && Class(recs[i].val) == Class(recs[j].val)
      ensures Emission(recs[i].val) <= Emission(recs[j].val)
    {
      assert Place(us, recs[i]) <= Place(us, recs[j]);
    }
  }
}
