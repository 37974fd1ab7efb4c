/** The sharded, crash-safe ledger (pkg/manifest/ledger.go): in-memory shards,
    one append-only log for all of them, one snapshot a shard.

    A method below is what one hold of the ledger's lock does, so any order of
    calls is an interleaving of recording workers with a flush. */
module Ledgers {
  import opened Statuses
  import opened Records
  import opened Durability
  import opened Shards
  import opened Batches
  import opened Books
  import opened Loads
  import Refinement
  import Gates
  import GateDurability

  /** One recording worker's call. */
  datatype Work =
    | RecordEntry(path: Path, status: Status, terminal: bool)
    | SetSettled(key: Path, value: bool)
    | MarkComplete(key: Path)
    | AdvanceMark(key: Path, at: int)

  /** How an append ends: landed and fsynced, or failed, its trim leaving some
      whole lines behind. */
  datatype Append = Landed(bytes: nat) | Failed(left: nat)

  /** What happens around one shard's snapshot write during a fold: workers
      record after its document is built and again once it is on disk. */
  datatype Pause = Pause(before: seq<Work>, written: bool, after: seq<Work>)

  /** What happens around a fold: each shard's write, and whether the log's
      removal succeeds. */
  datatype Folding = Folding(pauses: Phys -> Pause, removed: bool) {
    /** Nothing is recorded while the fold runs. */
    ghost predicate Quiet() {
      forall h :: pauses(h).before == pauses(h).after == []
    }

    /** No write of the fold fails. */
    ghost predicate Sunny() {
      removed && forall h :: pauses(h).written
    }
  }

  // ------------------------------------------------------------------ tallies

  ghost function WithStatus(m: State, s: Status): set<Key> {
    set k | k in m && m[k].EntryVal? && m[k].entry.status == s
  }

  function Count(counts: map<Status, int>, s: Status): int {
    if s in counts then counts[s] else 0
  }

  function Add(counts: map<Status, int>, s: Status, n: int): map<Status, int> {
    counts[s := Count(counts, s) + n]
  }

  ghost predicate TalliesMatch(mem: State, cumulative: map<Status, int>, counts: map<Status, int>, counted: set<Key>) {
    && (forall s :: Count(cumulative, s) == |WithStatus(mem, s)|)
    && (forall s :: Count(counts, s) == |WithStatus(mem, s) * counted|)
  }

  /** The counters after one record: the entry leaves its old status, if it had
      one, and joins its new one. */
  function Moved(counts: map<Status, int>, was: Option<Status>, now: Status): map<Status, int> {
    Add(if was.Some? then Add(counts, was.value, -1) else counts, now, 1)
  }

  function StatusAt(mem: State, k: Key): Option<Status> {
    if k in mem && mem[k].EntryVal? then Some(mem[k].entry.status) else None
  }

  /** The entry a record leaves: one more attempt than the one it replaces. */
  function NextEntry(mem: State, k: Key, status: Status, terminal: bool, mirrored: map<Path, nat>): Entry {
    Entry(status, if k in mem && mem[k].EntryVal? then mem[k].entry.attempts + 1 else 1, terminal, mirrored)
  }

  lemma CardMoves<T>(a: set<T>, k: T, joins: bool)
    ensures |(a - {k}) + if joins then {k} else {}| == |a| - (if k in a then 1 else 0) + if joins then 1 else 0
  {
    if joins { assert |(a - {k}) + {k}| == |a - {k}| + 1; }
    if k !in a { assert a - {k} == a; }
  }

  lemma SetMoves(mem: State, k: Key, e: Entry, s: Status)
    ensures WithStatus(mem[k := EntryVal(e)], s) == (WithStatus(mem, s) - {k}) + if e.status == s then {k} else {}
    ensures k in WithStatus(mem, s) <==> StatusAt(mem, k) == Some(s)
  {
  }

  lemma OneMoves(mem: State, counted: set<Key>, k: Key, e: Entry, s: Status)
    ensures |WithStatus(mem[k := EntryVal(e)], s)| == |WithStatus(mem, s)|
            - (if StatusAt(mem, k) == Some(s) then 1 else 0) + (if e.status == s then 1 else 0)
    ensures |WithStatus(mem[k := EntryVal(e)], s) * (counted + {k})| == |WithStatus(mem, s) * counted|
            - (if k in counted && StatusAt(mem, k) == Some(s) then 1 else 0) + (if e.status == s then 1 else 0)
  {
    hide WithStatus, StatusAt;
    var a, a' := WithStatus(mem, s), WithStatus(mem[k := EntryVal(e)], s);
    SetMoves(mem, k, e, s);
    CardMoves(a, k, e.status == s);
    CardMoves(a * counted, k, e.status == s);
    assert a' * (counted + {k}) == (a * counted - {k}) + if e.status == s then {k} else {};
  }

  lemma MovedCount(counts: map<Status, int>, was: Option<Status>, now: Status, s: Status)
    ensures Count(Moved(counts, was, now), s)
            == Count(counts, s) - (if was == Some(s) then 1 else 0) + (if now == s then 1 else 0)
  {
  }

  lemma RecordTallies(mem: State, cumulative: map<Status, int>, counts: map<Status, int>, counted: set<Key>, k: Key,
                      e: Entry)
    requires TalliesMatch(mem, cumulative, counts, counted)
    ensures
      var was := StatusAt(mem, k);
      TalliesMatch(mem[k := EntryVal(e)], Moved(cumulative, was, e.status),
                   Moved(counts, if k in counted then was else None, e.status), counted + {k})
  {
    hide WithStatus, Moved, Count, StatusAt;
    var was := StatusAt(mem, k);
    forall s
      ensures Count(Moved(cumulative, was, e.status), s) == |WithStatus(mem[k := EntryVal(e)], s)|
      ensures Count(Moved(counts, if k in counted then was else None, e.status), s)
              == |WithStatus(mem[k := EntryVal(e)], s) * (counted + {k})|
    {
      OneMoves(mem, counted, k, e, s);
      MovedCount(cumulative, was, e.status, s);
      MovedCount(counts, if k in counted then was else None, e.status, s);
    }
  }

  lemma FlagTallies(mem: State, cumulative: map<Status, int>, counts: map<Status, int>, counted: set<Key>, k: Key,
                    v: Value)
    requires TalliesMatch(mem, cumulative, counts, counted)
    requires WellTyped(mem) && Typed(k.cell, v) && !k.cell.EntryCell?
    ensures TalliesMatch(mem[k := v], cumulative, counts, counted)
  {
    hide WithStatus;
    forall s { FlagStays(mem, k, v, s); }
  }

  lemma FlagStays(m: State, k: Key, v: Value, s: Status)
    requires WellTyped(m) && Typed(k.cell, v) && !k.cell.EntryCell?
    ensures WithStatus(m[k := v], s) == WithStatus(m, s)
  {
    if k in m { assert Typed(k.cell, m[k]); }
  }

  lemma RunTallies(mem: State, cumulative: map<Status, int>, counts: map<Status, int>, counted: set<Key>)
    requires TalliesMatch(mem, cumulative, counts, counted)
    ensures TalliesMatch(mem, cumulative, map[], {})
  {
    hide WithStatus;
    assert forall s :: WithStatus(mem, s) * {} == {};
  }

  /** How many runs the ledger has opened. */
  function Runs(mem: State, k: Key): nat {
    if k in mem && mem[k].RunVal? then mem[k].count else 0
  }

  lemma CountOne(mem: State, done: set<Key>, k: Key, s: Status)
    requires k !in done
    ensures |WithStatus(mem, s) * (done + {k})|
            == |WithStatus(mem, s) * done| + if StatusAt(mem, k) == Some(s) then 1 else 0
  {
    var w := WithStatus(mem, s);
    if k in w {
      assert w * (done + {k}) == w * done + {k};
    } else {
      assert w * (done + {k}) == w * done;
    }
  }

  lemma AllCounted(mem: State, cumulative: map<Status, int>, done: set<Key>)
    requires WellTyped(mem) && forall k | k in mem && k.cell.EntryCell? :: k in done
    requires forall s :: Count(cumulative, s) == |WithStatus(mem, s) * done|
    ensures TalliesMatch(mem, cumulative, map[], {})
  {
    forall s ensures WithStatus(mem, s) * done == WithStatus(mem, s) && WithStatus(mem, s) * {} == {} {
      forall k | k in WithStatus(mem, s) ensures k in done { assert Typed(k.cell, mem[k]); }
    }
  }

  // ---------------------------------------------------------- what workers record

  /** What one call records, given memory: one cell's new value, or nothing when a
      mark is not newer. */
  function Change(canon: Path -> Phys, m: State, w: Work): seq<Upsert> {
    match w
    case RecordEntry(p, status, terminal) =>
      var k := Key(canon(ShardKey(p)), EntryCell(p));
      [Upsert(k, EntryVal(NextEntry(m, k, status, terminal, map[])))]
    case SetSettled(c, v) => [Upsert(Key(canon(ShardKey(c)), SettledCell(c)), SettledVal(v))]
    case MarkComplete(c) => [Upsert(Key(canon(ShardKey(c)), CompletedCell(c)), CompletedVal)]
    case AdvanceMark(c, at) =>
      var k := Key(canon(ShardKey(c)), MarkCell(c));
      if k in m && m[k].MarkVal? && m[k].at >= at then [] else [Upsert(k, MarkVal(at))]
  }

  /** What several calls record, one after the other. */
  function Changes(canon: Path -> Phys, m: State, ws: seq<Work>): (us: seq<Upsert>)
    ensures AllTyped(us)
  {
    if ws == [] then []
    else
      var us := Changes(canon, m, ws[..|ws| - 1]);
      us + Change(canon, Replay(m, us), ws[|ws| - 1])
  }

  /** What workers record in each of several pauses. */
  function Meanwhile(canon: Path -> Phys, m: State, pauses: nat -> seq<Work>, n: nat): (us: seq<Upsert>)
    ensures AllTyped(us)
  {
    if n == 0 then []
    else
      var us := Meanwhile(canon, m, pauses, n - 1);
      us + Changes(canon, Replay(m, us), pauses(n - 1))
  }

  /** Memory at the end of each pause. */
  function Moments(canon: Path -> Phys, m: State, pauses: nat -> seq<Work>, n: nat): seq<State> {
    seq(n, i requires 0 <= i < n => Replay(m, Meanwhile(canon, m, pauses, i + 1)))
  }

  /** A reference: each reading is of memory at the moment it was read, what the
      workers recorded meanwhile is `us`, and the gate is written over both. */
  ghost predicate Refers(canon: Path -> Phys, l: Gates.Layout, b: Book, gate: Path, shared: seq<Path>, retryAbsent: bool,
                         pauses: nat -> seq<Work>, again: nat -> seq<Work>, us: seq<Upsert>, sight: Gates.Sight, b': Book)
  {
    var early := Meanwhile(canon, b.mem, pauses, |shared|);
    var late := Meanwhile(canon, Replay(b.mem, early), again, |shared|);
    && us == early + late && AllTyped(us)
    && sight.first.Keys == sight.again.Keys == (set p | p in shared)
    && (forall p | p in sight.first :: Gates.ReadFrom(l, Moments(canon, b.mem, pauses, |shared|), p, sight.first[p]))
    && (forall p | p in sight.again ::
          Gates.ReadFrom(l, Moments(canon, Replay(b.mem, early), again, |shared|), p, sight.again[p]))
    && b' == GateDurability.Referred(l, WorkedAll(b, us), gate, sight, retryAbsent)
  }

  /** A recorded entry has its status and one more attempt, and no other cell
      changes. */
  lemma RecordedIs(canon: Path -> Phys, m: State, p: Path, status: Status, terminal: bool)
    ensures
      var k, m' := Key(canon(ShardKey(p)), EntryCell(p)), Replay(m, Change(canon, m, RecordEntry(p, status, terminal)));
      && k in m' && m' == m[k := m'[k]] && m'[k].EntryVal?
      && m'[k].entry == Entry(status, if k in m && m[k].EntryVal? then m[k].entry.attempts + 1 else 1, terminal, map[])
  {
    var us := Change(canon, m, RecordEntry(p, status, terminal));
    assert us[..0] == [] && Replay(m, us) == m[us[0].key := us[0].val];
  }

  /** A flag has the value it is given, a completed collection its completion, and no
      other cell changes. */
  lemma FlaggedIs(canon: Path -> Phys, m: State, c: Path, v: bool)
    ensures Replay(m, Change(canon, m, SetSettled(c, v))) == m[Key(canon(ShardKey(c)), SettledCell(c)) := SettledVal(v)]
    ensures Replay(m, Change(canon, m, MarkComplete(c))) == m[Key(canon(ShardKey(c)), CompletedCell(c)) := CompletedVal]
  {
    var us, vs := Change(canon, m, SetSettled(c, v)), Change(canon, m, MarkComplete(c));
    assert us[..0] == [] == vs[..0];
  }

  /** A high-water mark keeps the newest time seen. */
  lemma MarkAdvances(canon: Path -> Phys, m: State, c: Path, at: int)
    ensures
      var k, m' := Key(canon(ShardKey(c)), MarkCell(c)), Replay(m, Change(canon, m, AdvanceMark(c, at)));
      && k in m' && m'[k].MarkVal? && m' == m[k := m'[k]]
      && m'[k].at == if k in m && m[k].MarkVal? && m[k].at > at then m[k].at else at
  {
    var k := Key(canon(ShardKey(c)), MarkCell(c));
    var us := Change(canon, m, AdvanceMark(c, at));
    assert us != [] ==> us[..0] == [] && Replay(m, us) == m[k := MarkVal(at)];
    assert us == [] ==> m == m[k := m[k]];
  }

  // ---------------------------------------------------- the ledger's runs of holds

  /** A run of holds between two moments with nothing in flight, and what it leaves
      of the log's file. */
  ghost predicate Ran(canon: Path -> Phys, b: Book, file: seq<Rec>, holds: seq<Refinement.Hold>, b': Book, file': seq<Rec>) {
    Refinement.Reaches(canon, b, holds, b') && Refinement.Pending(holds) == [] && file' == Refinement.Filed(file, holds)
  }

  lemma RanNot(canon: Path -> Phys, b: Book, file: seq<Rec>)
    ensures Ran(canon, b, file, [], b, file) && Refinement.WorksOf([]) == []
  {
  }

  lemma RanAgain(canon: Path -> Phys, a: Book, fa: seq<Rec>, hs: seq<Refinement.Hold>, b: Book, fb: seq<Rec>,
                 more: seq<Refinement.Hold>, c: Book, fc: seq<Rec>)
    requires Ran(canon, a, fa, hs, b, fb) && Ran(canon, b, fb, more, c, fc)
    ensures Ran(canon, a, fa, hs + more, c, fc)
    ensures Refinement.WorksOf(hs + more) == Refinement.WorksOf(hs) + Refinement.WorksOf(more)
  {
    hide Refinement.Reaches, Refinement.Filed, Refinement.Pending;
    Refinement.ReachesAgain(canon, a, hs, b, more, c);
    Refinement.FiledConcat(fa, hs, more);
    Refinement.WorksConcat(hs, more);
  }

  lemma RanOne(canon: Path -> Phys, b: Book, file: seq<Rec>, hold: Refinement.Hold, b': Book)
    requires Refinement.Next(canon, b, hold, b') && (hold.WriteSnapshot? || hold.ClearStale? || hold.RemoveLog?)
    ensures Ran(canon, b, file, [hold], b', if hold.RemoveLog? then [] else file) && Refinement.WorksOf([hold]) == []
  {
    hide Refinement.Next;
    Refinement.ReachesOne(canon, b, hold, b');
    assert [hold][..0] == [] && Refinement.Pending([hold][..0]) == [] && Refinement.Filed(file, [hold][..0]) == file;
  }

  lemma RanWorks(canon: Path -> Phys, b: Book, file: seq<Rec>, us: seq<Upsert>)
    requires AllTyped(us)
    ensures Ran(canon, b, file, Refinement.Works(us), WorkedAll(b, us), file)
    ensures Refinement.WorksOf(Refinement.Works(us)) == us
  {
    hide Refinement.Reaches, WorkedAll;
    Refinement.ReachesWorks(canon, b, us);
    Refinement.FiledWorks(file, [], us);
    assert [] + Refinement.Works(us) == Refinement.Works(us);
  }

  /** A drain, what is recorded while its batch is in flight, and the batch's end. */
  lemma RanFlush(canon: Path -> Phys, b: Book, file: seq<Rec>, batch: seq<Rec>, us: seq<Upsert>, end: Refinement.Hold, b': Book)
    returns (holds: seq<Refinement.Hold>)
    requires Refinement.Next(canon, b, Refinement.Drain(batch), AfterDrain(b, batch)) && AllTyped(us)
    requires Refinement.Next(canon, WorkedAll(AfterDrain(b, batch), us), end, b') && (end.Acknowledge? || end.Fail?)
    ensures holds == [Refinement.Drain(batch)] + Refinement.Works(us) + [end] && Refinement.WorksOf(holds) == us
    ensures Ran(canon, b, file, holds, b',
                file + if end.Acknowledge? then batch else batch[..if end.left <= |batch| then end.left else |batch|])
  {
    hide Refinement.Next, Refinement.Reaches, WorkedAll;
    var drain, works := [Refinement.Drain(batch)], Refinement.Works(us);
    var d, x := AfterDrain(b, batch), WorkedAll(AfterDrain(b, batch), us);
    Refinement.ReachesOne(canon, b, Refinement.Drain(batch), d);
    Refinement.ReachesWorks(canon, d, us);
    Refinement.ReachesAgain(canon, b, drain, d, works, x);
    Refinement.ReachesOne(canon, x, end, b');
    Refinement.ReachesAgain(canon, b, drain + works, x, [end], b');
    holds := drain + works + [end];
    assert holds[..|holds| - 1] == drain + works && drain[..0] == [];
    Refinement.FiledWorks(file, drain, us);
    Refinement.WorksConcat(drain + works, [end]);
    Refinement.WorksConcat(drain, works);
    assert [end][..0] == [];
  }

  /** One shard's compaction, workers recording on either side of the write. */
  lemma RanCompact(canon: Path -> Phys, b: Book, file: seq<Rec>, us: seq<Upsert>, h: Phys, doc: map<Cell, Value>,
                   more: seq<Upsert>) returns (holds: seq<Refinement.Hold>)
    requires AllTyped(us) && AllTyped(more)
    requires
      var x := WorkedAll(b, us);
      x.flight.None? && Documents(canon, x, h, doc) && WorkedAll(Wrote(x, h, doc), more).flight.None?
    requires
      var y := WorkedAll(Wrote(WorkedAll(b, us), h, doc), more);
      h in y.shards && Snapped(canon, y, h)
    ensures Ran(canon, b, file, holds, Caught(WorkedAll(Wrote(WorkedAll(b, us), h, doc), more), h), file)
    ensures Refinement.WorksOf(holds) == us + more
  {
    hide WorkedAll, Documents, Snapped, Wrote, Caught, Ran;
    var x := WorkedAll(b, us);
    var y := WorkedAll(Wrote(x, h, doc), more);
    RanWorks(canon, b, file, us);
    RanOne(canon, x, file, Refinement.WriteSnapshot(h, doc), Wrote(x, h, doc));
    RanAgain(canon, b, file, Refinement.Works(us), x, file, [Refinement.WriteSnapshot(h, doc)], Wrote(x, h, doc), file);
    holds := Refinement.Works(us) + [Refinement.WriteSnapshot(h, doc)];
    RanWorks(canon, Wrote(x, h, doc), file, more);
    RanAgain(canon, b, file, holds, Wrote(x, h, doc), file, Refinement.Works(more), y, file);
    holds := holds + Refinement.Works(more);
    RanOne(canon, y, file, Refinement.ClearStale(h), Caught(y, h));
    RanAgain(canon, b, file, holds, y, file, [Refinement.ClearStale(h)], Caught(y, h), file);
    holds := holds + [Refinement.ClearStale(h)];
    assert us + [] + more + [] == us + more;
  }

  // ------------------------------------------------------------------- ledger

  class Ledger {
    const canon: Path -> Phys
    const threshold: nat
    var keys: set<Path>
    var phys: map<Phys, Shard>
    var compactNext: bool
    var walBytes: nat
    var counts: map<Status, int>
    var cumulative: map<Status, int>
    var counted: set<Key>

    // The same shards as values, and the disk beside them.
    ghost var book: Book
    // The log file's whole lines, as they were written.
    ghost var file: seq<Rec>

    ghost function View(): map<Phys, ShardState>
      reads this`phys, phys.Values
    {
      map h | h in phys :: phys[h].State()
    }

    /** Every shard has one object, and every object a registered key. */
    ghost predicate Linked()
      reads this`keys, this`phys
    {
      && (forall h, g | h in phys && g in phys && h != g :: phys[h] != phys[g])
      && (forall sk | sk in keys :: canon(sk) in phys)
      && (forall h | h in phys :: Named(keys, h))
    }

    ghost predicate Named(ks: set<Path>, h: Phys) {
      exists sk :: sk in ks && canon(sk) == h
    }

    /** The shard objects are the book's, and the book is good. */
    ghost predicate Kept()
      reads this`keys, this`phys, this`book, phys.Values
    {
      Linked() && View() == book.shards && Good(canon, book)
    }

    ghost predicate Valid()
      reads this`keys, this`phys, this`book, this`counts, this`cumulative, this`counted, phys.Values
    {
      Kept() && TalliesMatch(book.mem, cumulative, counts, counted)
    }

    // ----------------------------------------------------------- shard objects

    /** The shard a key's directory resolves to, opened on its first use; two
        keys over one directory share its shard. */
    method ShardFor(sk: Path) returns (sh: Shard)
      requires Linked()
      modifies this`keys, this`phys
      ensures Linked()
      ensures canon(sk) in phys && sh == phys[canon(sk)]
      ensures canon(sk) !in old(phys) ==> fresh(sh)
      ensures keys == old(keys) + {sk}
      ensures fresh(phys.Values - old(phys.Values))
      ensures View() == WithShard(old(View()), canon(sk))
    {
      NamesGrow(keys, sk);
      hide Named;
      var h := canon(sk);
      if h !in phys { AddShard(h); }
      sh := phys[h];
      keys := keys + {sk};
    }

    method AddShard(h: Phys)
      requires h !in phys
      modifies this`phys
      ensures h in phys && fresh(phys[h]) && phys == old(phys)[h := phys[h]]
      ensures View() == old(View())[h := FRESH]
    {
      var sh := new Shard();
      phys := phys[h := sh];
    }

    lemma NamesGrow(ks: set<Path>, sk: Path)
      ensures Named(ks + {sk}, canon(sk))
      ensures forall h | Named(ks, h) :: Named(ks + {sk}, h)
    {
      assert sk in ks + {sk};
      forall h | Named(ks, h) ensures Named(ks + {sk}, h) {
        var k :| k in ks && canon(k) == h;
        assert k in ks + {sk};
      }
    }

    /** Only one shard's object changed. */
    twostate lemma OnlyShard(h: Phys)
      requires old(Linked()) && phys == old(phys) && h in phys
      requires forall g | g in phys && g != h :: unchanged(phys[g])
      ensures View() == old(View())[h := phys[h].State()]
    {
    }

    /** One cell's change, in its own shard. */
    method PutAt(c: Cell, v: Value) returns (ghost k: Key)
      requires Linked() && Typed(c, v)
      modifies this`keys, this`phys, phys.Values
      ensures Linked() && fresh(phys.Values - old(phys.Values))
      ensures k == Key(canon(OwnShardKey(c)), c)
      ensures View() == Placed(old(View()), k, v)
    {
      var sh := ShardFor(OwnShardKey(c));
      k := Key(canon(OwnShardKey(c)), c);
      label found:
      hide ShardState.WithPut;
      sh.Put(c, v);
      OnlyShard@found(k.phys);
    }

    /** One lock hold of a worker, tallies apart. */
    method Settle(c: Cell, v: Value)
      requires Kept() && Typed(c, v)
      modifies this`keys, this`phys, this`book, phys.Values
      ensures Kept() && fresh(phys.Values - old(phys.Values))
      ensures book == Worked(old(book), Key(canon(OwnShardKey(c)), c), v)
    {
      hide Good, Worked, Placed;
      ghost var k := Key(canon(OwnShardKey(c)), c);
      WorkedGood(canon, book, k, v);
      WorkedParts(book, k, v);
      ghost var _ := PutAt(c, v);
      book := Worked(book, k, v);
    }

    // ------------------------------------------------------- recording workers

    /** One entry's rewrite, with both tallies kept in step. */
    method RecordLocked(p: Path, status: Status, terminal: bool, mirrored: map<Path, nat>)
      requires Valid()
      modifies this`keys, this`phys, this`counts, this`cumulative, this`counted, this`book, phys.Values
      ensures Valid() && fresh(phys.Values - old(phys.Values))
      ensures
        var k := Key(canon(ShardKey(p)), EntryCell(p));
        book == Worked(old(book), k, EntryVal(NextEntry(old(book).mem, k, status, terminal, mirrored)))
      ensures counted == old(counted) + {Key(canon(ShardKey(p)), EntryCell(p))}
      ensures Rewrote(Key(canon(ShardKey(p)), EntryCell(p)), status, terminal, mirrored, old(book), book)
    {
      hide Kept, TalliesMatch, Worked, Placed, StatusAt, Moved, Rewrote;
      ghost var b := book;
      var k := Key(canon(ShardKey(p)), EntryCell(p));
      var was := Recorded(k);
      var e := Entry(status, if was.Some? then was.value.attempts + 1 else 1, terminal, mirrored);
      assert e == NextEntry(book.mem, k, status, terminal, mirrored);
      RecordTallies(book.mem, cumulative, counts, counted, k, e);
      WorkedParts(book, k, EntryVal(e));
      Retally(k, if was.Some? then Some(was.value.status) else None, status);
      Settle(EntryCell(p), EntryVal(e));
      WorkedRewrote(b, k, e);
    }

    lemma WorkedRewrote(b: Book, k: Key, e: Entry)
      requires k.cell.EntryCell? && e.attempts == if k in b.mem && b.mem[k].EntryVal? then b.mem[k].entry.attempts + 1 else 1
      ensures Rewrote(k, e.status, e.terminal, e.mirrored, b, Worked(b, k, EntryVal(e)))
    {
      WorkedParts(b, k, EntryVal(e));
    }

    /** One entry has the status it was given and one more attempt than before, it
        is owed to the log, and no other cell of memory changed. */
    ghost predicate Rewrote(k: Key, status: Status, terminal: bool, mirrored: map<Path, nat>, b: Book, b': Book) {
      && k in b'.mem && b'.mem[k].EntryVal? && k in b'.dirty
      && (forall j | j != k :: At(b'.mem, j) == At(b.mem, j))
      && var e := b'.mem[k].entry;
         && e.status == status && e.terminal == terminal && e.mirrored == mirrored
         && e.attempts == (if k in b.mem && b.mem[k].EntryVal? then b.mem[k].entry.attempts + 1 else 1)
    }

    /** The entry on record at a key. */
    method Recorded(k: Key) returns (e: Option<Entry>)
      requires Valid() && k.cell.EntryCell?
      ensures e.Some? <==> k in book.mem
      ensures e.Some? ==> book.mem[k] == EntryVal(e.value)
      ensures StatusAt(book.mem, k) == if e.Some? then Some(e.value.status) else None
    {
      hide TalliesMatch;
      GoodTied(canon, book, k);
      ViewAt(k);
      hide Good;
      e := None;
      if k.phys in phys && k.cell in phys[k.phys].cells {
        e := Some(phys[k.phys].cells[k.cell].entry);
      }
    }

    /** The entry leaves the status it counted under and joins its new one. */
    method Retally(k: Key, was: Option<Status>, now: Status)
      modifies this`counts, this`cumulative, this`counted
      ensures cumulative == Moved(old(cumulative), was, now)
      ensures counts == Moved(old(counts), if k in old(counted) then was else None, now)
      ensures counted == old(counted) + {k}
    {
      if was.Some? {
        if k in counted { counts := Add(counts, was.value, -1); }
        cumulative := Add(cumulative, was.value, -1);
      }
      counts := Add(counts, now, 1);
      cumulative := Add(cumulative, now, 1);
      counted := counted + {k};
    }

    /** What the shard objects hold is what the book says. */
    lemma ViewAt(k: Key)
      requires Linked() && View() == book.shards
      ensures CellAt(book.shards, k)
              == if k.phys in phys && k.cell in phys[k.phys].cells then Some(phys[k.phys].cells[k.cell]) else None
    {
    }

    /** A flag or mark of a collection, or the run's own record. */
    method Flag(c: Cell, v: Value)
      requires Valid() && Typed(c, v) && !c.EntryCell?
      modifies this`keys, this`phys, this`book, phys.Values
      ensures Valid() && fresh(phys.Values - old(phys.Values))
      ensures book == Worked(old(book), Key(canon(OwnShardKey(c)), c), v)
    {
      hide Good, TalliesMatch, Worked;
      ghost var k := Key(canon(OwnShardKey(c)), c);
      GoodTyped(canon, book);
      FlagTallies(book.mem, cumulative, counts, counted, k, v);
      WorkedParts(book, k, v);
      Settle(c, v);
    }

    /** A new run: its number advances and its own tally restarts. */
    method StartRun()
      requires Valid()
      modifies this`keys, this`phys, this`counts, this`counted, this`book, phys.Values
      ensures Valid() && fresh(phys.Values - old(phys.Values))
      ensures counted == {} && counts == map[]
      ensures book == Worked(old(book), Key(canon([]), RunCell), RunVal(Runs(old(book).mem, Key(canon([]), RunCell)) + 1))
      ensures
        var k := Key(canon([]), RunCell);
        book.mem == old(book).mem[k := RunVal(if k in old(book).mem && old(book).mem[k].RunVal? then old(book).mem[k].count + 1 else 1)]
    {
      hide Kept, TalliesMatch, Worked, Runs;
      RunsOne(book);
      var n := RunNumber();
      Flag(RunCell, RunVal(n + 1));
      RunTallies(book.mem, cumulative, counts, counted);
      counts, counted := map[], {};
    }

    lemma RunsOne(b: Book)
      ensures
        var k := Key(canon([]), RunCell);
        Worked(b, k, RunVal(Runs(b.mem, k) + 1)).mem
        == b.mem[k := RunVal(if k in b.mem && b.mem[k].RunVal? then b.mem[k].count + 1 else 1)]
    {
      WorkedParts(b, Key(canon([]), RunCell), RunVal(Runs(b.mem, Key(canon([]), RunCell)) + 1));
    }

    method RunNumber() returns (n: nat)
      requires Valid()
      ensures n == Runs(book.mem, Key(canon([]), RunCell))
    {
      hide TalliesMatch;
      var h := canon([]);
      GoodTied(canon, book, Key(h, RunCell));
      ViewAt(Key(h, RunCell));
      hide Good;
      n := 0;
      if h in phys && RunCell in phys[h].cells { n := phys[h].cells[RunCell].count; }
    }

    /** A collection's high-water mark, if it has one. */
    method MarkOf(c: Path) returns (at: Option<int>)
      requires Valid()
      ensures
        var k := Key(canon(ShardKey(c)), MarkCell(c));
        at == if k in book.mem && book.mem[k].MarkVal? then Some(book.mem[k].at) else None
    {
      hide TalliesMatch;
      var k := Key(canon(ShardKey(c)), MarkCell(c));
      GoodTied(canon, book, k);
      ViewAt(k);
      hide Good;
      at := None;
      if k.phys in phys && k.cell in phys[k.phys].cells { at := Some(phys[k.phys].cells[k.cell].at); }
    }

    /** A worker's call. */
    method Do(w: Work) returns (ghost us: seq<Upsert>)
      requires Valid()
      modifies this`keys, this`phys, this`counts, this`cumulative, this`counted, this`book, phys.Values
      ensures Valid() && fresh(phys.Values - old(phys.Values))
      ensures us == Change(canon, old(book).mem, w) && AllTyped(us) && book == WorkedAll(old(book), us)
    {
      hide Valid, Worked;
      ghost var b := book;
      us := Change(canon, book.mem, w);
      match w
      case RecordEntry(p, status, terminal) =>
        RecordLocked(p, status, terminal, map[]);
        WorkedOnce(b, us[0]);
      case SetSettled(c, v) =>
        Flag(SettledCell(c), SettledVal(v));
        WorkedOnce(b, us[0]);
      case MarkComplete(c) =>
        Flag(CompletedCell(c), CompletedVal);
        WorkedOnce(b, us[0]);
      case AdvanceMark(c, at) =>
        var was := MarkOf(c);
        if was.None? || was.value < at {
          Flag(MarkCell(c), MarkVal(at));
          WorkedOnce(b, us[0]);
        }
    }

    lemma WorkedOnce(b: Book, u: Upsert)
      requires Typed(u.key.cell, u.val)
      ensures AllTyped([u]) && WorkedAll(b, [u]) == Worked(b, u.key, u.val) && Worked(b, u.key, u.val).mem == b.mem[u.key := u.val]
    {
      assert [u][..0] == [];
    }

    /** Workers recording while a flush does not hold the lock. */
    method Workers(ws: seq<Work>) returns (ghost us: seq<Upsert>)
      requires Valid()
      modifies this`keys, this`phys, this`counts, this`cumulative, this`counted, this`book, phys.Values
      ensures Valid() && fresh(phys.Values - old(phys.Values))
      ensures us == Changes(canon, old(book).mem, ws) && book == WorkedAll(old(book), us)
      ensures book.mem == Replay(old(book).mem, us) && (ws == [] ==> us == [])
    {
      hide Valid, Worked;
      us := [];
      for i := 0 to |ws|
        invariant Valid() && fresh(phys.Values - old(phys.Values))
        invariant us == Changes(canon, old(book).mem, ws[..i]) && book == WorkedAll(old(book), us)
        invariant book.mem == Replay(old(book).mem, us)
      {
        assert ws[..i + 1][..i] == ws[..i];
        ghost var more := Do(ws[i]);
        WorkedOn(old(book), us, more);
        WorkedMemory(old(book), us + more);
        us := us + more;
      }
      assert ws[..|ws|] == ws;
    }

    lemma WorkedMemory(b: Book, us: seq<Upsert>)
      requires AllTyped(us)
      ensures WorkedAll(b, us).mem == Replay(b.mem, us)
    {
      Refinement.ReachesWorks(canon, b, us);
      Refinement.ReachesMemory(canon, b, Refinement.Works(us), WorkedAll(b, us));
    }

    /** Whether an entry beneath a prefix is still to be retried, in the shard the
        prefix routes to. */
    method HasUnsettledUnder(prefix: Path, retryAbsent: bool) returns (found: bool)
      requires Valid()
      ensures found <==> exists k :: Retryable(book.mem, canon(ShardKey(prefix)), prefix, retryAbsent, k)
    {
      hide TalliesMatch;
      var h := canon(ShardKey(prefix));
      found := h in phys && exists c :: c in phys[h].cells && ToRetry(prefix, retryAbsent, c, phys[h].cells[c]);
      forall k ensures Retryable(book.mem, h, prefix, retryAbsent, k)
                       <==> k.phys == h && h in phys && k.cell in phys[h].cells
                            && ToRetry(prefix, retryAbsent, k.cell, phys[h].cells[k.cell])
      {
        GoodTied(canon, book, k);
        ViewAt(k);
      }
      if found {
        var c :| c in phys[h].cells && ToRetry(prefix, retryAbsent, c, phys[h].cells[c]);
        assert Retryable(book.mem, h, prefix, retryAbsent, Key(h, c));
      }
    }

    predicate ToRetry(prefix: Path, retryAbsent: bool, c: Cell, v: Value) {
      && c.EntryCell? && v.EntryVal? && prefix < c.path
      && (!v.entry.status.Settled() || (retryAbsent && (v.entry.status.Absent? || v.entry.status.ReferenceAbsent?)))
    }

    ghost predicate Retryable(m: State, h: Phys, prefix: Path, retryAbsent: bool, k: Key) {
      && k in m && k.phys == h && k.cell.EntryCell? && prefix < k.cell.path && m[k].EntryVal?
      && (m[k].entry.status in {Errored, Forbidden, Pending}
          || (retryAbsent && m[k].entry.status in {Absent, ReferenceAbsent}))
    }

    // ------------------------------------------------------------------ a flush

    /** Some shards drained, the others as they were. */
    ghost function Partly(was: map<Phys, ShardState>, done: set<Phys>): map<Phys, ShardState> {
      map h | h in was :: if h in done then was[h].AfterDrain() else was[h]
    }

    /** What the drains of some shards took. */
    ghost function Taken(was: map<Phys, ShardState>, done: set<Phys>): map<Phys, Drained> {
      map h | h in was && h in done && was[h].HasDirty() :: Drained.Drained(was[h].dirty, was[h].unsettled)
    }

    /** The directories the first `n` keys reach. */
    ghost function Reached(order: seq<Path>, n: nat): set<Phys>
      requires n <= |order|
    {
      set j | 0 <= j < n :: canon(order[j])
    }

    /** Every dirty shard drained, on whichever of its keys comes first. */
    method DrainShards() returns (work: map<Phys, Drained>, recs: seq<Rec>)
      requires Linked() && View() == book.shards && Tied(book) && Owed(book.mem, book.dirty, book.lead)
      modifies phys.Values
      ensures View() == Partly(book.shards, book.shards.Keys)
      ensures work == Taken(book.shards, book.shards.Keys)
      ensures Merged(canon, book.mem, book.dirty, book.lead, book.shards.Keys, recs)
    {
      hide Linked, Tied, Partly, Taken;
      var order := Enumerate(keys);
      work, recs := map[], [];
      NothingDrained(book);
      assert Reached(order, 0) == {};
      hide Merged, Owed;
      for i := 0 to |order|
        invariant View() == Partly(book.shards, Reached(order, i))
        invariant work == Taken(book.shards, Reached(order, i))
        invariant Merged(canon, book.mem, book.dirty, book.lead, Reached(order, i), recs)
      {
        assert order[i] in keys;
        assert Reached(order, i + 1) == Reached(order, i) + {canon(order[i])};
        var more;
        work, more := DrainShard(order[i], Reached(order, i), work, recs);
        recs := recs + more;
      }
      assert Reached(order, |order|) == book.shards.Keys by {
        AllReached(order);
      }
    }

    lemma DrainStep(was: map<Phys, ShardState>, done: set<Phys>, h: Phys)
      requires h in was
      ensures
        if h in done || !was[h].HasDirty() then
          Partly(was, done + {h}) == Partly(was, done) && Taken(was, done + {h}) == Taken(was, done)
        else
          && Partly(was, done + {h}) == Partly(was, done)[h := was[h].AfterDrain()]
          && Taken(was, done + {h}) == Taken(was, done)[h := Drained.Drained(was[h].dirty, was[h].unsettled)]
    {
      if !was[h].HasDirty() { assert was[h].AfterDrain() == was[h]; }
    }

    lemma NothingDrained(b: Book)
      requires b.dirty <= b.mem.Keys
      ensures Partly(b.shards, {}) == b.shards && Taken(b.shards, {}) == map[]
      ensures Merged(canon, b.mem, b.dirty, b.lead, {}, [])
    {
    }

    lemma AllReached(order: seq<Path>)
      requires Linked() && forall sk :: sk in order <==> sk in keys
      ensures Reached(order, |order|) == phys.Keys
    {
      forall h | h in phys ensures h in Reached(order, |order|) {
        assert Named(keys, h);
        var sk :| sk in keys && canon(sk) == h;
        assert sk in order;
      }
      forall j | 0 <= j < |order| ensures canon(order[j]) in phys {
        assert order[j] in keys;
      }
    }

    /** One key's shard, drained if it owes anything. */
    method DrainShard(sk: Path, ghost done: set<Phys>, work: map<Phys, Drained>, ghost recs: seq<Rec>)
      returns (work': map<Phys, Drained>, more: seq<Rec>)
      requires Linked() && sk in keys && phys.Keys == book.shards.Keys && View() == Partly(book.shards, done)
      requires Tied(book) && Owed(book.mem, book.dirty, book.lead) && work == Taken(book.shards, done)
      requires Merged(canon, book.mem, book.dirty, book.lead, done, recs)
      modifies phys.Values
      ensures View() == Partly(book.shards, done + {canon(sk)})
      ensures work' == Taken(book.shards, done + {canon(sk)})
      ensures Merged(canon, book.mem, book.dirty, book.lead, done + {canon(sk)}, recs + more)
    {
      var h := canon(sk);
      var sh := phys[h];
      work', more := work, [];
      Undrained(h, done);
      hide Merged, Owed, Tied, Partly, Taken;
      DrainStep(book.shards, done, h);
      if sh.State().HasDirty() {
        var d;
        d, more := sh.DrainDirty(sk);
        work' := work[h := d];
        OnlyShard(h);
        MergeDrain(canon, book, done, recs, sk, more);
      } else {
        MergeIdle(canon, book, done, recs, h);
        assert recs + [] == recs;
      }
    }

    /** A shard that is dirty mid-drain has not been reached yet. */
    lemma Undrained(h: Phys, done: set<Phys>)
      requires h in phys && phys.Keys == book.shards.Keys && View() == Partly(book.shards, done) && Tied(book)
      ensures phys[h].State().HasDirty() ==> h !in done && phys[h].State() == book.shards[h]
      ensures !phys[h].State().HasDirty() ==> h in done || !book.shards[h].HasDirty()
      ensures book.shards[h].Wf()
    {
      assert phys[h].State() == View()[h];
    }

    /** The whole drain, under one lock hold: the shards' drains merged and
        sorted by class. */
    method Drain() returns (work: map<Phys, Drained>, batch: seq<Rec>)
      requires Valid() && book.flight.None?
      modifies this`book, phys.Values
      ensures Valid() && work == WorkOf(old(book).shards)
      ensures IsBatch(old(book).mem, old(book).dirty, old(book).lead, Routed(canon, batch))
      ensures book == AfterDrain(old(book), batch)
    {
      hide TalliesMatch, Good, Merged, Tied, Owed, IsBatch, AfterDrain, Partly, Taken, WorkOf, Linked, Image;
      var recs;
      GoodParts(canon, book);
      work, recs := DrainShards();
      batch := ByClass(recs);
      DrainedWhole(book, recs);
      DrainGood(canon, book, batch);
      book := AfterDrain(book, batch);
    }

    lemma DrainedWhole(b: Book, recs: seq<Rec>)
      requires Good(canon, b)
      requires Merged(canon, b.mem, b.dirty, b.lead, b.shards.Keys, recs)
      ensures Partly(b.shards, b.shards.Keys) == AfterDrain(b, ByClass(recs)).shards
      ensures AfterDrain(b, ByClass(recs)).mem == b.mem
      ensures Taken(b.shards, b.shards.Keys) == WorkOf(b.shards)
      ensures IsBatch(b.mem, b.dirty, b.lead, Routed(canon, ByClass(recs)))
    {
      forall k | k in b.dirty ensures k.phys in b.shards {
        assert DirtyAt(b.shards, k);
      }
      hide Merged;
      MergedIsBatch(canon, b.mem, b.dirty, b.lead, b.shards.Keys, recs);
    }

    // The append itself: the fsync and the lock hold that follows it.

    /** Some of the drained shards acknowledged or restored. */
    ghost function Closing(was: map<Phys, ShardState>, work: map<Phys, Drained>, left: set<Phys>, landed: bool)
      : map<Phys, ShardState>
    {
      map h | h in was ::
        if h !in work || h in left then was[h]
        else if landed then was[h].AfterAck(work[h]) else was[h].AfterRestore(work[h])
    }

    /** Every drained shard acknowledged, or restored. */
    method CloseDrains(work: map<Phys, Drained>, landed: bool)
      requires Linked() && View() == book.shards && work.Keys <= phys.Keys
      modifies phys.Values
      ensures View() == Closing(book.shards, work, {}, landed)
    {
      hide Linked;
      var left := work.Keys;
      assert Closing(book.shards, work, left, landed) == book.shards;
      while left != {}
        invariant left <= work.Keys
        invariant View() == Closing(book.shards, work, left, landed)
        decreases left
      {
        var h :| h in left;
        CloseDrain(h, work, left, landed);
        left := left - {h};
      }
    }

    method CloseDrain(h: Phys, work: map<Phys, Drained>, ghost left: set<Phys>, landed: bool)
      requires Linked() && phys.Keys == book.shards.Keys && work.Keys <= phys.Keys
      requires h in left && left <= work.Keys && View() == Closing(book.shards, work, left, landed)
      modifies phys.Values
      ensures View() == Closing(book.shards, work, left - {h}, landed)
    {
      var sh := phys[h];
      assert sh.State() == View()[h] == Closing(book.shards, work, left, landed)[h] == book.shards[h];
      CloseStep(book.shards, h, work, left, landed);
      hide Closing, ShardState.AfterAck, ShardState.AfterRestore;
      if landed {
        sh.AckDrained(work[h]);
      } else {
        sh.RestoreDirty(work[h]);
      }
      OnlyShard(h);
    }

    lemma CloseStep(was: map<Phys, ShardState>, h: Phys, work: map<Phys, Drained>, left: set<Phys>, landed: bool)
      requires h in left && left <= work.Keys <= was.Keys
      ensures Closing(was, work, left - {h}, landed)
              == Closing(was, work, left, landed)[h := if landed then was[h].AfterAck(work[h])
                                                       else was[h].AfterRestore(work[h])]
    {
    }

    lemma AckedWhole(b: Book)
      requires b.flight.Some?
      ensures Closing(b.shards, b.flight.value.work, {}, true) == AfterAck(b).shards && AfterAck(b).mem == b.mem
    {
    }

    lemma RestoredWhole(b: Book, n: nat)
      requires b.flight.Some? && n <= |b.flight.value.batch|
      ensures Closing(b.shards, b.flight.value.work, {}, false) == AfterRestore(b, n).shards && AfterRestore(b, n).mem == b.mem
    {
    }

    /** The append landed and is acknowledged. */
    method Acknowledge(work: map<Phys, Drained>)
      requires Valid() && book.flight.Some? && work == book.flight.value.work
      modifies this`book, phys.Values
      ensures Valid() && book == AfterAck(old(book))
    {
      hide TalliesMatch;
      hide Good, AfterAck, Closing;
      FlightParts(canon, book);
      AckGood(canon, book);
      AckedWhole(book);
      CloseDrains(work, true);
      book := AfterAck(book);
    }

    /** The append failed with `n` lines left behind; its cells are owed again. */
    method Restore(work: map<Phys, Drained>, ghost n: nat)
      requires Valid() && book.flight.Some? && work == book.flight.value.work && n <= |book.flight.value.batch|
      modifies this`book, phys.Values
      ensures Valid() && book == AfterRestore(old(book), n)
    {
      hide TalliesMatch;
      hide Good, AfterRestore, Closing;
      FlightParts(canon, book);
      RestoreGood(canon, book, n);
      RestoredWhole(book, n);
      CloseDrains(work, false);
      book := AfterRestore(book, n);
    }

    // --------------------------------------------------------------- the fold

    /** Captures one shard in its snapshot.  A shard with anything pending is
        skipped: its newest state has not reached the log. */
    method CompactShard(h: Phys, pause: Pause) returns (ok: bool, ghost holds: seq<Refinement.Hold>)
      requires Valid() && book.flight.None? && h in phys
      modifies this`keys, this`phys, this`counts, this`cumulative, this`counted, this`book, phys.Values
      ensures Valid() && fresh(phys.Values - old(phys.Values))
      ensures Compacts(canon, old(book), h, book) && Ran(canon, old(book), file, holds, book, file)
      ensures pause.before == pause.after == [] ==> Still(old(book), book) && Refinement.WorksOf(holds) == []
      ensures ok && !old(book).shards[h].HasDirty() ==> !book.shards[h].stale
      ensures pause.written ==> ok
    {
      hide Valid, Image, Documents, Snapped, Compacts, Still, Wrote, Worked, WorkedAll, Ran, Changes, Caught;
      ghost var b := book;
      SameBook(b, h);
      holds := [];
      RanNot(canon, b, file);
      var doc := Document(h);
      if doc.None? {
        return true, holds;
      }
      ghost var us := Workers(pause.before);
      WorkersCompact(canon, b, h, b, us);
      if !pause.written {
        RanWorks(canon, b, file, us);
        return false, Refinement.Works(us);
      }
      CompactsStill(b, h);
      holds := Snap(h, doc.value, pause.after, b, us);
      ok := true;
    }

    /** The document replaces the snapshot; workers may record before the shard is
        marked caught up. */
    method Snap(h: Phys, doc: map<Cell, Value>, after: seq<Work>, ghost b: Book, ghost us: seq<Upsert>)
      returns (ghost holds: seq<Refinement.Hold>)
      requires Valid() && book.flight.None? && h in book.shards && AllTyped(us) && book == WorkedAll(b, us)
      requires Compacts(canon, b, h, book) && Documents(canon, book, h, doc)
      modifies this`keys, this`phys, this`counts, this`cumulative, this`counted, this`book, phys.Values
      ensures Valid() && fresh(phys.Values - old(phys.Values))
      ensures Compacts(canon, b, h, book) && Ran(canon, b, file, holds, book, file)
      ensures after == [] && Still(b, old(book)) ==> Still(b, book)
      ensures after == [] && us == [] ==> Refinement.WorksOf(holds) == []
      ensures h in book.shards && !book.shards[h].stale
    {
      hide Valid, Image, Documents, Snapped, Compacts, Still, Wrote, Worked, WorkedAll, Ran, Changes;
      CompactsStill(b, h);
      WriteCompacts(canon, b, h, book, doc);
      WriteSnapshot(h, doc);
      ghost var more := WorkersAgain(after, b, h);
      CatchCompacts(canon, b, h, book);
      CompactsStill(b, h);
      holds := RanCompact(canon, b, file, us, h, doc, more);
      ClearStale(h);
    }

    lemma CompactsStill(b: Book, h: Phys)
      requires Compacts(canon, b, h, book)
      ensures book.flight == b.flight
    {
    }

    lemma SameBook(b: Book, h: Phys)
      ensures Compacts(canon, b, h, b) && Still(b, b)
    {
    }

    /** Workers recording once a shard's snapshot is on disk. */
    method WorkersAgain(ws: seq<Work>, ghost b: Book, h: Phys) returns (ghost us: seq<Upsert>)
      requires Valid() && h in book.shards && Compacts(canon, b, h, book) && Snapped(canon, book, h)
      modifies this`keys, this`phys, this`counts, this`cumulative, this`counted, this`book, phys.Values
      ensures Valid() && fresh(phys.Values - old(phys.Values)) && h in phys && h in book.shards
      ensures Compacts(canon, b, h, book) && Snapped(canon, book, h)
      ensures ws == [] && Still(b, old(book)) ==> Still(b, book)
      ensures AllTyped(us) && book == WorkedAll(old(book), us) && (ws == [] ==> us == [])
    {
      hide Image, Snapped, Compacts, Still, WorkedAll, Good, TalliesMatch;
      ghost var was := book;
      us := Workers(ws);
      WorkersCompact(canon, b, h, was, us);
    }

    /** The snapshot document of a shard with nothing pending. */
    method Document(h: Phys) returns (doc: Option<map<Cell, Value>>)
      requires Valid() && book.flight.None? && h in phys
      ensures h in book.shards && (doc.None? <==> book.shards[h].HasDirty())
      ensures doc.Some? ==> Documents(canon, book, h, doc.value)
    {
      hide TalliesMatch, Good, Documents;
      assert phys[h].State() == View()[h] == book.shards[h];
      if phys[h].State().HasDirty() {
        return None;
      }
      MemoryDocuments(canon, book, h);
      doc := Some(phys[h].cells);
    }

    /** The snapshot's atomic replacement on disk. */
    ghost method WriteSnapshot(h: Phys, doc: map<Cell, Value>)
      requires Valid() && Documents(canon, book, h, doc)
      modifies this`book
      ensures Valid() && book == Wrote(old(book), h, doc)
      ensures Snapped(canon, book, h) && Image(canon, book) == old(Image(canon, book))
    {
      hide TalliesMatch, Good, Image, Snapped, Linked, Documents, Wrote;
      WroteParts(book, h, doc);
      WroteGood(canon, book, h, doc);
      WroteImage(canon, book, h, doc);
      WroteSnapped(canon, book, h, doc);
      book := Wrote(book, h, doc);
    }

    lemma WroteParts(b: Book, h: Phys, doc: map<Cell, Value>)
      ensures Wrote(b, h, doc).shards == b.shards && Wrote(b, h, doc).mem == b.mem
    {
    }

    method ClearStale(h: Phys)
      requires Valid() && h in phys && Snapped(canon, book, h)
      modifies this`book, phys[h]
      ensures Valid() && book == Caught(old(book), h)
      ensures Image(canon, book) == old(Image(canon, book))
    {
      hide TalliesMatch, Good, Image, Snapped, Caught;
      CaughtGood(canon, book, h);
      CaughtParts(book, h);
      assert phys[h].State() == View()[h];
      phys[h].stale := false;
      OnlyShard(h);
      book := Caught(book, h);
    }

    lemma CaughtParts(b: Book, h: Phys)
      requires h in b.shards
      ensures Caught(b, h).shards == b.shards[h := b.shards[h].(stale := false)] && Caught(b, h).mem == b.mem
    {
    }

    /** The shards whose snapshots trail the log. */
    method StaleShards() returns (s: set<Phys>)
      requires Valid()
      ensures s == Trailing(book) && s <= book.shards.Keys
    {
      hide Good, TalliesMatch;
      s := set h | h in phys && phys[h].stale;
      forall h ensures h in s <==> h in Trailing(book) {
        if h in phys { assert phys[h].State() == View()[h]; }
      }
    }

    /** One shard of the fold that `b` began. */
    method FoldShard(h: Phys, pause: Pause, ghost b: Book) returns (ok: bool, ghost holds: seq<Refinement.Hold>)
      requires Valid() && h in book.shards && Folds(canon, b, book) && book.flight.None?
      modifies this`keys, this`phys, this`counts, this`cumulative, this`counted, this`book, phys.Values
      ensures Valid() && fresh(phys.Values - old(phys.Values)) && Folds(canon, b, book) && book.log == old(book).log
      ensures old(book).shards.Keys <= book.shards.Keys
      ensures book.flight.None? && book.torn == old(book).torn
      ensures Ran(canon, old(book), file, holds, book, file)
      ensures pause.before == pause.after == [] ==> Refinement.WorksOf(holds) == []
      ensures pause.before == pause.after == [] && Still(b, old(book)) ==> Still(b, book)
      ensures pause.before == pause.after == [] && Still(b, old(book)) && ok && b.dirty == {} ==>
                Trailing(book) <= Trailing(old(book)) - {h}
      ensures pause.written ==> ok
    {
      hide Image, Good, TalliesMatch, Linked, Ran;
      ghost var was := book;
      if was.dirty == {} { IdleShard(was, h); }
      ok, holds := CompactShard(h, pause);
    }

    lemma IdleShard(b: Book, h: Phys)
      requires Good(canon, b) && b.dirty == {} && h in b.shards
      ensures !b.shards[h].HasDirty()
    {
      forall c ensures c !in b.shards[h].dirty {
        assert Key(h, c) in b.dirty <==> DirtyAt(b.shards, Key(h, c));
      }
    }

    method AllClean() returns (clean: bool)
      requires Valid()
      ensures clean <==> Trailing(book) == {}
      ensures clean ==> Clean(book)
    {
      var s := StaleShards();
      clean := s == {};
      assert Clean(book) <==> Trailing(book) == {} by {
        forall h | h in book.shards && book.shards[h].stale ensures h in Trailing(book) {}
      }
    }

    /** Every snapshot is current: the log goes. */
    method RemoveLog()
      requires Valid() && book.flight.None? && book.torn == {} && Clean(book)
      modifies this`walBytes, this`book, this`file
      ensures Valid() && book == old(book).(log := []) && walBytes == 0 && file == []
      ensures Folds(canon, old(book), book) && Still(old(book), book)
      ensures Ran(canon, old(book), old(file), [Refinement.RemoveLog], book, file)
    {
      hide Good, TalliesMatch, Image, Linked, Ran, Clean;
      RemoveLogGood(canon, book);
      RanOne(canon, book, file, Refinement.RemoveLog, book.(log := []));
      book := book.(log := []);
      walBytes, file := 0, [];
    }

    /** Captures every stale shard. */
    method FoldStale(f: Folding) returns (failed: bool, ghost holds: seq<Refinement.Hold>)
      requires Valid() && book.flight.None? && book.torn == {}
      modifies this`keys, this`phys, this`counts, this`cumulative, this`counted, this`book, phys.Values
      ensures Valid() && fresh(phys.Values - old(phys.Values)) && Folds(canon, old(book), book)
      ensures book.log == old(book).log && book.flight.None? && book.torn == {}
      ensures Ran(canon, old(book), file, holds, book, file) && (f.Quiet() ==> Refinement.WorksOf(holds) == [])
      ensures f.Sunny() ==> !failed
      ensures f.Quiet() ==> Still(old(book), book) && (old(book).dirty == {} && !failed ==> Trailing(book) == {})
    {
      hide Valid, Image, Folds, Still, Ran;
      ghost var b := book;
      FoldsAgain(b, b, b);
      StillOwes(b);
      var left := StaleShards();
      failed, holds := false, [];
      RanNot(canon, b, file);
      while left != {}
        invariant Valid() && fresh(phys.Values - old(phys.Values)) && Folds(canon, b, book) && book.log == b.log
        invariant book.flight.None? && book.torn == {} && left <= book.shards.Keys
        invariant Ran(canon, b, file, holds, book, file) && (f.Quiet() ==> Refinement.WorksOf(holds) == [])
        invariant f.Sunny() ==> !failed
        invariant f.Quiet() ==> Still(b, book) && (b.dirty == {} && !failed ==> Trailing(book) <= left)
        decreases left
      {
        var h :| h in left;
        left := left - {h};
        ghost var x := book;
        ghost var more;
        var fine;
        fine, more := FoldShard(h, f.pauses(h), b);
        RanAgain(canon, b, file, holds, x, file, more, book, file);
        holds := holds + more;
        failed := failed || !fine;
      }
    }

    /** Captures every stale shard, then removes the log if no shard trails it. */
    method Fold(compactAll: bool, f: Folding) returns (ok: bool, ghost holds: seq<Refinement.Hold>)
      requires Valid() && book.flight.None? && book.torn == {}
      modifies this, phys.Values
      ensures Valid() && fresh(phys.Values - old(phys.Values)) && Folds(canon, old(book), book)
      ensures book.flight.None? && book.torn == {}
      ensures Ran(canon, old(book), old(file), holds, book, file) && (f.Quiet() ==> Refinement.WorksOf(holds) == [])
      ensures book.log == [] ==> book.snaps == Image(canon, old(book))
      ensures f.Quiet() ==> Still(old(book), book)
      ensures f.Quiet() ==> book.mem == old(book).mem && (AtRest(old(book)) ==> AtRest(book))
      ensures book.log == file == [] || (book.log == old(book).log && file == old(file))
      ensures compactAll && f.removed && !(ok && book.log == []) ==> compactNext
      ensures old(compactNext) ==> compactNext
      ensures compactAll && ok ==> compactNext || book.log == file == []
      ensures ok && f.Quiet() && old(book).dirty == {} ==> book.log == file == []
      ensures f.Sunny() ==> ok
    {
      hide Valid, Image, Folds, Still, Ran;
      ghost var b := book;
      StillOwes(b);
      var failed;
      failed, holds := FoldStale(f);
      var clean := AllClean();
      FoldImage(b);
      if failed || !clean {
        compactNext := compactNext || compactAll;
        return !failed, holds;
      }
      if !f.removed {
        return false, holds;
      }
      ghost var c := book;
      RemoveLog();
      FoldsAgain(b, c, book);
      FoldImage(b);
      RanAgain(canon, b, old(file), holds, c, old(file), [Refinement.RemoveLog], book, file);
      holds := holds + [Refinement.RemoveLog];
      ok := true;
    }

    /** Without a log the snapshots say what they and the log said together. */
    lemma FoldImage(b: Book)
      requires Folds(canon, b, book)
      ensures book.log == [] ==> book.snaps == Image(canon, b)
    {
      assert Routed(canon, []) == [];
    }

    lemma StillOwes(b: Book)
      ensures forall x | Still(b, x) :: x.mem == b.mem && x.dirty == b.dirty && x.lead == b.lead
    {
    }

    lemma FoldsAgain(a: Book, b: Book, c: Book)
      ensures Folds(canon, a, a) && Still(a, a)
      ensures Folds(canon, a, b) && Folds(canon, b, c) ==> Folds(canon, a, c)
      ensures Still(a, b) && Still(b, c) ==> Still(a, c)
    {
    }

    // -------------------------------------------------------------- the flush

    /** The append and what follows it: the drained shards are acknowledged if it
        landed, restored if it failed.  `b` is the book as it was drained. */
    method AppendBatch(work: map<Phys, Drained>, batch: seq<Rec>, during: seq<Work>, outcome: Append, ghost b: Book)
      returns (landed: bool, ghost holds: seq<Refinement.Hold>)
      requires Valid() && Good(canon, b) && b.flight.None? && book == AfterDrain(b, batch) && work == WorkOf(b.shards)
      requires IsBatch(b.mem, b.dirty, b.lead, Routed(canon, batch))
      modifies this`keys, this`phys, this`counts, this`cumulative, this`counted, this`book, this`walBytes, this`file,
               phys.Values
      ensures Valid() && fresh(phys.Values - old(phys.Values)) && book.flight.None?
      ensures Appended(canon, b, book) && Ran(canon, b, old(file), holds, book, file)
      ensures holds != [] && holds[0] == Refinement.Drain(batch)
      ensures Refinement.WorksOf(holds) == Changes(canon, b.mem, during)
      ensures landed || outcome.Landed? ==> Image(canon, book) == b.mem && book.torn == {}
      ensures outcome.Landed? ==> landed
      ensures landed ==> book.log == b.log + batch && file == old(file) + batch && book.snaps == b.snaps
      ensures outcome.Failed? ==> if landed then b.dirty == {} else b.dirty <= book.dirty
      ensures landed && during == [] ==> AtRest(book) && book.mem == b.mem
      ensures walBytes == old(walBytes) + if outcome.Landed? && batch != [] then outcome.bytes else 0
    {
      hide Valid, Good, Image, IsBatch, WorkedAll, Appended, Ran, Changes;
      ghost var ws := Workers(during);
      FlightEnds(b, batch, ws, work);
      EndsNext(b, batch, ws);
      if batch == [] {
        EmptyDrain(canon, b, batch);
        AcknowledgeNothing();
        holds := RanFlush(canon, b, file, batch, ws, Refinement.Acknowledge, book);
        file := file + batch;
        return true, holds;
      }
      match outcome
      case Failed(left) =>
        ghost var n := if left <= |batch| then left else |batch|;
        FlightFails(canon, b, batch, ws, n);
        Restore(work, n);
        holds := RanFlush(canon, b, file, batch, ws, Refinement.Fail(n), book);
        file := file + batch[..n];
        return false, holds;
      case Landed(bytes) =>
        walBytes := walBytes + bytes;
        Acknowledge(work);
        holds := RanFlush(canon, b, file, batch, ws, Refinement.Acknowledge, book);
        file := file + batch;
        return true, holds;
    }

    /** Whatever was recorded since, either end of the flight is a hold. */
    lemma EndsNext(b: Book, batch: seq<Rec>, ws: seq<Upsert>)
      requires b.flight.None? && IsBatch(b.mem, b.dirty, b.lead, Routed(canon, batch)) && AllTyped(ws)
      ensures Refinement.Next(canon, b, Refinement.Drain(batch), AfterDrain(b, batch))
      ensures
        var x := WorkedAll(AfterDrain(b, batch), ws);
        && x.flight.Some? && x.flight.value.batch == batch
        && Refinement.Next(canon, x, Refinement.Acknowledge, AfterAck(x))
        && (forall n: nat | n <= |batch| :: Refinement.Next(canon, x, Refinement.Fail(n), AfterRestore(x, n)))
        && AfterAck(x).log == b.log + batch && AfterAck(x).snaps == b.snaps
        && (forall n: nat | n <= |batch| :: b.dirty <= AfterRestore(x, n).dirty) && (batch == [] ==> b.dirty == {})
    {
      assert batch == [] ==> Routed(canon, batch) == [];
      hide IsBatch, WorkedAll, Image;
      WorkedAllLater(canon, AfterDrain(b, batch), ws);
    }

    lemma FlightEnds(b: Book, batch: seq<Rec>, ws: seq<Upsert>, work: map<Phys, Drained>)
      requires Valid() && Good(canon, b) && b.flight.None? && work == WorkOf(b.shards)
      requires IsBatch(b.mem, b.dirty, b.lead, Routed(canon, batch))
      requires AllTyped(ws) && book == WorkedAll(AfterDrain(b, batch), ws)
      ensures book.flight.Some? && book.flight.value.work == work
      ensures Image(canon, AfterAck(book)) == b.mem && Appended(canon, b, AfterAck(book))
      ensures ws == [] ==> AtRest(AfterAck(book)) && AfterAck(book).mem == b.mem
    {
      hide IsBatch, WorkedAll, Appended, Image, TalliesMatch, Linked;
      FlightLands(canon, b, batch, ws);
      DrainKept(canon, b, batch, ws);
    }

    /** A flush with nothing to append changes nothing. */
    ghost method AcknowledgeNothing()
      requires Valid() && book.flight.Some? && book.flight.value.work == map[]
      modifies this`book
      ensures Valid() && book == AfterAck(old(book))
    {
      hide Good, TalliesMatch;
      AckGood(canon, book);
      assert AfterAck(book).shards == book.shards;
      book := AfterAck(book);
    }

    /** Writes everything changed since the last flush to the log with one
        append, then folds the log when it has outgrown the threshold or a run
        has finished.  `during` is recorded while the append is in flight. */
    method Flush(during: seq<Work>, outcome: Append, f: Folding) returns (ok: bool, ghost holds: seq<Refinement.Hold>)
      requires Valid() && book.flight.None?
      modifies this, phys.Values
      ensures Valid() && fresh(phys.Values - old(phys.Values)) && book.flight.None?
      ensures Ran(canon, old(book), old(file), holds, book, file) && holds != [] && holds[0].Drain?
      ensures IsBatch(old(book).mem, old(book).dirty, old(book).lead, Routed(canon, holds[0].batch))
      ensures book.mem == Replay(old(book).mem, Refinement.WorksOf(holds))
      ensures Changes(canon, old(book).mem, during) <= Refinement.WorksOf(holds)
      ensures f.Quiet() ==> Refinement.WorksOf(holds) == Changes(canon, old(book).mem, during)
      ensures outcome.Failed? ==> old(book).dirty <= book.dirty
      ensures Appended(canon, old(book), book)
      ensures ok || outcome.Landed? ==> Image(canon, book) == old(book).mem
      ensures outcome.Landed? && f.Sunny() ==> ok
      ensures old(compactNext) && f.removed && !(ok && book.log == []) ==> compactNext
      ensures ok && during == [] && f.Quiet() ==> AtRest(book) && book.mem == old(book).mem
      ensures ok && old(compactNext) && during == [] && f.Quiet() ==> book.log == file == []
      ensures ok && during == [] && f.Quiet() ==> book.log == file == [] || walBytes <= threshold
      ensures ok && during == [] && f.Quiet() && !old(compactNext)
              && old(walBytes) + (if outcome.Landed? && holds[0].batch != [] then outcome.bytes else 0) <= threshold ==>
                book.log == old(book).log + holds[0].batch
      ensures ok && during == [] && f.Quiet() ==>
                || book.log == file == []
                || (book.log == old(book).log + holds[0].batch && file == old(file) + holds[0].batch && book.snaps == old(book).snaps)
    {
      hide Valid, Image, Still, IsBatch, Good, Appended, AfterDrain, WorkOf, Folds, Ran, Changes;
      ghost var b := book;
      ValidGood();
      var work, batch := Drain();
      var compactAll := compactNext;
      compactNext := false;
      ok, holds := AppendBatch(work, batch, during, outcome, b);
      if !ok {
        compactNext := compactAll;
        RanMemory(b, old(file), holds);
        return;
      }
      if compactAll || walBytes > threshold {
        ghost var c, x := book, file;
        ghost var more;
        ok, more := Fold(compactAll, f);
        FoldAppended(b, c, book);
        RanAgain(canon, b, old(file), holds, c, x, more, book, file);
        holds := holds + more;
      }
      RanMemory(b, old(file), holds);
    }

    lemma RanMemory(b: Book, was: seq<Rec>, holds: seq<Refinement.Hold>)
      requires Ran(canon, b, was, holds, book, file)
      ensures book.mem == Replay(b.mem, Refinement.WorksOf(holds))
    {
      hide Refinement.Reaches;
      Refinement.ReachesMemory(canon, b, holds, book);
    }

    lemma ValidGood()
      requires Valid()
      ensures Good(canon, book)
    {
    }

    lemma FoldAppended(b: Book, c: Book, d: Book)
      requires Appended(canon, b, c) && Folds(canon, c, d)
      ensures Appended(canon, b, d) && Image(canon, d) == Image(canon, c) && d.flight == c.flight
      ensures Still(c, d) && AtRest(c) ==> AtRest(d) && d.mem == c.mem
    {
      hide IsBatch, Image;
      var us, n :| PrefixOf(canon, b, c, us, n);
      assert PrefixOf(canon, b, d, us, n);
    }

    // ---------------------------------------------------------------- the load

    constructor (canon: Path -> Phys, threshold: nat)
      ensures Kept() && AtRest(book) && book.log == [] && book.shards == map[] && file == []
      ensures cumulative == counts == map[] && counted == {} && !compactNext
    {
      this.canon, this.threshold := canon, threshold;
      keys, phys, compactNext, walBytes := {}, map[], false, 0;
      counts, cumulative, counted := map[], map[], {};
      book, file := BLANK, [];
      new;
      BlankGood(canon);
      assert View() == map[];
    }

    /** Opens a discovered key's shard over the snapshot in its directory; a
        directory reached twice loads once. */
    method ReadSnapshot(sk: Path, cells: map<Cell, Value>)
      requires Kept() && AtRest(book) && book.log == [] && forall c | c in cells :: Typed(c, cells[c])
      modifies this`keys, this`phys, this`book
      ensures Kept() && fresh(phys.Values - old(phys.Values)) && AtRest(book) && book.log == []
      ensures book == if canon(sk) in old(book).shards then old(book) else Read(old(book), canon(sk), cells)
    {
      hide Good, Read, AtRest, Image, Linked;
      var h := canon(sk);
      ghost var was := book;
      ghost var blank := h !in phys;
      if blank { ReadGood(canon, book, h, cells); ReadParts(book, h, cells); }
      var sh := NewShard(sk, cells);
      if blank { book := Read(was, h, cells); }
    }

    method NewShard(sk: Path, cells: map<Cell, Value>) returns (sh: Shard)
      requires Linked()
      modifies this`keys, this`phys
      ensures Linked() && fresh(phys.Values - old(phys.Values))
      ensures View() == if canon(sk) in old(phys) then old(View())
                        else old(View())[canon(sk) := ShardState(cells, {}, {}, {}, false)]
    {
      hide Linked;
      var unread := canon(sk) !in phys;
      sh := ShardFor(sk);
      if unread { Fill(canon(sk), cells, false); }
    }

    /** One shard's cells replaced, in memory. */
    method Fill(h: Phys, cells: map<Cell, Value>, stale: bool)
      requires Linked() && h in phys
      modifies phys[h]
      ensures View() == old(View())[h := old(View())[h].(cells := cells, stale := stale)]
    {
      var sh := phys[h];
      sh.cells, sh.stale := cells, stale;
      OnlyShard(h);
    }

    lemma ReadParts(b: Book, h: Phys, cells: map<Cell, Value>)
      ensures Read(b, h, cells).shards == b.shards[h := ShardState(cells, {}, {}, {}, false)]
      ensures AtRest(b) ==> AtRest(Read(b, h, cells))
      ensures Read(b, h, cells).log == b.log
    {
    }

    /** Opens every discovered shard, and the organization root's. */
    method ReadSnapshots(disk: Disk)
      requires Kept() && AtRest(book) && book.log == [] && book.shards == map[] && Consistent(canon, disk)
      modifies this`keys, this`phys, this`book
      ensures Kept() && fresh(phys.Values - old(phys.Values)) && AtRest(book) && book.log == []
      ensures Holds(canon, disk, book.mem) && AllOpen(canon, disk, book)
    {
      hide Kept, HoldsOnly, Holds, Consistent, AllOpen;
      ReadEach(disk);
      HoldsEverything(disk);
      OpenedAll(disk, book);
      var _ := OpenShard([]);
    }

    method ReadEach(disk: Disk)
      requires Kept() && AtRest(book) && book.log == [] && book.shards == map[] && Consistent(canon, disk)
      modifies this`keys, this`phys, this`book
      ensures Kept() && fresh(phys.Values - old(phys.Values)) && AtRest(book) && book.log == []
      ensures HoldsOnly(canon, disk, disk.dirs.Keys, book)
    {
      hide Kept, AtRest, Read, HoldsOnly, Consistent;
      ghost var done: set<Path> := {};
      var left := disk.dirs.Keys;
      HoldsNone(canon, disk, book);
      while left != {}
        invariant done + left == disk.dirs.Keys
        invariant Kept() && fresh(phys.Values - old(phys.Values)) && AtRest(book) && book.log == []
        invariant HoldsOnly(canon, disk, done, book)
        decreases left
      {
        var sk :| sk in left;
        DirTyped(disk, sk);
        HoldsMore(canon, disk, done, book, sk);
        ReadSnapshot(sk, disk.dirs[sk]);
        left, done := left - {sk}, done + {sk};
      }
    }

    lemma OpenedAll(disk: Disk, b: Book)
      requires HoldsOnly(canon, disk, disk.dirs.Keys, b)
      ensures AllOpen(canon, disk, b) && forall h :: AllOpen(canon, disk, Opened(b, h))
    {
    }

    lemma DirTyped(disk: Disk, sk: Path)
      requires Consistent(canon, disk) && sk in disk.dirs
      ensures forall c | c in disk.dirs[sk] :: Typed(c, disk.dirs[sk][c])
    {
    }

    lemma HoldsEverything(disk: Disk)
      requires Kept() && HoldsOnly(canon, disk, disk.dirs.Keys, book)
      ensures Holds(canon, disk, book.mem)
    {
      HoldsAll(canon, disk, book);
    }

    /** A shard nothing is recorded in yet. */
    method OpenShard(sk: Path) returns (sh: Shard)
      requires Kept()
      modifies this`keys, this`phys, this`book
      ensures Kept() && fresh(phys.Values - old(phys.Values)) && book == Opened(old(book), canon(sk))
      ensures AtRest(old(book)) ==> AtRest(book)
      ensures canon(sk) in phys && sh == phys[canon(sk)]
    {
      hide Good;
      if canon(sk) !in phys { OpenedGood(canon, book, canon(sk)); }
      sh := ShardFor(sk);
      book := Opened(book, canon(sk));
    }

    /** Replays the log over the snapshots: a record whose subtree is gone is
        discarded, and counted. */
    method ReplayLog(disk: Disk, present: Path -> bool) returns (discarded: nat, ghost at: seq<nat>)
      requires Kept() && AtRest(book) && book.log == [] && forall r | r in disk.log :: Typed(r.cell, r.val)
      modifies this`keys, this`phys, this`book, this`file, this`walBytes, phys.Values
      ensures Kept() && fresh(phys.Values - old(phys.Values)) && AtRest(book)
      ensures book.log == Surviving(present, disk.log) && book.snaps == old(book).snaps && file == disk.log
      ensures ReplaysAt(present, disk.log, book.log, at) && discarded == |disk.log| - |at|
      ensures discarded == 0 <==> forall r | r in disk.log :: SubtreeThere(present, r)
      ensures walBytes == disk.bytes && old(book).shards.Keys <= book.shards.Keys
    {
      hide Good, Kept, AtRest, Resolve, ReplaysAt, SubtreeThere, Replayed, Replaying;
      file, walBytes := disk.log, disk.bytes;
      discarded := 0;
      ghost var was := book;
      ReplayStarts(disk, present, was);
      for i := 0 to |disk.log|
        invariant Kept() && fresh(phys.Values - old(phys.Values)) && AtRest(book) && file == disk.log && walBytes == disk.bytes
        invariant Replaying(disk, present, was, i, book, discarded)
      {
        ReplayOn(disk, present, was, i, book, discarded);
        var r := Resolve(present, disk.log[i]);
        if r.Some? {
          ReplayRecord(r.value);
        } else {
          discarded := discarded + 1;
        }
      }
      at := ReplayEnds(disk, present, was, book, discarded);
    }

    /** The first `i` lines of the log are replayed. */
    ghost predicate Replaying(disk: Disk, present: Path -> bool, was: Book, i: nat, b: Book, discarded: nat) {
      && i <= |disk.log| && b.log == Surviving(present, disk.log[..i]) && b.snaps == was.snaps
      && was.shards.Keys <= b.shards.Keys && discarded == i - |Surviving(present, disk.log[..i])|
      && (discarded == 0 <==> forall r | r in disk.log[..i] :: SubtreeThere(present, r))
    }

    lemma ReplayStarts(disk: Disk, present: Path -> bool, b: Book)
      requires b.log == []
      ensures Replaying(disk, present, b, 0, b, 0)
    {
    }

    lemma ReplayOn(disk: Disk, present: Path -> bool, was: Book, i: nat, b: Book, discarded: nat)
      requires i < |disk.log| && Replaying(disk, present, was, i, b, discarded)
      requires forall r | r in disk.log :: Typed(r.cell, r.val)
      ensures
        var r := Resolve(present, disk.log[i]);
        if r.None? then Replaying(disk, present, was, i + 1, b, discarded + 1)
        else
          && Typed(r.value.cell, r.value.val) && Replaying(disk, present, was, i + 1, Replayed(canon, b, r.value), discarded)
          && (AtRest(b) ==> AtRest(Replayed(canon, b, r.value)))
    {
      assert disk.log[..i + 1][..i] == disk.log[..i] && disk.log[..i + 1] == disk.log[..i] + [disk.log[i]];
      var r := Resolve(present, disk.log[i]);
      assert SubtreeThere(present, disk.log[i]) <==> r.Some?;
      if r.Some? { ReplayedParts(canon, b, r.value); }
    }

    lemma ReplayEnds(disk: Disk, present: Path -> bool, was: Book, b: Book, discarded: nat) returns (at: seq<nat>)
      requires Replaying(disk, present, was, |disk.log|, b, discarded)
      ensures b.log == Surviving(present, disk.log) && b.snaps == was.snaps && was.shards.Keys <= b.shards.Keys
      ensures ReplaysAt(present, disk.log, b.log, at) && discarded == |disk.log| - |at|
      ensures discarded == 0 <==> forall r | r in disk.log :: SubtreeThere(present, r)
    {
      assert disk.log[..|disk.log|] == disk.log;
      at := SurvivingAreThere(present, disk.log);
    }

    method ReplayRecord(r: Rec)
      requires Kept() && AtRest(book) && Typed(r.cell, r.val)
      modifies this`keys, this`phys, this`book, phys.Values
      ensures Kept() && fresh(phys.Values - old(phys.Values)) && book == Replayed(canon, old(book), r)
    {
      hide Good, Replayed;
      ReplayedGood(canon, book, r);
      ReplayedParts(canon, book, r);
      ApplyAt(r.shard, r.cell, r.val);
      book := Replayed(canon, book, r);
    }

    method ApplyAt(sk: Path, c: Cell, v: Value)
      requires Linked()
      modifies this`keys, this`phys, phys.Values
      ensures Linked() && fresh(phys.Values - old(phys.Values))
      ensures
        var base := WithShard(old(View()), canon(sk));
        View() == base[canon(sk) := base[canon(sk)].(cells := base[canon(sk)].cells[c := v], stale := true)]
    {
      var sh := ShardFor(sk);
      label found:
      sh.ApplyRecord(c, v);
      OnlyShard@found(canon(sk));
    }

    /** Marks every shard with an old-version snapshot for a fold. */
    method MarkOld(h: Phys)
      requires Kept() && h in phys
      modifies this`book, phys[h]
      ensures Kept() && book == Marked(old(book), h)
    {
      hide Good;
      StaleGood(canon, book, h);
      phys[h].stale := true;
      OnlyShard(h);
      book := Marked(book, h);
    }

    method MarkAllOld(g: Migration) returns (foldOld: bool)
      requires Kept() && AtRest(book)
      modifies this`book, phys.Values
      ensures Kept() && AtRest(book) && SameBut(old(book), book)
      ensures OldMarked(g, book) && (foldOld <==> exists h :: h in old(book).shards && h in g.dated && h in g.versioned)
    {
      hide Kept, AtRest, SameBut, Marked, OldMarked, Marking;
      ghost var was := book;
      var left := OldShards(g);
      foldOld := left != {};
      MarkingStarts(g, book, left);
      while left != {}
        invariant left <= phys.Keys && Kept() && AtRest(book) && Marking(g, was, book, left)
        decreases left
      {
        var h :| h in left;
        ghost var all := left;
        left := left - {h};
        assert left + {h} == all;
        MarkedParts(g, was, book, left, h);
        MarkOld(h);
      }
      MarkingEnds(g, was, book);
    }

    /** The shards whose snapshots have an old version. */
    method OldShards(g: Migration) returns (hs: set<Phys>)
      requires Kept()
      ensures hs <= phys.Keys && forall h :: h in hs <==> h in book.shards && h in g.dated && h in g.versioned
    {
      KeptKeys();
      hs := set h | h in phys && h in g.dated && h in g.versioned;
    }

    /** Every shard with an old version but those in `left` is marked. */
    ghost predicate Marking(g: Migration, was: Book, b: Book, left: set<Phys>) {
      && SameBut(was, b) && left <= b.shards.Keys
      && forall h | h in b.shards && h in g.dated && h in g.versioned :: h in left || b.shards[h].stale
    }

    lemma MarkingStarts(g: Migration, b: Book, left: set<Phys>)
      requires forall h :: h in left <==> h in b.shards && h in g.dated && h in g.versioned
      ensures Marking(g, b, b, left)
      ensures left != {} <==> exists h :: h in b.shards && h in g.dated && h in g.versioned
    {
    }

    lemma MarkedParts(g: Migration, was: Book, b: Book, left: set<Phys>, h: Phys)
      requires h !in left && Marking(g, was, b, left + {h})
      ensures h in b.shards && Marking(g, was, Marked(b, h), left) && (AtRest(b) ==> AtRest(Marked(b, h)))
    {
    }

    lemma MarkingEnds(g: Migration, was: Book, b: Book)
      requires Marking(g, was, b, {})
      ensures SameBut(was, b) && OldMarked(g, b)
    {
    }

    lemma KeptKeys()
      requires Kept()
      ensures phys.Keys == book.shards.Keys
    {
      assert View().Keys == phys.Keys;
    }

    /** Every shard whose snapshot has an old version is to be folded. */
    ghost predicate OldMarked(g: Migration, b: Book) {
      forall h | h in b.shards && h in g.dated && h in g.versioned :: b.shards[h].stale
    }

    lemma WorkedMarked(g: Migration, b: Book, k: Key, v: Value)
      requires Typed(k.cell, v) && k.phys in b.shards
      ensures OldMarked(g, b) ==> OldMarked(g, Worked(b, k, v))
      ensures Worked(b, k, v).shards.Keys == b.shards.Keys
    {
    }

    /** One migrated entry, owed to the log like a record. */
    method MigrateEntry(k: Key, e: Entry)
      requires Kept() && k.phys in phys && k.cell.EntryCell?
      modifies this`book, phys[k.phys]
      ensures Kept() && book == Worked(old(book), k, EntryVal(e))
    {
      hide Good, Worked;
      WorkedGood(canon, book, k, EntryVal(e));
      WorkedParts(book, k, EntryVal(e));
      var sh := phys[k.phys];
      assert sh.State() == View()[k.phys];
      sh.Put(k.cell, EntryVal(e));
      assert View() == old(View())[k.phys := sh.State()];
      assert View() == Placed(old(View()), k, EntryVal(e));
      book := Worked(book, k, EntryVal(e));
    }

    /** What the migrations would rewrite. */
    method Dated(g: Migration) returns (todo: set<Key>)
      requires Kept()
      ensures todo == ToMigrate(g, book.mem) && forall k | k in todo :: k.phys in phys
    {
      todo := set h, c | h in phys && c in phys[h].cells && Rewritten(g, Key(h, c), phys[h].cells[c]).Some? :: Key(h, c);
      forall k ensures k in todo <==> k in ToMigrate(g, book.mem) {
        ViewAt(k);
        GoodTied(canon, book, k);
        if k.phys in phys && k.cell in phys[k.phys].cells { assert k == Key(k.phys, k.cell); }
      }
    }

    /** Runs the migrations over every entry of every dated shard. */
    method RunMigrations(g: Migration) returns (migrated: bool, foldOld: bool)
      requires Kept() && AtRest(book)
      modifies this`book, phys.Values
      ensures Kept() && book.flight.None? && book.torn == {} && (!migrated ==> AtRest(book))
      ensures book.mem == Migrated(g, old(book).mem)
      ensures book.mem.Keys == old(book).mem.Keys && forall k | k in book.mem :: After(g, k, old(book).mem[k], book.mem[k])
      ensures book.log == old(book).log && book.snaps == old(book).snaps && book.lead == {}
      ensures OldMarked(g, book) && (foldOld <==> exists h :: h in old(book).shards && h in g.dated && h in g.versioned)
      ensures book.shards.Keys == old(book).shards.Keys
    {
      MigratedAfter(g, book.mem);
      hide Kept, Worked, Rewritten, After, OldMarked;
      foldOld := MarkAllOld(g);
      ghost var m := book.mem;
      var left := Dated(g);
      migrated := left != {};
      assert MigratedBut(g, m, left) == m;
      while left != {}
        invariant Kept() && left <= ToMigrate(g, m) && book.mem == MigratedBut(g, m, left)
        invariant forall k | k in left :: k.phys in phys
        invariant book.flight.None? && book.torn == {} && (!migrated ==> AtRest(book))
        invariant book.log == old(book).log && book.snaps == old(book).snaps && book.lead == {}
        invariant OldMarked(g, book) && book.shards.Keys == old(book).shards.Keys
        decreases left
      {
        var k :| k in left;
        MigrateOne(g, m, left, k);
        left := left - {k};
        MigrateKey(g, k);
      }
      assert MigratedBut(g, m, {}) == Migrated(g, m);
    }

    method MigrateKey(g: Migration, k: Key)
      requires Kept() && k in book.mem && k.phys in phys && Rewritten(g, k, book.mem[k]).Some?
      modifies this`book, phys[k.phys]
      ensures Kept() && book == Worked(old(book), k, EntryVal(Rewritten(g, k, old(book).mem[k]).value))
      ensures book.mem == old(book).mem[k := EntryVal(Rewritten(g, k, old(book).mem[k]).value)]
      ensures book.flight == old(book).flight && book.torn == old(book).torn
      ensures book.log == old(book).log && book.snaps == old(book).snaps && book.lead == old(book).lead
      ensures (OldMarked(g, old(book)) ==> OldMarked(g, book)) && book.shards.Keys == old(book).shards.Keys
    {
      assert View().Keys == phys.Keys;
      ViewAt(k);
      GoodTied(canon, book, k);
      hide Good;
      var e := Rewritten(g, k, phys[k.phys].cells[k.cell]).value;
      WorkedMarked(g, book, k, EntryVal(e));
      hide OldMarked;
      WorkedParts(book, k, EntryVal(e));
      MigrateEntry(k, e);
    }

    /** The entries on record, each once whatever keys reach its shard. */
    method Entries() returns (ks: set<Key>)
      requires Kept()
      ensures forall k :: k in ks <==> k in book.mem && k.cell.EntryCell?
    {
      ks := set h, c | h in phys && c in phys[h].cells && c.EntryCell? :: Key(h, c);
      forall k ensures k in ks <==> k in book.mem && k.cell.EntryCell? {
        ViewAt(k);
        GoodTied(canon, book, k);
        if k.phys in phys && k.cell in phys[k.phys].cells { assert k == Key(k.phys, k.cell); }
      }
    }

    /** Seeds the cumulative tally from every entry. */
    method SeedTallies()
      requires Kept() && cumulative == counts == map[] && counted == {}
      modifies this`cumulative
      ensures Valid()
    {
      hide Kept, WithStatus, StatusAt, Seeded, TalliesMatch;
      var todo := Entries();
      ghost var done: set<Key> := {};
      SeededNone(book.mem);
      while todo != {}
        invariant Kept() && done !! todo && Seeded(book.mem, cumulative, done)
        invariant forall k :: k in todo + done <==> k in book.mem && k.cell.EntryCell?
        decreases todo
      {
        var k :| k in todo;
        SeedOne(k, done);
        todo, done := todo - {k}, done + {k};
      }
      KeptTyped();
      assert forall k | k in book.mem && k.cell.EntryCell? :: k in done;
      SeededAll(book.mem, cumulative, done);
    }

    /** Each count is the number of these entries in its status. */
    ghost predicate Seeded(mem: State, cumulative: map<Status, int>, done: set<Key>) {
      forall s :: Count(cumulative, s) == |WithStatus(mem, s) * done|
    }

    lemma SeededNone(mem: State)
      ensures Seeded(mem, map[], {})
    {
      assert forall s :: WithStatus(mem, s) * {} == {};
    }

    lemma SeededAll(mem: State, cumulative: map<Status, int>, done: set<Key>)
      requires WellTyped(mem) && Seeded(mem, cumulative, done) && forall k | k in mem && k.cell.EntryCell? :: k in done
      ensures TalliesMatch(mem, cumulative, map[], {})
    {
      AllCounted(mem, cumulative, done);
    }

    lemma KeptTyped()
      requires Kept()
      ensures WellTyped(book.mem)
    {
    }

    method SeedOne(k: Key, ghost done: set<Key>)
      requires Kept() && k in book.mem && k.cell.EntryCell? && k !in done && Seeded(book.mem, cumulative, done)
      modifies this`cumulative
      ensures Seeded(book.mem, cumulative, done + {k})
    {
      hide WithStatus;
      ViewAt(k);
      GoodTied(canon, book, k);
      hide Good;
      forall s { CountOne(book.mem, done, k, s); }
      cumulative := Add(cumulative, phys[k.phys].cells[k.cell].entry.status, 1);
    }

    /** Reads snapshots, log and migrations into a new ledger.  When records were
        discarded, or entries migrated, what was read is made durable before the
        ledger is handed back. */
    method Load(disk: Disk, present: Path -> bool, g: Migration, first: Folding, append: Append, second: Folding,
                last: Folding)
      returns (ok: bool)
      requires Kept() && AtRest(book) && book.log == [] && book.shards == map[] && !compactNext
      requires cumulative == counts == map[] && counted == {}
      requires Consistent(canon, disk) && first.Quiet() && second.Quiet() && last.Quiet()
      modifies this
      ensures ok ==> Valid() && Reopened(canon, disk, present, g, book, file)
      ensures ok ==> Restores(canon, disk, present, g, book.mem)
      ensures first.Sunny() && append.Landed? && second.Sunny() && last.Sunny() ==> ok
      ensures ok && OldOnDisk(canon, disk, g) ==> book.log == file == []
    {
      hide OldOnDisk, Valid, Kept, Surviving, Resolve, Holds, Migrated, Still, Folds, Appended, Image, Base, Ran, Reopened, Restores, FromMemory, IsBatch,
           Changes;
      assert phys.Values == {} by { KeptEmpty(); }
      var discarded, migrated, foldOld;
      ghost var base;
      discarded, migrated, foldOld, base := ReadDisk(disk, present, g);
      ghost var b := book;
      SeedTallies();
      ok := true;
      StillOwes(b);
      assert FromMemory(canon, [], book.mem) by { NoTail(book.mem); }
      ghost var holds;
      if discarded > 0 {
        ok, holds := Fold(true, first);
      }
      ghost var x, before := book, file;
      assert ok ==> (x.log == before == [] && x.snaps == base) || (discarded == 0 && x == b && before == disk.log)
                    || (compactNext && migrated);
      ghost var tail := [];
      if ok && migrated {
        ok, holds := Flush([], append, second);
        if ok && !(book.log == file == []) {
          tail := holds[0].batch;
          BatchFromMemory(x, tail);
        }
      }
      if ok && foldOld {
        ok, holds := Fold(true, last);
        tail := if ok then [] else tail;
      }
      if ok {
        ValidKept();
        ReadBack(disk, present, g, base, tail, x, before, b);
        ReopenedRestores(canon, disk, present, g, book, file);
      }
    }

    lemma NoTail(m: State)
      ensures FromMemory(canon, [], m)
    {
    }

    lemma ValidKept()
      requires Valid()
      ensures Kept()
    {
    }

    /** A batch with no withdrawal in it says what memory said at its drain. */
    lemma BatchFromMemory(b: Book, batch: seq<Rec>)
      requires IsBatch(b.mem, b.dirty, b.lead, Routed(canon, batch)) && b.lead == {}
      ensures FromMemory(canon, batch, b.mem)
    {
      forall r | r in batch ensures Key(canon(r.shard), r.cell) in b.mem && b.mem[Key(canon(r.shard), r.cell)] == r.val {
        RoutedIn(canon, batch, r);
        assert Durability.Drained(b.mem, b.dirty, b.lead, Upsert(Key(canon(r.shard), r.cell), r.val));
      }
    }

    /** However the load's writes went, what is on disk is what it read. */
    lemma ReadBack(disk: Disk, present: Path -> bool, g: Migration, base: State, tail: seq<Rec>, x: Book, before: seq<Rec>,
                   read: Book)
      requires Kept() && AtRest(book) && Base(canon, disk, present, base) && book.mem == Migrated(g, base)
      requires FromMemory(canon, tail, book.mem)
      requires (book.log == file == tail == []) ||
               (book.snaps == x.snaps && book.log == x.log + tail && file == before + tail
                && ((x.log == before == [] && x.snaps == base)
                    || (x == read && before == disk.log && forall r | r in disk.log :: Resolve(present, r).Some?)))
      requires read.log == Surviving(present, disk.log) && Holds(canon, disk, read.snaps)
      ensures Reopened(canon, disk, present, g, book, file)
    {
      hide Base, Migrated, Holds, Surviving, FromMemory;
      RestSnaps();
      hide Kept;
      assert ReopenedAs(canon, disk, present, g, book, file, base, tail);
    }

    lemma KeptEmpty()
      requires Kept() && book.shards == map[]
      ensures phys.Values == {}
    {
      assert phys.Keys == View().Keys;
    }

    method ReadDisk(disk: Disk, present: Path -> bool, g: Migration)
      returns (discarded: nat, migrated: bool, foldOld: bool, ghost base: State)
      requires Kept() && AtRest(book) && book.log == [] && book.shards == map[] && Consistent(canon, disk)
      modifies this`keys, this`phys, this`book, this`file, this`walBytes
      ensures Kept() && fresh(phys.Values - old(phys.Values)) && book.flight.None? && book.torn == {} && book.lead == {}
      ensures JustRead(canon, disk, present, g, book, file)
      ensures (!migrated ==> AtRest(book)) && Base(canon, disk, present, base) && book.mem == Migrated(g, base)
      ensures book.log == Surviving(present, disk.log) && Holds(canon, disk, book.snaps) && Image(canon, book) == base
      ensures file == disk.log && (discarded == 0 <==> forall r | r in disk.log :: Resolve(present, r).Some?)
      ensures OldOnDisk(canon, disk, g) ==> foldOld
    {
      hide Kept, Holds, Surviving, Migrated, Rewritten, OldMarked;
      KeptEmpty();
      LogTyped(disk);
      ReadSnapshots(disk);
      ghost var snaps := book.mem;
      RestSnaps();
      ghost var at;
      discarded, at := ReplayLog(disk, present);
      RestSnaps();
      base := book.mem;
      migrated, foldOld := RunMigrations(g);
    }

    lemma LogTyped(disk: Disk)
      requires Consistent(canon, disk)
      ensures forall r | r in disk.log :: Typed(r.cell, r.val)
    {
    }

    /** At rest, memory is the log replayed over the snapshots. */
    lemma RestSnaps()
      requires Kept() && AtRest(book)
      ensures book.mem == Replay(book.snaps, Routed(canon, book.log))
      ensures book.log == [] ==> book.mem == book.snaps
    {
      hide Good;
      RestImage(canon, book);
      assert Routed(canon, []) == [];
    }

    // -------------------------------------------------------- reference gates

    /** Where entries live, for the gates. */
    ghost function Homes(gate: Path -> bool): Gates.Layout {
      Gates.Layout(p => canon(ShardKey(p)), gate)
    }

    /** One locked read of an entry. */
    method Look(p: Path, ghost gate: Path -> bool) returns (e: Option<Entry>)
      requires Valid()
      ensures e == Gates.EntryAt(Homes(gate), book.mem, p)
    {
      KeptTyped();
      hide Kept, TalliesMatch;
      e := Recorded(Key(canon(ShardKey(p)), EntryCell(p)));
    }

    /** Opens, marks or clears the gate, its status read and written under one
        lock hold. */
    method Mirror(gate: Path, verdict: Status, causes: map<Path, nat>, ghost gates: Path -> bool)
      requires Valid() && verdict.IsGate()
      modifies this`keys, this`phys, this`counts, this`cumulative, this`counted, this`book, phys.Values
      ensures Valid() && fresh(phys.Values - old(phys.Values))
      ensures
        var l := Homes(gates);
        var w := Gates.GateWrite(l, old(book).mem, gate, verdict);
        book == if w.None? then old(book)
                else Worked(old(book), Gates.EntryKey(l, gate),
                            EntryVal(Gates.Rewrite(l, old(book).mem, gate, w.value, false,
                                                   if w.value.Settled() then causes else map[])))
      ensures
        var was, now := Gates.EntryAt(Homes(gates), old(book).mem, gate), Gates.EntryAt(Homes(gates), book.mem, gate);
        && (verdict == ReferenceCleared && !(was.Some? && was.value.status in {Errored, Forbidden, Pending, ReferenceAbsent}) ==>
              book == old(book))
        && (verdict != ReferenceCleared && was.Some? && was.value.status == verdict ==> book == old(book))
        && (verdict != ReferenceCleared || (was.Some? && was.value.status in {Errored, Forbidden, Pending, ReferenceAbsent}) ==>
              now.Some? && now.value.status == verdict)
    {
      hide Valid, Worked;
      var g := Look(gate, gates);
      var write :=
        if verdict.Pending? then !(g.Some? && g.value.status.Pending?)
        else if verdict.ReferenceAbsent? then !(g.Some? && g.value.status.ReferenceAbsent?)
        else g.Some? && (!g.value.status.Settled() || g.value.status.ReferenceAbsent?);
      if write {
        SameRewrite(gate, gates);
        RecordLocked(gate, verdict, false, if verdict.Settled() then causes else map[]);
        WroteGate(old(book), book, gate, verdict, causes, gates);
      }
    }

    lemma WroteGate(b: Book, b': Book, gate: Path, status: Status, causes: map<Path, nat>, gates: Path -> bool)
      requires
        var l := Homes(gates);
        b' == Worked(b, Gates.EntryKey(l, gate),
                     EntryVal(Gates.Rewrite(l, b.mem, gate, status, false, if status.Settled() then causes else map[])))
      ensures Gates.EntryAt(Homes(gates), b'.mem, gate).Some? && Gates.EntryAt(Homes(gates), b'.mem, gate).value.status == status
    {
      var l := Homes(gates);
      WorkedParts(b, Gates.EntryKey(l, gate),
                  EntryVal(Gates.Rewrite(l, b.mem, gate, status, false, if status.Settled() then causes else map[])));
    }

    /** Opens the marker of work no object entry carries, unless it already stands
        open or failed. */
    method OpenObligation(key: Path)
      requires Valid()
      modifies this`keys, this`phys, this`counts, this`cumulative, this`counted, this`book, phys.Values
      ensures Valid() && fresh(phys.Values - old(phys.Values))
      ensures
        var k := Key(canon(ShardKey(key)), EntryCell(key));
        var was := StatusAt(old(book).mem, k);
        book == if was in {Some(Pending), Some(Errored)} then old(book)
                else Worked(old(book), k, EntryVal(NextEntry(old(book).mem, k, Pending, false, map[])))
    {
      hide Valid, Worked;
      var e := Recorded(Key(canon(ShardKey(key)), EntryCell(key)));
      if !(e.Some? && (e.value.status.Pending? || e.value.status.Errored?)) {
        RecordLocked(key, Pending, false, map[]);
      }
    }

    lemma SameRewrite(p: Path, gates: Path -> bool)
      requires Valid()
      ensures forall status, terminal, mirrored ::
                NextEntry(book.mem, Key(canon(ShardKey(p)), EntryCell(p)), status, terminal, mirrored)
                == Gates.Rewrite(Homes(gates), book.mem, p, status, terminal, mirrored)
    {
    }

    /** Reads every mirrored object in turn, workers recording before each. */
    method Survey(shared: seq<Path>, pauses: nat -> seq<Work>, ghost gates: Path -> bool)
      returns (seen: map<Path, Option<Entry>>, ghost us: seq<Upsert>)
      requires Valid()
      modifies this`keys, this`phys, this`counts, this`cumulative, this`counted, this`book, phys.Values
      ensures Valid() && fresh(phys.Values - old(phys.Values))
      ensures us == Meanwhile(canon, old(book).mem, pauses, |shared|) && book == WorkedAll(old(book), us)
      ensures book.mem == Replay(old(book).mem, us) && seen.Keys == (set p | p in shared)
      ensures
        var past := Moments(canon, old(book).mem, pauses, |shared|);
        forall p | p in seen :: Gates.ReadFrom(Homes(gates), past, p, seen[p])
    {
      hide Valid, Changes, Meanwhile, Moments, Gates.ReadFrom, WorkedAll;
      seen, us := map[], [];
      ghost var m := book.mem;
      NoPause(book, pauses);
      for i := 0 to |shared|
        invariant Valid() && fresh(phys.Values - old(phys.Values))
        invariant us == Meanwhile(canon, m, pauses, i) && book == WorkedAll(old(book), us) && book.mem == Replay(m, us)
        invariant seen.Keys == set j | 0 <= j < i :: shared[j]
        invariant forall p | p in seen :: Gates.ReadFrom(Homes(gates), Moments(canon, m, pauses, i), p, seen[p])
      {
        ghost var more := Workers(pauses(i));
        OnePause(m, pauses, i, us, more);
        WorkedOn(old(book), us, more);
        us := us + more;
        WorkedMemory(old(book), us);
        var e := Look(shared[i], gates);
        ReadLast(m, pauses, i, shared[i], e, gates);
        seen := seen[shared[i] := e];
      }
    }

    lemma NoPause(b: Book, pauses: nat -> seq<Work>)
      ensures Meanwhile(canon, b.mem, pauses, 0) == [] && WorkedAll(b, []) == b
    {
    }

    lemma OnePause(m: State, pauses: nat -> seq<Work>, i: nat, us: seq<Upsert>, more: seq<Upsert>)
      requires us == Meanwhile(canon, m, pauses, i) && more == Changes(canon, Replay(m, us), pauses(i))
      ensures us + more == Meanwhile(canon, m, pauses, i + 1)
    {
    }

    /** A reading of the last moment, and readings of earlier ones. */
    lemma ReadLast(m: State, pauses: nat -> seq<Work>, i: nat, p: Path, e: Option<Entry>, gates: Path -> bool)
      requires e == Gates.EntryAt(Homes(gates), Replay(m, Meanwhile(canon, m, pauses, i + 1)), p)
      ensures Gates.ReadFrom(Homes(gates), Moments(canon, m, pauses, i + 1), p, e)
      ensures forall q, f | Gates.ReadFrom(Homes(gates), Moments(canon, m, pauses, i), q, f) ::
                Gates.ReadFrom(Homes(gates), Moments(canon, m, pauses, i + 1), q, f)
    {
      var past := Moments(canon, m, pauses, i + 1);
      hide Meanwhile;
      assert past[..i] == Moments(canon, m, pauses, i) && past[i] == Replay(m, Meanwhile(canon, m, pauses, i + 1));
      PastGrows(past[..i], past, gates);
    }

    /** Changes made in two goes. */
    lemma {:induction false} WorkedOn(b: Book, us: seq<Upsert>, more: seq<Upsert>)
      requires AllTyped(us) && AllTyped(more)
      ensures AllTyped(us + more) && WorkedAll(b, us + more) == WorkedAll(WorkedAll(b, us), more)
      decreases |more|
    {
      hide Worked;
      if more == [] {
        assert us + more == us;
      } else {
        var init := more[..|more| - 1];
        assert AllTyped(init);
        WorkedOn(b, us, init);
        assert (us + more)[..|us + more| - 1] == us + init;
      }
    }

    lemma PastGrows(a: seq<State>, b: seq<State>, gates: Path -> bool)
      requires a <= b
      ensures forall p, e | Gates.ReadFrom(Homes(gates), a, p, e) :: Gates.ReadFrom(Homes(gates), b, p, e)
    {
      forall p, e | Gates.ReadFrom(Homes(gates), a, p, e) ensures Gates.ReadFrom(Homes(gates), b, p, e) {
        var i :| 0 <= i < |a| && e == Gates.EntryAt(Homes(gates), a[i], p);
        assert b[i] == a[i];
      }
    }

    /** Maintains a run's gate over objects recorded elsewhere: it reads them
        all, reads them again for an absence, and then writes the gate if its
        verdict moves it.  Workers record before every read; what they record, the
        memories the reads were of, and the book the gate is written over are this
        ledger's own. */
    method Reference(gate: Path, shared: seq<Path>, retryAbsent: bool, pauses: nat -> seq<Work>, again: nat -> seq<Work>,
                     ghost gates: Path -> bool)
      returns (ghost us: seq<Upsert>, ghost sight: Gates.Sight)
      requires Valid()
      modifies this`keys, this`phys, this`counts, this`cumulative, this`counted, this`book, phys.Values
      ensures Valid() && fresh(phys.Values - old(phys.Values))
      ensures Refers(canon, Homes(gates), old(book), gate, shared, retryAbsent, pauses, again, us, sight, book)
      ensures Gates.GateMoves(Homes(gates), Replay(old(book).mem, us), gate, sight, retryAbsent, book.mem)
    {
      hide Valid, Worked, Meanwhile, Gates.GateMoves;
      var first, second;
      ghost var late;
      first, us := Survey(shared, pauses, gates);
      second, late := Survey(shared, again, gates);
      WorkedOn(old(book), us, late);
      us := us + late;
      sight := Gates.Sight(first, second);
      var verdict := Gates.Verdict(Gates.Sight(first, second), retryAbsent);
      var causes := Gates.Causes(Gates.Sight(first, second));
      Mirror(gate, verdict, causes, gates);
      WorkedMemory(old(book), us);
      ReferredMoves(WorkedAll(old(book), us), gate, sight, retryAbsent, gates);
    }

    lemma ReferredMoves(b: Book, gate: Path, sight: Gates.Sight, retryAbsent: bool, gates: Path -> bool)
      ensures Gates.GateMoves(Homes(gates), b.mem, gate, sight, retryAbsent,
                              GateDurability.Referred(Homes(gates), b, gate, sight, retryAbsent).mem)
    {
      var l := Homes(gates);
      Gates.ReferMoves(l, b.mem, gate, sight, retryAbsent);
      var w := Gates.GateWrite(l, b.mem, gate, Gates.Verdict(sight, retryAbsent));
      hide Gates.GateMoves, Gates.GateWrite, Gates.Verdict;
      if w.Some? { WorkedParts(b, Gates.EntryKey(l, gate), EntryVal(Gates.GateEntry(l, b.mem, gate, w.value, sight))); }
    }

    // -------------------------------------------------------------- durability

    /** Whether an entry would survive a crash at this instant: exactly when it
        is on record, owes the log nothing, and is not in flight; and then every
        state the crash may leave holds it as memory does. */
    method EntryDurable(p: Path) returns (durable: bool)
      requires Valid()
      ensures
        var k := Key(canon(ShardKey(p)), EntryCell(p));
        && (durable <==> k in book.mem && k !in book.dirty && (book.flight.Some? ==> k !in book.flight.value.dirty))
        && (durable ==> forall r | Recoverable(canon, book, r) :: k in r && r[k] == book.mem[k])
    {
      hide TalliesMatch;
      var k := Key(canon(ShardKey(p)), EntryCell(p));
      ViewAt(k);
      GoodTied(canon, book, k);
      durable := false;
      if k.phys in phys {
        var sh := phys[k.phys];
        assert sh.State() == View()[k.phys];
        MarksDecide(canon, book, k);
        durable := k.cell in sh.cells && k.cell !in sh.dirty && p !in sh.inflight;
      }
      hide Good;
      if durable { Survives(k); }
    }

    lemma Survives(k: Key)
      requires Good(canon, book) && k in book.mem && k !in book.dirty
      requires book.flight.Some? ==> k !in book.flight.value.dirty
      ensures forall r | Recoverable(canon, book, r) :: k in r && r[k] == book.mem[k]
    {
      hide Good, Recoverable;
      forall r | Recoverable(canon, book, r) ensures k in r && r[k] == book.mem[k] {
        SettledCellSurvives(canon, book, r, k);
      }
    }
  }
}
