/** An honoured deletion stays honoured (pkg/manifest/ledger.go, `Load`): over any
    number of loads and runs, with crashes at any instant, what a load discarded
    comes back only if it is recorded anew. */
module Deletions {
  import opened Records
  import opened Durability
  import opened Shards
  import opened Batches
  import opened Books
  import opened Loads
  import opened Refinement

  /** The ledger, and the lines of its log file. */
  datatype Site = Site(book: Book, file: seq<Rec>)

  /** One hold of the running ledger's lock, or a crash and the load after it: as
      far as it has read, its writes being holds themselves, or to its success. */
  datatype Step =
    | Held(hold: Hold)
    | Read(disk: Disk, present: Path -> bool, g: Migration)
    | Reopen(disk: Disk, present: Path -> bool, g: Migration)

  /** The batch in flight. */
  function BatchOf(x: Site): seq<Rec> {
    if x.book.flight.Some? then x.book.flight.value.batch else []
  }

  /** The file after one hold: a batch's lines, all or some, or none left. */
  function FiledBy(x: Site, hold: Hold): seq<Rec> {
    var batch := BatchOf(x);
    match hold
    case Acknowledge => x.file + batch
    case Fail(n) => x.file + batch[..if n <= |batch| then n else |batch|]
    case RemoveLog => []
    case _ => x.file
  }

  /** What a crash, and deletions since, may leave: any whole-line prefix of the
      batch in flight after the file's lines, and no snapshot cell that was not
      there.  Directories may be gone, or be there again without their snapshot. */
  ghost predicate Leaves(canon: Path -> Phys, x: Site, disk: Disk) {
    && Consistent(canon, disk)
    && (exists n: nat :: n <= |BatchOf(x)| && disk.log == x.file + BatchOf(x)[..n])
    && (forall sk, c | sk in disk.dirs && c in disk.dirs[sk] ::
          Key(canon(sk), c) in x.book.snaps && x.book.snaps[Key(canon(sk), c)] == disk.dirs[sk][c])
  }

  ghost predicate Steps(canon: Path -> Phys, x: Site, step: Step, y: Site) {
    match step
    case Held(hold) => Next(canon, x.book, hold, y.book) && y.file == FiledBy(x, hold)
    case Read(disk, present, g) =>
      Leaves(canon, x, disk) && Good(canon, y.book) && JustRead(canon, disk, present, g, y.book, y.file)
    case Reopen(disk, present, g) =>
      Leaves(canon, x, disk) && Good(canon, y.book) && Reopened(canon, disk, present, g, y.book, y.file)
  }

  ghost predicate IsRun(canon: Path -> Phys, sites: seq<Site>, steps: seq<Step>) {
    && |sites| == |steps| + 1 && Good(canon, sites[0].book)
    && forall i | 0 <= i < |steps| :: Steps(canon, sites[i], steps[i], sites[i + 1])
  }

  // ------------------------------------------------------------ where values are from

  /** Everything the ledger holds, in memory, on disk and between, is accounted
      for. */
  ghost predicate Sourced(x: Site, from: (Cell, Value) -> bool) {
    var b := x.book;
    && Within(b.mem, from) && Within(b.snaps, from)
    && (forall k | k in b.lead :: from(k.cell, SettledVal(false)))
    && Lines(b.log, from) && Lines(x.file, from)
    && (b.flight.Some? ==>
          Lines(b.flight.value.batch, from) && forall k | k in b.flight.value.lead :: from(k.cell, SettledVal(false)))
  }

  ghost predicate Within(m: State, from: (Cell, Value) -> bool) {
    forall k | k in m :: from(k.cell, m[k])
  }

  ghost predicate Lines(recs: seq<Rec>, from: (Cell, Value) -> bool) {
    forall r | r in recs :: from(r.cell, r.val)
  }

  /** A migration rewrites accounted values into accounted ones. */
  ghost predicate MigratesWithin(g: Migration, from: (Cell, Value) -> bool) {
    forall k: Key, v | from(k.cell, v) && Rewritten(g, k, v).Some? :: from(k.cell, EntryVal(Rewritten(g, k, v).value))
  }

  lemma ReplayWithin(base: State, canon: Path -> Phys, recs: seq<Rec>, from: (Cell, Value) -> bool)
    requires Within(base, from) && Lines(recs, from)
    ensures Within(Replay(base, Routed(canon, recs)), from)
  {
    var us := Routed(canon, recs);
    var m := Replay(base, us);
    forall k | k in m ensures from(k.cell, m[k]) {
      ReplayAt(base, us, k);
      if LastOf(us, k).Some? {
        var i := LastOfSome(us, k);
        assert recs[i] in recs;
      }
    }
  }

  lemma BatchWithin(canon: Path -> Phys, b: Book, batch: seq<Rec>, from: (Cell, Value) -> bool)
    requires IsBatch(b.mem, b.dirty, b.lead, Routed(canon, batch)) && Within(b.mem, from)
    requires forall k | k in b.lead :: from(k.cell, SettledVal(false))
    ensures Lines(batch, from)
  {
    forall r | r in batch ensures from(r.cell, r.val) {
      RoutedIn(canon, batch, r);
      assert Durability.Drained(b.mem, b.dirty, b.lead, Upsert(Key(canon(r.shard), r.cell), r.val));
    }
  }

  lemma HeldSourced(canon: Path -> Phys, x: Site, hold: Hold, y: Site, from: (Cell, Value) -> bool)
    requires Sourced(x, from) && Good(canon, x.book) && Steps(canon, x, Held(hold), y)
    requires hold.Work? ==> from(hold.key.cell, hold.val)
    ensures Sourced(y, from)
  {
    hide Good;
    match hold
    case Work(k, v) => WorkSourced(x, k, v, y, from);
    case Drain(batch) => BatchWithin(canon, x.book, batch, from);
    case Acknowledge =>
    case Fail(n) =>
    case WriteSnapshot(h, doc) => SnapshotSourced(canon, x, h, doc, from);
    case ClearStale(_) =>
    case RemoveLog =>
  }

  lemma WorkSourced(x: Site, k: Key, v: Value, y: Site, from: (Cell, Value) -> bool)
    requires Sourced(x, from) && Typed(k.cell, v) && y == Site(Worked(x.book, k, v), x.file) && from(k.cell, v)
    ensures Sourced(y, from)
  {
    WorkedParts(x.book, k, v);
  }

  lemma SnapshotSourced(canon: Path -> Phys, x: Site, h: Phys, doc: map<Cell, Value>, from: (Cell, Value) -> bool)
    requires Sourced(x, from) && Documents(canon, x.book, h, doc)
    ensures Within(Wrote(x.book, h, doc).snaps, from)
  {
    ReplayWithin(x.book.snaps, canon, x.book.log, from);
    var m := Wrote(x.book, h, doc).snaps;
    forall k | k in m ensures from(k.cell, m[k]) {
      FoldedAt(x.book.snaps, h, doc, k);
      if k.phys == h {
        assert At(doc, k.cell) == At(Image(canon, x.book), Key(h, k.cell));
        assert k == Key(h, k.cell);
      }
    }
  }

  lemma ReadSourced(canon: Path -> Phys, x: Site, disk: Disk, present: Path -> bool, g: Migration, y: Site,
                    from: (Cell, Value) -> bool)
    requires Sourced(x, from) && MigratesWithin(g, from) && Steps(canon, x, Read(disk, present, g), y)
    ensures Sourced(y, from)
  {
    LeavesSourced(canon, x, disk, from);
    hide Base, Surviving, Holds, Within, Lines, Leaves, Good, MigratesWithin, Migrated;
    var base :| Base(canon, disk, present, base) && y.book.mem == Migrated(g, base);
    SurvivingWithin(present, disk.log, from);
    BaseWithin(canon, disk, present, base, from);
    MigratedWithin(g, base, from);
    HoldsWithin(canon, disk, y.book.snaps, from);
  }

  lemma ReopenSourced(canon: Path -> Phys, x: Site, disk: Disk, present: Path -> bool, g: Migration, y: Site,
                      from: (Cell, Value) -> bool)
    requires Sourced(x, from) && MigratesWithin(g, from) && Steps(canon, x, Reopen(disk, present, g), y)
    ensures Sourced(y, from)
  {
    LeavesSourced(canon, x, disk, from);
    hide Base, Surviving, Holds, Within, Lines, Leaves, Good, FromMemory, MigratesWithin, Migrated;
    var base, tail :| ReopenedAs(canon, disk, present, g, y.book, y.file, base, tail);
    SurvivingWithin(present, disk.log, from);
    BaseWithin(canon, disk, present, base, from);
    MigratedWithin(g, base, from);
    TailWithin(canon, tail, y.book.mem, from);
    if Retired(y.book, y.file, base, tail) {
      RetiredWithin(y.book, y.file, base, tail, from);
    } else {
      HoldsWithin(canon, disk, y.book.snaps, from);
      LinesConcat(Surviving(present, disk.log), tail, from);
      LinesConcat(disk.log, tail, from);
    }
  }

  lemma RetiredWithin(b: Book, file: seq<Rec>, base: State, tail: seq<Rec>, from: (Cell, Value) -> bool)
    requires Retired(b, file, base, tail) && Within(base, from) && Within(b.mem, from)
    ensures Within(b.snaps, from)
  {
  }

  lemma LinesConcat(a: seq<Rec>, b: seq<Rec>, from: (Cell, Value) -> bool)
    requires Lines(a, from) && Lines(b, from)
    ensures Lines(a + b, from)
  {
  }

  lemma LeavesSourced(canon: Path -> Phys, x: Site, disk: Disk, from: (Cell, Value) -> bool)
    requires Sourced(x, from) && Leaves(canon, x, disk)
    ensures Lines(disk.log, from) && forall sk, c | sk in disk.dirs && c in disk.dirs[sk] :: from(c, disk.dirs[sk][c])
  {
    var n: nat :| n <= |BatchOf(x)| && disk.log == x.file + BatchOf(x)[..n];
  }

  lemma HoldsWithin(canon: Path -> Phys, disk: Disk, m: State, from: (Cell, Value) -> bool)
    requires Holds(canon, disk, m)
    requires forall sk, c | sk in disk.dirs && c in disk.dirs[sk] :: from(c, disk.dirs[sk][c])
    ensures Within(m, from)
  {
    forall k | k in m ensures from(k.cell, m[k]) {
      var sk :| sk in disk.dirs && canon(sk) == k.phys;
      assert k == Key(canon(sk), k.cell);
      assert At(m, Key(canon(sk), k.cell)) == At(disk.dirs[sk], k.cell);
    }
  }

  lemma SurvivingWithin(present: Path -> bool, log: seq<Rec>, from: (Cell, Value) -> bool)
    requires Lines(log, from)
    ensures Lines(Surviving(present, log), from)
  {
    SurvivingResolved(present, log);
    hide Surviving;
    forall r | r in Surviving(present, log) ensures from(r.cell, r.val) {
      var w :| w in log && Resolve(present, w) == Some(r);
    }
  }

  lemma BaseWithin(canon: Path -> Phys, disk: Disk, present: Path -> bool, base: State, from: (Cell, Value) -> bool)
    requires Base(canon, disk, present, base) && Lines(Surviving(present, disk.log), from)
    requires forall sk, c | sk in disk.dirs && c in disk.dirs[sk] :: from(c, disk.dirs[sk][c])
    ensures Within(base, from)
  {
    var snaps :| Holds(canon, disk, snaps) && base == Replay(snaps, Routed(canon, Surviving(present, disk.log)));
    HoldsWithin(canon, disk, snaps, from);
    hide Surviving;
    ReplayWithin(snaps, canon, Surviving(present, disk.log), from);
  }

  lemma MigratedWithin(g: Migration, base: State, from: (Cell, Value) -> bool)
    requires Within(base, from) && MigratesWithin(g, from)
    ensures Within(Migrated(g, base), from)
  {
    hide Rewritten;
  }

  lemma TailWithin(canon: Path -> Phys, tail: seq<Rec>, m: State, from: (Cell, Value) -> bool)
    requires FromMemory(canon, tail, m) && Within(m, from)
    ensures Lines(tail, from)
  {
    forall r | r in tail ensures from(r.cell, r.val) {
      assert Key(canon(r.shard), r.cell) in m;
    }
  }

  // ------------------------------------------------------------- whole runs

  /** Every value a worker records in these steps is accounted for. */
  ghost predicate RecordsWithin(steps: seq<Step>, from: (Cell, Value) -> bool) {
    forall s | s in steps ::
      && (s.Held? && s.hold.Work? ==> from(s.hold.key.cell, s.hold.val))
      && (!s.Held? ==> MigratesWithin(s.g, from))
  }

  lemma {:induction false} RunSourced(canon: Path -> Phys, sites: seq<Site>, steps: seq<Step>, i: nat,
                                      from: (Cell, Value) -> bool)
    requires IsRun(canon, sites, steps) && i <= |steps| && Sourced(sites[i], from) && RecordsWithin(steps[i..], from)
    ensures Sourced(sites[|steps|], from) && Good(canon, sites[|steps|].book)
    decreases |steps| - i
  {
    hide Sourced, Good, Steps, MigratesWithin;
    if |steps| > 0 {
      RunGood(canon, sites, steps);
      if i < |steps| {
        var n := |steps| - 1;
        assert steps[..n][i..] == steps[i..][..n - i];
        forall s | s in steps[..n][i..] ensures s in steps[i..] {}
        RunUpTo(canon, sites, steps, n);
        RunSourced(canon, sites[..n + 1], steps[..n], i, from);
        assert steps[n] in steps[i..] by { assert steps[i..][n - i] == steps[n]; }
        StepSourced(canon, sites[n], steps[n], sites[n + 1], from);
      }
    }
  }

  lemma RunUpTo(canon: Path -> Phys, sites: seq<Site>, steps: seq<Step>, n: nat)
    requires IsRun(canon, sites, steps) && n <= |steps|
    ensures IsRun(canon, sites[..n + 1], steps[..n])
  {
  }

  lemma StepSourced(canon: Path -> Phys, x: Site, s: Step, y: Site, from: (Cell, Value) -> bool)
    requires Sourced(x, from) && Good(canon, x.book) && Steps(canon, x, s, y) && RecordsWithin([s], from)
    ensures Sourced(y, from)
  {
    hide Sourced, Good, Steps;
    assert s in [s];
    match s
    case Held(hold) => HeldSourced(canon, x, hold, y, from);
    case Read(disk, present, g) => ReadSourced(canon, x, disk, present, g, y, from);
    case Reopen(disk, present, g) => ReopenSourced(canon, x, disk, present, g, y, from);
  }

  lemma {:induction false} RunGood(canon: Path -> Phys, sites: seq<Site>, steps: seq<Step>)
    requires IsRun(canon, sites, steps)
    ensures Good(canon, sites[|steps|].book)
    decreases |steps|
  {
    hide Good, Next, Leaves, JustRead, Reopened;
    if steps != [] {
      var n := |steps| - 1;
      RunUpTo(canon, sites, steps, n);
      RunGood(canon, sites[..n + 1], steps[..n]);
      assert Steps(canon, sites[n], steps[n], sites[n + 1]);
      if steps[n].Held? { NextGood(canon, sites[n].book, steps[n].hold, sites[n + 1].book); }
    }
  }

  // ------------------------------------------------------ honoured for good

  /** Removed with its subtree: no snapshot that is there holds the cell, and the
      load discards every log line that tells of it. */
  ghost predicate Removed(disk: Disk, present: Path -> bool, c: Cell) {
    && (forall sk | sk in disk.dirs :: c !in disk.dirs[sk])
    && (forall r | r in disk.log && r.cell == c :: !SubtreeThere(present, r))
  }

  ghost predicate RecordedIn(steps: seq<Step>, c: Cell) {
    exists s :: s in steps && s.Held? && s.hold.Work? && s.hold.key.cell == c
  }

  /** Nothing of the cell is in memory, in a snapshot, in the log's file or in a
      batch on its way there. */
  ghost predicate NothingOf(x: Site, c: Cell) {
    && (forall k | k in x.book.mem || k in x.book.snaps :: k.cell != c)
    && (forall r | r in x.file || r in BatchOf(x) :: r.cell != c)
  }

  /** Once a load succeeded over a removed subtree, nothing of it is anywhere,
      through any further holds, failed appends, partial folds, migrations, crashes
      and loads, whatever directories are there by then, unless a worker records it
      anew. */
  lemma HonouredForGood(canon: Path -> Phys, sites: seq<Site>, steps: seq<Step>, i: nat, c: Cell)
    requires IsRun(canon, sites, steps) && i < |steps| && steps[i].Reopen?
    requires Removed(steps[i].disk, steps[i].present, c) && !RecordedIn(steps[i + 1..], c)
    ensures NothingOf(sites[|steps|], c)
  {
    var from: (Cell, Value) -> bool := (d, v) => d != c;
    assert Steps(canon, sites[i], steps[i], sites[i + 1]);
    hide IsRun, Sourced, Removed, NothingOf, Leaves, Good, Reopened;
    RemovedSourced(canon, sites[i + 1], steps[i].disk, steps[i].present, steps[i].g, c, from);
    UnrecordedWithin(steps[i + 1..], c, from);
    RunSourced(canon, sites, steps, i + 1, from);
    SourcedApart(sites[|steps|], c, from);
  }

  lemma UnrecordedWithin(steps: seq<Step>, c: Cell, from: (Cell, Value) -> bool)
    requires !RecordedIn(steps, c) && forall d, v :: from(d, v) <==> d != c
    ensures RecordsWithin(steps, from)
  {
    hide Rewritten;
  }

  lemma SourcedApart(x: Site, c: Cell, from: (Cell, Value) -> bool)
    requires Sourced(x, from) && forall d, v :: from(d, v) <==> d != c
    ensures NothingOf(x, c)
  {
  }

  /** A load retires a log it discarded from, and keeps only lines it read. */
  lemma RemovedSourced(canon: Path -> Phys, y: Site, disk: Disk, present: Path -> bool, g: Migration, c: Cell,
                       from: (Cell, Value) -> bool)
    requires Reopened(canon, disk, present, g, y.book, y.file) && Removed(disk, present, c)
    requires forall d, v :: from(d, v) <==> d != c
    ensures Sourced(y, from)
  {
    var base, tail :| ReopenedAs(canon, disk, present, g, y.book, y.file, base, tail);
    RemovedApart(disk, present, c, from);
    hide Base, Surviving, FromMemory, Migrated, Holds, Resolve, Within, Lines;
    BaseWithin(canon, disk, present, base, from);
    assert MigratesWithin(g, from) by { hide Rewritten; }
    MigratedWithin(g, base, from);
    TailWithin(canon, tail, y.book.mem, from);
    if Retired(y.book, y.file, base, tail) {
      RetiredWithin(y.book, y.file, base, tail, from);
    } else {
      RetainedWithin(disk, present, c, from);
      HoldsWithin(canon, disk, y.book.snaps, from);
      LinesConcat(Surviving(present, disk.log), tail, from);
      LinesConcat(disk.log, tail, from);
    }
  }

  lemma RemovedApart(disk: Disk, present: Path -> bool, c: Cell, from: (Cell, Value) -> bool)
    requires Removed(disk, present, c) && forall d, v :: from(d, v) <==> d != c
    ensures Lines(Surviving(present, disk.log), from)
    ensures forall sk, d | sk in disk.dirs && d in disk.dirs[sk] :: from(d, disk.dirs[sk][d])
  {
    SurvivingResolved(present, disk.log);
    hide Surviving;
    forall r | r in Surviving(present, disk.log) ensures from(r.cell, r.val) {
      var w :| w in disk.log && Resolve(present, w) == Some(r);
      assert w.cell == r.cell;
    }
  }

  lemma RetainedWithin(disk: Disk, present: Path -> bool, c: Cell, from: (Cell, Value) -> bool)
    requires Removed(disk, present, c) && (forall d, v :: from(d, v) <==> d != c)
    requires forall r | r in disk.log :: Resolve(present, r).Some?
    ensures Lines(disk.log, from)
  {
    forall r | r in disk.log ensures r.cell != c {
      assert SubtreeThere(present, r);
    }
  }

  /** What the site holds of a cell, anywhere. */
  ghost predicate Has(x: Site, c: Cell, v: Value) {
    || (exists k :: k in x.book.mem && k.cell == c && x.book.mem[k] == v)
    || (exists k :: k in x.book.snaps && k.cell == c && x.book.snaps[k] == v)
    || (exists k :: k in x.book.lead && k.cell == c && v == SettledVal(false))
    || (exists r :: (r in x.book.log || r in x.file || r in BatchOf(x)) && r.cell == c && r.val == v)
    || (x.book.flight.Some? && exists k :: k in x.book.flight.value.lead && k.cell == c && v == SettledVal(false))
  }

  ghost predicate RecordsOf(steps: seq<Step>, c: Cell, v: Value) {
    exists s :: s in steps && s.Held? && s.hold.Work? && s.hold.key.cell == c && s.hold.val == v
  }

  /** Nothing comes from nowhere: with no entry left to migrate, every value memory
      holds was held at any earlier moment, somewhere, or was recorded since. */
  lemma NothingFromNowhere(canon: Path -> Phys, sites: seq<Site>, steps: seq<Step>, i: nat, k: Key)
    requires IsRun(canon, sites, steps) && i <= |steps| && k in sites[|steps|].book.mem
    requires forall s | s in steps[i..] && !s.Held? :: s.g.dated == {}
    ensures
      var v := sites[|steps|].book.mem[k];
      Has(sites[i], k.cell, v) || RecordsOf(steps[i..], k.cell, v)
  {
    ghost var from: (Cell, Value) -> bool := (c, v) => Has(sites[i], c, v) || RecordsOf(steps[i..], c, v);
    HasSourced(sites[i], from);
    forall s | s in steps[i..]
      ensures (s.Held? && s.hold.Work? ==> from(s.hold.key.cell, s.hold.val)) && (!s.Held? ==> MigratesWithin(s.g, from))
    {
      if s.Held? && s.hold.Work? { assert RecordsOf(steps[i..], s.hold.key.cell, s.hold.val); }
    }
    hide IsRun, Steps;
    RunSourced(canon, sites, steps, i, from);
  }

  lemma HasSourced(x: Site, from: (Cell, Value) -> bool)
    requires forall c, v | Has(x, c, v) :: from(c, v)
    ensures Sourced(x, from)
  {
    forall k | k in x.book.mem ensures from(k.cell, x.book.mem[k]) { assert Has(x, k.cell, x.book.mem[k]); }
    forall k | k in x.book.snaps ensures from(k.cell, x.book.snaps[k]) { assert Has(x, k.cell, x.book.snaps[k]); }
    forall k | k in x.book.lead ensures from(k.cell, SettledVal(false)) { assert Has(x, k.cell, SettledVal(false)); }
    forall r | r in x.book.log || r in x.file || r in BatchOf(x) ensures from(r.cell, r.val) { assert Has(x, r.cell, r.val); }
    if x.book.flight.Some? {
      forall k | k in x.book.flight.value.lead ensures from(k.cell, SettledVal(false)) { assert Has(x, k.cell, SettledVal(false)); }
    }
  }

  // ---------------------------------------------------- the ledger's own calls

  function HeldSteps(holds: seq<Hold>): seq<Step> {
    seq(|holds|, i requires 0 <= i < |holds| => Held(holds[i]))
  }

  /** What a call on the ledger did is such a stretch of steps, and its file is the
      one the call left. */
  lemma {:induction false} CallIsRun(canon: Path -> Phys, b: Book, file: seq<Rec>, holds: seq<Hold>, b': Book)
    returns (sites: seq<Site>)
    requires Reaches(canon, b, holds, b') && Good(canon, b) && b.flight.None?
    ensures IsRun(canon, sites, HeldSteps(holds)) && sites[0] == Site(b, file)
    ensures sites[|holds|] == Site(b', Filed(file, holds)) && BatchOf(sites[|holds|]) == Pending(holds)
    decreases |holds|
  {
    hide Good, Next;
    if holds == [] {
      sites := [Site(b, file)];
    } else {
      var init, last := holds[..|holds| - 1], holds[|holds| - 1];
      var x :| Reaches(canon, b, init, x) && Next(canon, x, last, b');
      var before := CallIsRun(canon, b, file, init, x);
      var y := Site(b', Filed(file, holds));
      sites := before + [y];
      StepFiles(canon, before[|init|], init, last, file, y);
      forall i | 0 <= i < |holds| ensures Steps(canon, sites[i], HeldSteps(holds)[i], sites[i + 1]) {
        if i < |init| { assert HeldSteps(holds)[i] == HeldSteps(init)[i]; }
      }
    }
  }

  lemma StepFiles(canon: Path -> Phys, x: Site, init: seq<Hold>, last: Hold, file: seq<Rec>, y: Site)
    requires Next(canon, x.book, last, y.book) && x.file == Filed(file, init) && BatchOf(x) == Pending(init)
    requires y.file == Filed(file, init + [last])
    ensures Steps(canon, x, Held(last), y) && BatchOf(y) == Pending(init + [last])
  {
    hide IsBatch, Documents, Snapped, Clean;
    assert (init + [last])[..|init|] == init;
    if last.Work? { WorkedParts(x.book, last.key, last.val); }
  }
}
