/** What a load makes of the disk it finds (pkg/manifest/ledger.go, `Load`):
    snapshots, the log's surviving records, and the migrations over both. */
module Loads {
  import opened Statuses
  import opened Records
  import opened Durability
  import opened Shards
  import opened Batches
  import opened Books

  /** Every discovered shard key with the snapshot in its directory, and the log
      file's lines. */
  datatype Disk = Disk(dirs: map<Path, map<Cell, Value>>, log: seq<Rec>, bytes: nat)

  /** Keys that reach one directory find one snapshot there. */
  ghost predicate Consistent(canon: Path -> Phys, disk: Disk) {
    && (forall a, b | a in disk.dirs && b in disk.dirs && canon(a) == canon(b) :: disk.dirs[a] == disk.dirs[b])
    && (forall a, c | a in disk.dirs && c in disk.dirs[a] :: Typed(c, disk.dirs[a][c]))
    && (forall r | r in disk.log :: Typed(r.cell, r.val))
  }

  /** The shard key a record replays under: its tag if the tag's subtree is on
      disk, else the key its own payload routes to, else none. */
  function Resolve(present: Path -> bool, r: Rec): Option<Rec> {
    if present(r.shard) then Some(r)
    else if present(OwnShardKey(r.cell)) then Some(r.(shard := OwnShardKey(r.cell)))
    else None
  }

  function Surviving(present: Path -> bool, log: seq<Rec>): seq<Rec> {
    if log == [] then []
    else
      var init := Surviving(present, log[..|log| - 1]);
      var r := Resolve(present, log[|log| - 1]);
      if r.Some? then init + [r.value] else init
  }

  /** Only resolved records survive, and each of them does. */
  lemma {:induction false} SurvivingResolved(present: Path -> bool, log: seq<Rec>)
    ensures forall r | r in Surviving(present, log) ::
              present(r.shard) && exists w :: w in log && Resolve(present, w) == Some(r)
    ensures forall w | w in log && Resolve(present, w).Some? :: Resolve(present, w).value in Surviving(present, log)
  {
    if log != [] {
      var init, last := log[..|log| - 1], log[|log| - 1];
      SurvivingResolved(present, init);
      assert log == init + [last];
    }
  }

  // --------------------------------------------------- which records a load keeps

  /** A logged record's subtree is on disk, under its tag or under the key its own
      cell routes to. */
  predicate SubtreeThere(present: Path -> bool, w: Rec) {
    present(w.shard) || present(OwnShardKey(w.cell))
  }

  /** The record is replayed as `r`: its own cell and value, under its tag while
      that is on disk, else under its cell's key. */
  predicate ReplaysAs(present: Path -> bool, w: Rec, r: Rec) {
    && r.cell == w.cell && r.val == w.val
    && (present(w.shard) ==> r.shard == w.shard)
    && (!present(w.shard) ==> present(r.shard) && r.shard == OwnShardKey(w.cell))
  }

  /** What is replayed is, in order, the log's records whose subtree is on disk:
      `at` are their lines. */
  ghost predicate ReplaysAt(present: Path -> bool, log: seq<Rec>, out: seq<Rec>, at: seq<nat>) {
    && |at| == |out|
    && (forall i | 0 <= i < |at| :: at[i] < |log| && ReplaysAs(present, log[at[i]], out[i]))
    && (forall i, j | 0 <= i < j < |at| :: at[i] < at[j])
    && (forall n | 0 <= n < |log| :: n in at <==> SubtreeThere(present, log[n]))
  }

  /** A record is in what a load replays exactly when its tag's subtree or its
      cell's is still there. */
  lemma {:induction false} SurvivingAreThere(present: Path -> bool, log: seq<Rec>) returns (at: seq<nat>)
    ensures ReplaysAt(present, log, Surviving(present, log), at)
  {
    if log == [] {
      at := [];
    } else {
      var was, w := log[..|log| - 1], log[|log| - 1];
      var init := SurvivingAreThere(present, was);
      assert log == was + [w];
      assert Surviving(present, log) == if Resolve(present, w).Some? then Surviving(present, was) + [Resolve(present, w).value]
                                        else Surviving(present, was);
      hide Surviving, ReplaysAt;
      if Resolve(present, w).Some? {
        at := init + [|was|];
        ReplaysOneMore(present, was, w, Surviving(present, was), Resolve(present, w).value, init);
      } else {
        at := init;
        ReplaysNoMore(present, was, w, Surviving(present, was), init);
      }
    }
  }

  lemma ReplaysOneMore(present: Path -> bool, was: seq<Rec>, w: Rec, out: seq<Rec>, r: Rec, init: seq<nat>)
    requires ReplaysAt(present, was, out, init) && SubtreeThere(present, w) && ReplaysAs(present, w, r)
    ensures ReplaysAt(present, was + [w], out + [r], init + [|was|])
  {
    hide SubtreeThere, ReplaysAs;
    var log, at := was + [w], init + [|was|];
    forall n | 0 <= n < |log| ensures n in at <==> SubtreeThere(present, log[n]) {
      if n < |was| { assert log[n] == was[n]; } else { assert at[|init|] == n; }
    }
  }

  lemma ReplaysNoMore(present: Path -> bool, was: seq<Rec>, w: Rec, out: seq<Rec>, init: seq<nat>)
    requires ReplaysAt(present, was, out, init) && !SubtreeThere(present, w)
    ensures ReplaysAt(present, was + [w], out, init)
  {
    hide SubtreeThere, ReplaysAs;
    var log := was + [w];
    forall n | 0 <= n < |log| ensures n in init <==> SubtreeThere(present, log[n]) {
      if n < |was| { assert log[n] == was[n]; } else { assert n !in init; }
    }
  }

  // ------------------------------------------------------------ the snapshots

  /** A book that holds the snapshots of the keys in `done` and nothing else. */
  ghost predicate HoldsOnly(canon: Path -> Phys, disk: Disk, done: set<Path>, b: Book) {
    && done <= disk.dirs.Keys
    && (forall sk | sk in done :: canon(sk) in b.shards && b.shards[canon(sk)].cells == disk.dirs[sk])
    && (forall h | h in b.shards :: exists sk :: sk in done && canon(sk) == h)
  }

  /** Every discovered key's shard is open. */
  ghost predicate AllOpen(canon: Path -> Phys, disk: Disk, b: Book) {
    forall sk | sk in disk.dirs :: canon(sk) in b.shards
  }

  /** A snapshot of an old version is on disk. */
  ghost predicate OldOnDisk(canon: Path -> Phys, disk: Disk, g: Migration) {
    exists sk :: sk in disk.dirs && canon(sk) in g.dated && canon(sk) in g.versioned
  }

  lemma HoldsNone(canon: Path -> Phys, disk: Disk, b: Book)
    requires b.shards == map[]
    ensures HoldsOnly(canon, disk, {}, b)
  {
  }

  lemma HoldsMore(canon: Path -> Phys, disk: Disk, done: set<Path>, b: Book, sk: Path)
    requires Consistent(canon, disk) && HoldsOnly(canon, disk, done, b) && sk in disk.dirs
    ensures HoldsOnly(canon, disk, done + {sk},
                      if canon(sk) in b.shards then b else Read(b, canon(sk), disk.dirs[sk]))
  {
  }

  /** Every snapshot cell is in memory, and memory holds nothing else. */
  ghost predicate Holds(canon: Path -> Phys, disk: Disk, m: State) {
    && (forall sk, c | sk in disk.dirs :: At(m, Key(canon(sk), c)) == At(disk.dirs[sk], c))
    && (forall k: Key | k in m :: exists sk :: sk in disk.dirs && canon(sk) == k.phys)
  }

  lemma HoldsAll(canon: Path -> Phys, disk: Disk, b: Book)
    requires HoldsOnly(canon, disk, disk.dirs.Keys, b) && Tied(b)
    ensures Holds(canon, disk, b.mem)
  {
    forall k: Key ensures At(b.mem, k) == CellAt(b.shards, k) {}
    forall sk, c | sk in disk.dirs ensures At(b.mem, Key(canon(sk), c)) == At(disk.dirs[sk], c) {
      assert At(b.mem, Key(canon(sk), c)) == CellAt(b.shards, Key(canon(sk), c));
    }
    forall k: Key | k in b.mem ensures exists sk :: sk in disk.dirs && canon(sk) == k.phys {
      assert At(b.mem, k) == CellAt(b.shards, k);
    }
  }

  // ------------------------------------------------------------- migrations

  /** The entries a migration rewrites: `dated` are the shards whose snapshots
      predate the schema. */
  datatype Migration = Migration(dated: set<Phys>, versioned: set<Phys>, rewrite: (Path, Entry) -> Option<Entry>)

  function Rewritten(g: Migration, k: Key, v: Value): Option<Entry> {
    if k.phys in g.dated && k.cell.EntryCell? && v.EntryVal? then g.rewrite(k.cell.path, v.entry) else None
  }

  function Migrated(g: Migration, m: State): State {
    map k | k in m :: if Rewritten(g, k, m[k]).Some? then EntryVal(Rewritten(g, k, m[k]).value) else m[k]
  }

  /** Migrated except for the cells still to do. */
  function MigratedBut(g: Migration, m: State, left: set<Key>): State {
    map k | k in m ::
      if k !in left && Rewritten(g, k, m[k]).Some? then EntryVal(Rewritten(g, k, m[k]).value) else m[k]
  }

  ghost function ToMigrate(g: Migration, m: State): set<Key> {
    set k | k in m && Rewritten(g, k, m[k]).Some?
  }

  lemma MigrateOne(g: Migration, m: State, left: set<Key>, k: Key)
    requires k in left && left <= ToMigrate(g, m)
    ensures Rewritten(g, k, m[k]).Some? && k in MigratedBut(g, m, left) && MigratedBut(g, m, left)[k] == m[k]
    ensures MigratedBut(g, m, left - {k}) == MigratedBut(g, m, left)[k := EntryVal(Rewritten(g, k, m[k]).value)]
  {
  }

  // ------------------------------------------------------ what a load amounts to

  /** What the disk's snapshots and surviving records say, migrations apart. */
  ghost predicate Base(canon: Path -> Phys, disk: Disk, present: Path -> bool, base: State) {
    exists snaps :: Holds(canon, disk, snaps) && base == Replay(snaps, Routed(canon, Surviving(present, disk.log)))
  }

  /** A load that has read and migrated but written nothing yet. */
  ghost predicate JustRead(canon: Path -> Phys, disk: Disk, present: Path -> bool, g: Migration, b: Book, file: seq<Rec>) {
    && (exists base :: Base(canon, disk, present, base) && b.mem == Migrated(g, base))
    && Holds(canon, disk, b.snaps) && b.log == Surviving(present, disk.log) && file == disk.log
    && b.lead == {} && b.flight.None?
  }

  /** Lines that say what memory says. */
  ghost predicate FromMemory(canon: Path -> Phys, tail: seq<Rec>, m: State) {
    forall r | r in tail :: Key(canon(r.shard), r.cell) in m && m[Key(canon(r.shard), r.cell)] == r.val
  }

  /** The log the load read is gone: what is on disk is the loaded state, before or
      after its migrations. */
  ghost predicate Retired(b: Book, file: seq<Rec>, base: State, tail: seq<Rec>) {
    && b.log == file == tail
    && forall k | k in b.snaps :: (k in base && b.snaps[k] == base[k]) || (k in b.mem && b.snaps[k] == b.mem[k])
  }

  /** The log the load read is still there, and nothing of it was discarded. */
  ghost predicate Retained(canon: Path -> Phys, disk: Disk, present: Path -> bool, b: Book, file: seq<Rec>, tail: seq<Rec>) {
    && (forall r | r in disk.log :: Resolve(present, r).Some?)
    && b.log == Surviving(present, disk.log) + tail && file == disk.log + tail && Holds(canon, disk, b.snaps)
  }

  /** A load that succeeded: all it read is in memory, migrated, and durable; and a
      log it discarded from is no longer there. */
  ghost predicate Reopened(canon: Path -> Phys, disk: Disk, present: Path -> bool, g: Migration, b: Book, file: seq<Rec>) {
    exists base, tail :: ReopenedAs(canon, disk, present, g, b, file, base, tail)
  }

  ghost predicate ReopenedAs(canon: Path -> Phys, disk: Disk, present: Path -> bool, g: Migration, b: Book, file: seq<Rec>,
                             base: State, tail: seq<Rec>) {
    && AtRest(b) && Base(canon, disk, present, base) && b.mem == Migrated(g, base) && FromMemory(canon, tail, b.mem)
    && (Retired(b, file, base, tail) || Retained(canon, disk, present, b, file, tail))
  }

  // ------------------------------------------------- what a load holds, cell by cell

  /** The record is replayed into this cell of this directory. */
  predicate LandsAt(canon: Path -> Phys, present: Path -> bool, w: Rec, k: Key) {
    && w.cell == k.cell
    && (present(w.shard) ==> canon(w.shard) == k.phys)
    && (!present(w.shard) ==> present(OwnShardKey(w.cell)) && canon(OwnShardKey(w.cell)) == k.phys)
  }

  /** The `n`-th line is the newest that lands at a cell. */
  ghost predicate Newest(canon: Path -> Phys, disk: Disk, present: Path -> bool, k: Key, n: nat) {
    && n < |disk.log| && LandsAt(canon, present, disk.log[n], k)
    && forall m | n < m < |disk.log| :: !LandsAt(canon, present, disk.log[m], k)
  }

  /** What the disk says of a cell: the newest line that lands there, or else the
      snapshot of its directory. */
  ghost predicate DiskSays(canon: Path -> Phys, disk: Disk, present: Path -> bool, k: Key, v: Value) {
    || (exists n: nat :: Newest(canon, disk, present, k, n) && disk.log[n].val == v)
    || ((forall w | w in disk.log :: !LandsAt(canon, present, w, k))
        && exists sk :: sk in disk.dirs && canon(sk) == k.phys && k.cell in disk.dirs[sk] && disk.dirs[sk][k.cell] == v)
  }

  /** A value after the migrations: an entry of a dated shard is rewritten if they
      change it. */
  predicate After(g: Migration, k: Key, v: Value, v': Value) {
    if k.phys in g.dated && k.cell.EntryCell? && v.EntryVal? && g.rewrite(k.cell.path, v.entry).Some?
    then v' == EntryVal(g.rewrite(k.cell.path, v.entry).value)
    else v' == v
  }

  /** Memory is what the disk says, migrated, and nothing else. */
  ghost predicate Restores(canon: Path -> Phys, disk: Disk, present: Path -> bool, g: Migration, m: State) {
    && (forall k, v | DiskSays(canon, disk, present, k, v) :: k in m && After(g, k, v, m[k]))
    && (forall k | k in m :: exists v :: DiskSays(canon, disk, present, k, v))
  }

  /** A load that succeeds restores what the disk says. */
  lemma ReopenedRestores(canon: Path -> Phys, disk: Disk, present: Path -> bool, g: Migration, b: Book, file: seq<Rec>)
    requires Reopened(canon, disk, present, g, b, file)
    ensures Restores(canon, disk, present, g, b.mem)
  {
    var base, tail :| ReopenedAs(canon, disk, present, g, b, file, base, tail);
    var snaps :| Holds(canon, disk, snaps) && base == Replay(snaps, Routed(canon, Surviving(present, disk.log)));
    hide Reopened, ReopenedAs, Surviving, Migrated, DiskSays, Holds;
    forall k ensures k in base ==> DiskSays(canon, disk, present, k, base[k])
             ensures forall v | DiskSays(canon, disk, present, k, v) :: k in base && base[k] == v
    {
      BaseSays(canon, disk, present, snaps, k);
    }
    MigratedAfter(g, base);
  }

  lemma MigratedAfter(g: Migration, base: State)
    ensures Migrated(g, base).Keys == base.Keys && forall k | k in base :: After(g, k, base[k], Migrated(g, base)[k])
  {
  }

  lemma BaseSays(canon: Path -> Phys, disk: Disk, present: Path -> bool, snaps: State, k: Key)
    requires Holds(canon, disk, snaps)
    ensures
      var base := Replay(snaps, Routed(canon, Surviving(present, disk.log)));
      && (k in base ==> DiskSays(canon, disk, present, k, base[k]))
      && forall v | DiskSays(canon, disk, present, k, v) :: k in base && base[k] == v
  {
    var out := Surviving(present, disk.log);
    var at := SurvivingAreThere(present, disk.log);
    var us := Routed(canon, out);
    hide Surviving, Replay;
    ReplayAt(snaps, us, k);
    if LastOf(us, k).Some? {
      var i := LastOfSome(us, k);
      LandedNewest(canon, disk, present, out, at, k, i);
    } else {
      LastOfNone(us, k);
      NoneLanded(canon, disk, present, out, at, k);
      SnapSays(canon, disk, present, snaps, k);
    }
  }

  lemma LandedNewest(canon: Path -> Phys, disk: Disk, present: Path -> bool, out: seq<Rec>, at: seq<nat>, k: Key, i: nat)
    requires ReplaysAt(present, disk.log, out, at) && i < |out| && Key(canon(out[i].shard), out[i].cell) == k
    requires forall j | i < j < |out| :: Key(canon(out[j].shard), out[j].cell) != k
    ensures Newest(canon, disk, present, k, at[i]) && disk.log[at[i]].val == out[i].val
    ensures forall v :: DiskSays(canon, disk, present, k, v) <==> v == out[i].val
  {
    forall m | 0 <= m < |disk.log| && LandsAt(canon, present, disk.log[m], k) ensures m <= at[i] {
      var j := LandedBy(canon, disk, present, out, at, k, m);
    }
    assert disk.log[at[i]] in disk.log && LandsAt(canon, present, disk.log[at[i]], k);
    OneNewest(canon, disk, present, k, at[i]);
  }

  lemma LandedBy(canon: Path -> Phys, disk: Disk, present: Path -> bool, out: seq<Rec>, at: seq<nat>, k: Key, m: nat)
    returns (j: nat)
    requires ReplaysAt(present, disk.log, out, at) && m < |disk.log| && LandsAt(canon, present, disk.log[m], k)
    ensures j < |at| && at[j] == m && Key(canon(out[j].shard), out[j].cell) == k
  {
    assert SubtreeThere(present, disk.log[m]);
    j :| 0 <= j < |at| && at[j] == m;
    assert ReplaysAs(present, disk.log[at[j]], out[j]);
  }

  lemma OneNewest(canon: Path -> Phys, disk: Disk, present: Path -> bool, k: Key, n: nat)
    requires Newest(canon, disk, present, k, n)
    ensures forall m: nat | Newest(canon, disk, present, k, m) :: m == n
  {
  }

  lemma NoneLanded(canon: Path -> Phys, disk: Disk, present: Path -> bool, out: seq<Rec>, at: seq<nat>, k: Key)
    requires ReplaysAt(present, disk.log, out, at)
    requires forall j | 0 <= j < |out| :: Key(canon(out[j].shard), out[j].cell) != k
    ensures forall w | w in disk.log :: !LandsAt(canon, present, w, k)
  {
    forall w | w in disk.log ensures !LandsAt(canon, present, w, k) {
      if LandsAt(canon, present, w, k) {
        var m :| 0 <= m < |disk.log| && disk.log[m] == w;
        var j := LandedBy(canon, disk, present, out, at, k, m);
      }
    }
  }

  lemma SnapSays(canon: Path -> Phys, disk: Disk, present: Path -> bool, snaps: State, k: Key)
    requires Holds(canon, disk, snaps) && forall w | w in disk.log :: !LandsAt(canon, present, w, k)
    ensures forall v :: DiskSays(canon, disk, present, k, v) <==> k in snaps && snaps[k] == v
  {
    assert forall n: nat :: !Newest(canon, disk, present, k, n);
    forall sk | sk in disk.dirs && canon(sk) == k.phys ensures At(snaps, k) == At(disk.dirs[sk], k.cell) {
      assert k == Key(canon(sk), k.cell);
    }
    if k in snaps {
      var sk :| sk in disk.dirs && canon(sk) == k.phys;
      assert At(snaps, k) == At(disk.dirs[sk], k.cell);
    }
    forall v ensures DiskSays(canon, disk, present, k, v) <==> k in snaps && snaps[k] == v {
      if DiskSays(canon, disk, present, k, v) {
        var sk :| sk in disk.dirs && canon(sk) == k.phys && k.cell in disk.dirs[sk] && disk.dirs[sk][k.cell] == v;
        assert At(snaps, k) == At(disk.dirs[sk], k.cell);
      }
    }
  }
}
