/** The ledger as a value: its shards, its disk, and the batch between them.
    What each hold of the ledger's lock keeps (pkg/manifest/ledger.go). */
module Books {
  import opened Statuses
  import opened Records
  import opened Durability
  import opened Shards
  import opened Batches

  /** A batch between its drain and its acknowledgement: the memory it was
      drained from, each shard's drained sets, and its lines. */
  datatype Flight = Flight(mem: State, dirty: set<Key>, lead: set<Key>, work: map<Phys, Drained>, batch: seq<Rec>)

  /** `mem`, `dirty` and `lead` are what the shards together hold and owe;
      `snaps` holds every shard's snapshot and `log` the log's whole lines;
      `torn` are the cells a failed append may have left lines for. */
  datatype Book = Book(
    shards: map<Phys, ShardState>, mem: State, dirty: set<Key>, lead: set<Key>,
    snaps: State, log: seq<Rec>, flight: Option<Flight>, torn: set<Key>)

  /** What a load of the disk as it stands would see. */
  ghost function Image(canon: Path -> Phys, b: Book): State {
    Replay(b.snaps, Routed(canon, b.log))
  }

  /** Every state a crash at this instant may be recovered into: a batch in
      flight may have left any whole-line prefix. */
  ghost predicate Recoverable(canon: Path -> Phys, b: Book, r: State) {
    if b.flight.None? then r == Image(canon, b)
    else exists n :: 0 <= n <= |b.flight.value.batch| && r == Replay(Image(canon, b), Routed(canon, b.flight.value.batch)[..n])
  }

  function WorkOf(shards: map<Phys, ShardState>): map<Phys, Drained> {
    map h | h in shards && shards[h].HasDirty() :: Drained(shards[h].dirty, shards[h].unsettled)
  }

  function CellAt(shards: map<Phys, ShardState>, k: Key): Option<Value> {
    if k.phys in shards then At(shards[k.phys].cells, k.cell) else None
  }

  predicate DirtyAt(shards: map<Phys, ShardState>, k: Key) {
    k.phys in shards && k.cell in shards[k.phys].dirty
  }

  predicate LeadAt(shards: map<Phys, ShardState>, k: Key) {
    k.phys in shards && k.cell.SettledCell? && k.cell.key in shards[k.phys].unsettled
  }

  /** The shards hold and owe what the book says. */
  ghost predicate Tied(b: Book) {
    && (forall k :: At(b.mem, k) == CellAt(b.shards, k))
    && (forall k :: k in b.dirty <==> DirtyAt(b.shards, k))
    && (forall k :: k in b.lead <==> LeadAt(b.shards, k))
    && (forall h | h in b.shards :: b.shards[h].Wf())
  }

  ghost predicate Owed(mem: State, dirty: set<Key>, lead: set<Key>) {
    && WellTyped(mem)
    && dirty <= mem.Keys
    && lead <= dirty
    && (forall k | k in lead :: k.cell.SettledCell?)
    && (forall k | k in dirty && mem[k] == SettledVal(false) :: k in lead)
  }

  /** The durable state agrees with memory on everything memory does not owe. */
  ghost predicate Agrees(image: State, mem: State, dirty: set<Key>) {
    && image.Keys <= mem.Keys
    && (forall k | k in mem && k !in dirty :: k in image && image[k] == mem[k])
  }

  /** The batch in flight is what its drain owed, and memory has since changed
      only where it is dirty again. */
  ghost predicate FlightOk(canon: Path -> Phys, b: Book, f: Flight) {
    && Coherent(Sys(Image(canon, b), f.mem, f.dirty, f.lead))
    && IsBatch(f.mem, f.dirty, f.lead, Routed(canon, f.batch))
    && Agrees(f.mem, b.mem, b.dirty)
    && f.work.Keys <= b.shards.Keys
    && (forall k: Key :: k in f.dirty <==> k.phys in f.work && k.cell in f.work[k.phys].dirty)
    && (forall k: Key :: k in f.lead <==>
          k.phys in f.work && k.cell.SettledCell? && k.cell.key in f.work[k.phys].unsettled)
    && b.torn <= f.dirty
  }

  /** Memory, disk and the batch between them agree. */
  ghost predicate Durable(canon: Path -> Phys, b: Book) {
    && Owed(b.mem, b.dirty, b.lead)
    && (b.flight.None? ==> Coherent(Sys(Image(canon, b), b.mem, b.dirty, b.lead)) && b.torn <= b.dirty)
    && (b.flight.Some? ==> FlightOk(canon, b, b.flight.value))
  }

  /** Exactly the drained entries read as in flight. */
  ghost predicate InflightOk(b: Book) {
    forall k: Key | k.phys in b.shards && k.cell.EntryCell? ::
      k.cell.path in b.shards[k.phys].inflight <==> b.flight.Some? && k in b.flight.value.dirty
  }

  /** A shard that is not stale has everything the log holds for it in its
      snapshot, lines a failed append left behind excepted. */
  ghost predicate FoldOk(canon: Path -> Phys, b: Book) {
    forall k: Key | k.phys in b.shards && !b.shards[k.phys].stale && k !in b.torn ::
      At(b.snaps, k) == At(Image(canon, b), k)
  }

  ghost predicate Good(canon: Path -> Phys, b: Book) {
    Tied(b) && Durable(canon, b) && InflightOk(b) && FoldOk(canon, b)
  }

  lemma GoodTyped(canon: Path -> Phys, b: Book)
    requires Good(canon, b)
    ensures WellTyped(b.mem) && b.dirty <= b.mem.Keys
  {
  }

  lemma GoodCoherent(canon: Path -> Phys, b: Book)
    requires Good(canon, b) && b.flight.None?
    ensures Coherent(Sys(Image(canon, b), b.mem, b.dirty, b.lead))
  {
  }

  lemma GoodParts(canon: Path -> Phys, b: Book)
    requires Good(canon, b)
    ensures Tied(b) && Owed(b.mem, b.dirty, b.lead)
  {
  }

  lemma FlightParts(canon: Path -> Phys, b: Book)
    requires Good(canon, b) && b.flight.Some?
    ensures b.flight.value.work.Keys <= b.shards.Keys
  {
  }

  lemma GoodTied(canon: Path -> Phys, b: Book, k: Key)
    requires Good(canon, b)
    ensures At(b.mem, k) == CellAt(b.shards, k)
    ensures k in b.mem ==> Typed(k.cell, b.mem[k])
  {
  }

  // --------------------------------------------------- one lock hold at a time

  /** Opens an empty shard over a directory no key has reached yet. */
  function Opened(b: Book, h: Phys): Book {
    b.(shards := WithShard(b.shards, h))
  }

  function WithShard(shards: map<Phys, ShardState>, h: Phys): map<Phys, ShardState> {
    if h in shards then shards else shards[h := FRESH]
  }

  lemma OpenedGood(canon: Path -> Phys, b: Book, h: Phys)
    requires Good(canon, b) && h !in b.shards
    ensures Good(canon, Opened(b, h))
  {
    OpenedTied(b, h);
    assert Durable(canon, Opened(b, h));
    OpenedFold(canon, b, h);
  }

  lemma OpenedTied(b: Book, h: Phys)
    requires Tied(b) && h !in b.shards
    ensures Tied(Opened(b, h))
  {
    var b' := Opened(b, h);
    forall k: Key
      ensures CellAt(b'.shards, k) == CellAt(b.shards, k)
      ensures DirtyAt(b'.shards, k) <==> DirtyAt(b.shards, k)
      ensures LeadAt(b'.shards, k) <==> LeadAt(b.shards, k) {}
  }

  lemma OpenedFold(canon: Path -> Phys, b: Book, h: Phys)
    requires Good(canon, b) && h !in b.shards
    ensures FoldOk(canon, Opened(b, h)) && InflightOk(Opened(b, h))
  {
    var b' := Opened(b, h);
    assert Image(canon, b') == Image(canon, b);
    forall k: Key | k.phys == h ensures At(b.snaps, k) == At(Image(canon, b), k) {
      assert At(b.mem, k) == CellAt(b.shards, k);
      ImageInMemory(canon, b, k);
    }
    assert b.flight.Some? ==> h !in b.flight.value.work;
  }

  /** The disk never holds a cell memory does not. */
  lemma ImageInMemory(canon: Path -> Phys, b: Book, k: Key)
    requires Good(canon, b) && k !in b.mem
    ensures k !in Image(canon, b) && k !in b.snaps
  {
    ReplayAt(b.snaps, Routed(canon, b.log), k);
  }

  /** A worker's change to one cell. */
  function PutCell(b: Book, k: Key, v: Value): Book
    requires k.phys in b.shards && Typed(k.cell, v)
  {
    b.(shards := b.shards[k.phys := b.shards[k.phys].WithPut(k.cell, v)],
       mem := b.mem[k := v], dirty := b.dirty + {k},
       lead := if v == SettledVal(false) then b.lead + {k} else b.lead)
  }

  /** A worker's record, before or after a drain, never disturbs the disk. */
  lemma PutGood(canon: Path -> Phys, b: Book, k: Key, v: Value)
    requires Good(canon, b) && k.phys in b.shards && Typed(k.cell, v)
    ensures Good(canon, PutCell(b, k, v))
  {
    PutTied(b, k, v);
    PutDurable(canon, b, k, v);
    PutRest(canon, b, k, v);
    hide Tied, Durable, PutCell, InflightOk, FoldOk;
  }

  lemma PutRest(canon: Path -> Phys, b: Book, k: Key, v: Value)
    requires InflightOk(b) && FoldOk(canon, b) && k.phys in b.shards && Typed(k.cell, v)
    ensures InflightOk(PutCell(b, k, v)) && FoldOk(canon, PutCell(b, k, v))
  {
    assert Image(canon, PutCell(b, k, v)) == Image(canon, b);
    hide Image;
  }

  lemma PutDurable(canon: Path -> Phys, b: Book, k: Key, v: Value)
    requires Durable(canon, b) && k.phys in b.shards && Typed(k.cell, v)
    ensures Durable(canon, PutCell(b, k, v))
  {
    assert Image(canon, PutCell(b, k, v)) == Image(canon, b);
  }

  /** A recording worker's call: the key's shard, opened if need be, changes. */
  function Worked(b: Book, k: Key, v: Value): Book
    requires Typed(k.cell, v)
  {
    PutCell(Opened(b, k.phys), k, v)
  }

  /** The shards after one cell's change. */
  function Placed(shards: map<Phys, ShardState>, k: Key, v: Value): map<Phys, ShardState>
    requires Typed(k.cell, v)
  {
    var base := WithShard(shards, k.phys);
    base[k.phys := base[k.phys].WithPut(k.cell, v)]
  }

  /** What a worker's call does to the book: memory gains the cell, and the disk
      stays. */
  lemma WorkedParts(b: Book, k: Key, v: Value)
    requires Typed(k.cell, v)
    ensures Worked(b, k, v).shards == Placed(b.shards, k, v) && Worked(b, k, v).mem == b.mem[k := v]
    ensures Worked(b, k, v).dirty == b.dirty + {k}
    ensures
      var b' := Worked(b, k, v);
      b'.snaps == b.snaps && b'.log == b.log && b'.flight == b.flight && b'.torn == b.torn
  {
  }

  lemma WorkedGood(canon: Path -> Phys, b: Book, k: Key, v: Value)
    requires Good(canon, b) && Typed(k.cell, v)
    ensures Good(canon, Worked(b, k, v))
    ensures Image(canon, Worked(b, k, v)) == Image(canon, b)
  {
    hide Good;
    if k.phys in b.shards {
      assert Opened(b, k.phys) == b;
    } else {
      OpenedGood(canon, b, k.phys);
    }
    PutGood(canon, Opened(b, k.phys), k, v);
  }

  ghost predicate AllTyped(ws: seq<Upsert>) {
    forall w | w in ws :: Typed(w.key.cell, w.val)
  }

  /** Several workers' calls, oldest first. */
  ghost function WorkedAll(b: Book, ws: seq<Upsert>): Book
    requires AllTyped(ws)
  {
    if ws == [] then b else Worked(WorkedAll(b, ws[..|ws| - 1]), ws[|ws| - 1].key, ws[|ws| - 1].val)
  }

  /** Recording workers move memory, and nothing on disk or in flight. */
  ghost predicate Later(b: Book, b': Book) {
    && b'.snaps == b.snaps && b'.log == b.log && b'.flight == b.flight && b'.torn == b.torn
    && b.shards.Keys <= b'.shards.Keys
    && (forall h | h in b.shards :: b'.shards[h].stale == b.shards[h].stale)
  }

  lemma {:induction false} WorkedAllLater(canon: Path -> Phys, b: Book, ws: seq<Upsert>)
    requires AllTyped(ws)
    ensures Later(b, WorkedAll(b, ws)) && Image(canon, WorkedAll(b, ws)) == Image(canon, b)
    ensures WorkedAll(b, ws).mem == Replay(b.mem, ws)
    ensures ws == [] ==> WorkedAll(b, ws) == b
  {
    if ws != [] {
      var init := ws[..|ws| - 1];
      assert AllTyped(init);
      WorkedAllLater(canon, b, init);
      WorkedParts(WorkedAll(b, init), ws[|ws| - 1].key, ws[|ws| - 1].val);
    }
  }

  function KeysOf(ws: seq<Upsert>): set<Key> {
    set u | u in ws :: u.key
  }

  /** What is recorded is owed. */
  lemma {:induction false} WorkedAllOwes(b: Book, ws: seq<Upsert>)
    requires AllTyped(ws)
    ensures WorkedAll(b, ws).dirty == b.dirty + KeysOf(ws)
  {
    if ws != [] {
      var init, u := ws[..|ws| - 1], ws[|ws| - 1];
      assert AllTyped(init) && KeysOf(ws) == KeysOf(init) + {u.key} by { assert ws == init + [u]; }
      WorkedAllOwes(b, init);
      WorkedParts(WorkedAll(b, init), u.key, u.val);
    }
  }

  lemma PutTied(b: Book, k: Key, v: Value)
    requires Tied(b) && k.phys in b.shards && Typed(k.cell, v)
    ensures Tied(PutCell(b, k, v))
  {
    var b' := PutCell(b, k, v);
    forall j: Key
      ensures At(b'.mem, j) == CellAt(b'.shards, j)
      ensures j in b'.dirty <==> DirtyAt(b'.shards, j)
      ensures j in b'.lead <==> LeadAt(b'.shards, j)
    {
      assert At(b.mem, j) == CellAt(b.shards, j);
    }
    assert b'.shards[k.phys].Wf();
  }

  /** A shard's drain joins the merge of the shards drained before it. */
  lemma MergeDrain(canon: Path -> Phys, b: Book, done: set<Phys>, recs: seq<Rec>, sk: Path, more: seq<Rec>)
    requires Tied(b) && Owed(b.mem, b.dirty, b.lead) && Merged(canon, b.mem, b.dirty, b.lead, done, recs)
    requires canon(sk) in b.shards && canon(sk) !in done
    requires
      var sh := b.shards[canon(sk)];
      Emits(sh.cells, sh.dirty, sh.unsettled, sk, more)
    ensures Merged(canon, b.mem, b.dirty, b.lead, done + {canon(sk)}, recs + more)
  {
    var h := canon(sk);
    var sh := b.shards[h];
    forall c ensures Key(h, c) in b.dirty <==> c in sh.dirty {
      assert Key(h, c) in b.dirty <==> DirtyAt(b.shards, Key(h, c));
    }
    forall q ensures Key(h, SettledCell(q)) in b.lead <==> q in sh.unsettled {
      assert Key(h, SettledCell(q)) in b.lead <==> LeadAt(b.shards, Key(h, SettledCell(q)));
    }
    forall c | c in sh.dirty ensures b.mem[Key(h, c)] == sh.cells[c] {
      assert Key(h, c) in b.dirty;
      assert At(b.mem, Key(h, c)) == CellAt(b.shards, Key(h, c));
    }
    hide Tied, Merged, Emits;
    MergeShard(canon, b.mem, b.dirty, b.lead, done, recs, sk, sh.cells, sh.dirty, sh.unsettled, more);
  }

  /** A shard that owes nothing adds nothing. */
  lemma MergeIdle(canon: Path -> Phys, b: Book, done: set<Phys>, recs: seq<Rec>, h: Phys)
    requires Tied(b) && Merged(canon, b.mem, b.dirty, b.lead, done, recs)
    requires h in b.shards && (h in done || !b.shards[h].HasDirty())
    ensures Merged(canon, b.mem, b.dirty, b.lead, done + {h}, recs)
  {
    forall k: Key | k.phys == h && h !in done ensures k !in b.dirty && k !in b.lead {
      assert k in b.dirty <==> DirtyAt(b.shards, k);
      assert k in b.lead <==> LeadAt(b.shards, k);
    }
  }

  /** The drain of every dirty shard under one lock hold. */
  function AfterDrain(b: Book, batch: seq<Rec>): Book {
    b.(shards := map h | h in b.shards :: b.shards[h].AfterDrain(), dirty := {}, lead := {},
       flight := Some(Flight(b.mem, b.dirty, b.lead, WorkOf(b.shards), batch)))
  }

  lemma DrainGood(canon: Path -> Phys, b: Book, batch: seq<Rec>)
    requires Good(canon, b) && b.flight.None?
    requires IsBatch(b.mem, b.dirty, b.lead, Routed(canon, batch))
    ensures Good(canon, AfterDrain(b, batch))
  {
    hide IsBatch, Coherent;
    DrainTied(b, batch);
    DrainFlight(canon, b, batch);
    DrainFold(canon, b, batch);
  }

  lemma DrainTied(b: Book, batch: seq<Rec>)
    requires Tied(b)
    ensures Tied(AfterDrain(b, batch))
  {
    var b' := AfterDrain(b, batch);
    forall k: Key
      ensures At(b'.mem, k) == CellAt(b'.shards, k) && !DirtyAt(b'.shards, k) && !LeadAt(b'.shards, k) {
      assert CellAt(b'.shards, k) == CellAt(b.shards, k);
    }
  }

  lemma DrainFlight(canon: Path -> Phys, b: Book, batch: seq<Rec>)
    requires Tied(b) && Durable(canon, b) && InflightOk(b) && b.flight.None?
    requires IsBatch(b.mem, b.dirty, b.lead, Routed(canon, batch))
    ensures Durable(canon, AfterDrain(b, batch)) && InflightOk(AfterDrain(b, batch))
  {
    hide IsBatch, Coherent;
    var work := WorkOf(b.shards);
    forall k: Key ensures k in b.dirty <==> k.phys in work && k.cell in work[k.phys].dirty {
      assert k in b.dirty <==> DirtyAt(b.shards, k);
    }
    forall k: Key
      ensures k in b.lead <==> k.phys in work && k.cell.SettledCell? && k.cell.key in work[k.phys].unsettled
    {
      assert k in b.lead <==> LeadAt(b.shards, k);
    }
  }

  lemma DrainFold(canon: Path -> Phys, b: Book, batch: seq<Rec>)
    requires FoldOk(canon, b)
    ensures FoldOk(canon, AfterDrain(b, batch))
  {
  }

  /** The acknowledged append: the whole batch is in the log. */
  function AfterAck(b: Book): Book
    requires b.flight.Some?
  {
    var f := b.flight.value;
    b.(shards := map h | h in b.shards :: if h in f.work then b.shards[h].AfterAck(f.work[h]) else b.shards[h],
       log := b.log + f.batch, flight := None, torn := {})
  }

  lemma AckImage(canon: Path -> Phys, b: Book)
    requires Good(canon, b) && b.flight.Some?
    ensures Image(canon, AfterAck(b)) == b.flight.value.mem
  {
    var f := b.flight.value;
    RoutedConcat(canon, b.log, f.batch);
    ReplayConcat(b.snaps, Routed(canon, b.log), Routed(canon, f.batch));
    FullBatch(Sys(Image(canon, b), f.mem, f.dirty, f.lead), Routed(canon, f.batch));
  }

  lemma AckGood(canon: Path -> Phys, b: Book)
    requires Good(canon, b) && b.flight.Some?
    ensures Good(canon, AfterAck(b))
  {
    AckImage(canon, b);
    AckTied(b);
    AckInflight(canon, b);
    AckFold(canon, b);
  }

  lemma AckTied(b: Book)
    requires Tied(b) && b.flight.Some?
    ensures Tied(AfterAck(b))
  {
    var b' := AfterAck(b);
    forall k: Key
      ensures CellAt(b'.shards, k) == CellAt(b.shards, k)
      ensures DirtyAt(b'.shards, k) <==> DirtyAt(b.shards, k)
      ensures LeadAt(b'.shards, k) <==> LeadAt(b.shards, k) {}
  }

  lemma AckInflight(canon: Path -> Phys, b: Book)
    requires Good(canon, b) && b.flight.Some?
    ensures InflightOk(AfterAck(b))
  {
    var f, b' := b.flight.value, AfterAck(b);
    forall k: Key | k.phys in b'.shards && k.cell.EntryCell? ensures k.cell.path !in b'.shards[k.phys].inflight {
      assert k.cell.path in b.shards[k.phys].inflight <==> k in f.dirty;
      assert k in f.dirty <==> k.phys in f.work && k.cell in f.work[k.phys].dirty;
    }
  }

  lemma AckFold(canon: Path -> Phys, b: Book)
    requires Good(canon, b) && b.flight.Some?
    ensures FoldOk(canon, AfterAck(b))
  {
    var f, b' := b.flight.value, AfterAck(b);
    AckImage(canon, b);
    forall k: Key | k.phys in b'.shards && !b'.shards[k.phys].stale ensures At(b.snaps, k) == At(f.mem, k) {
      AckUntouched(canon, b, k);
    }
  }

  /** A shard the batch does not touch is where it was. */
  lemma AckUntouched(canon: Path -> Phys, b: Book, k: Key)
    requires Good(canon, b) && b.flight.Some?
    requires k.phys in b.shards && !b.shards[k.phys].stale && k.phys !in b.flight.value.work
    ensures At(b.snaps, k) == At(b.flight.value.mem, k)
  {
    var f := b.flight.value;
    assert k !in f.dirty;
    assert Coherent(Sys(Image(canon, b), f.mem, f.dirty, f.lead));
    assert At(b.snaps, k) == At(Image(canon, b), k);
  }

  /** The failed append: `n` of its lines stayed behind, and its cells are owed
      again. */
  function AfterRestore(b: Book, n: nat): Book
    requires b.flight.Some? && n <= |b.flight.value.batch|
  {
    var f := b.flight.value;
    b.(shards := map h | h in b.shards :: if h in f.work then b.shards[h].AfterRestore(f.work[h]) else b.shards[h],
       dirty := b.dirty + f.dirty, lead := b.lead + f.lead,
       log := b.log + f.batch[..n], flight := None, torn := f.dirty)
  }

  lemma RestoreImage(canon: Path -> Phys, b: Book, n: nat)
    requires b.flight.Some? && n <= |b.flight.value.batch|
    ensures Image(canon, AfterRestore(b, n)) == Replay(Image(canon, b), Routed(canon, b.flight.value.batch)[..n])
  {
    var f := b.flight.value;
    RoutedConcat(canon, b.log, f.batch[..n]);
    ReplayConcat(b.snaps, Routed(canon, b.log), Routed(canon, f.batch[..n]));
    assert Routed(canon, f.batch[..n]) == Routed(canon, f.batch)[..n];
  }

  lemma RestoreGood(canon: Path -> Phys, b: Book, n: nat)
    requires Good(canon, b) && b.flight.Some? && n <= |b.flight.value.batch|
    ensures Good(canon, AfterRestore(b, n))
  {
    RestoreTied(canon, b, n);
    RestoreDurable(canon, b, n);
    RestoreInflight(canon, b, n);
    RestoreFold(canon, b, n);
  }

  lemma RestoreDurable(canon: Path -> Phys, b: Book, n: nat)
    requires Good(canon, b) && b.flight.Some? && n <= |b.flight.value.batch|
    ensures Durable(canon, AfterRestore(b, n))
  {
    var f, b' := b.flight.value, AfterRestore(b, n);
    RestoreImage(canon, b, n);
    RestoreOwed(b, f.mem, f.dirty, f.lead, b.mem, b.dirty, b.lead);
    TornCoherent(Sys(Image(canon, b), f.mem, f.dirty, f.lead), Routed(canon, f.batch), n);
    assert Agrees(Image(canon, b'), f.mem, f.dirty);
    assert Agrees(Image(canon, b'), b'.mem, b'.dirty);
  }

  lemma RestoreInflight(canon: Path -> Phys, b: Book, n: nat)
    requires Good(canon, b) && b.flight.Some? && n <= |b.flight.value.batch|
    ensures InflightOk(AfterRestore(b, n))
  {
    var f, b' := b.flight.value, AfterRestore(b, n);
    forall k: Key | k.phys in b'.shards && k.cell.EntryCell? ensures k.cell.path !in b'.shards[k.phys].inflight {
      assert k.cell.path in b.shards[k.phys].inflight <==> k in f.dirty;
      assert k in f.dirty <==> k.phys in f.work && k.cell in f.work[k.phys].dirty;
    }
  }

  lemma RestoreFold(canon: Path -> Phys, b: Book, n: nat)
    requires Good(canon, b) && b.flight.Some? && n <= |b.flight.value.batch|
    ensures FoldOk(canon, AfterRestore(b, n))
  {
    var f, b' := b.flight.value, AfterRestore(b, n);
    RestoreImage(canon, b, n);
    forall k: Key | k.phys in b'.shards && !b'.shards[k.phys].stale && k !in f.dirty
      ensures At(b.snaps, k) == At(Image(canon, b'), k)
    {
      PrefixAt(Sys(Image(canon, b), f.mem, f.dirty, f.lead), Routed(canon, f.batch), n, k);
      assert At(b.snaps, k) == At(Image(canon, b), k);
    }
  }

  lemma RestoreOwed(b: Book, m0: State, d0: set<Key>, l0: set<Key>, m: State, d: set<Key>, l: set<Key>)
    requires Owed(m0, d0, l0) && Owed(m, d, l) && Agrees(m0, m, d)
    ensures Owed(m, d + d0, l + l0)
  {
  }

  lemma RestoreTied(canon: Path -> Phys, b: Book, n: nat)
    requires Good(canon, b) && b.flight.Some? && n <= |b.flight.value.batch|
    ensures Tied(AfterRestore(b, n))
  {
    var f, b' := b.flight.value, AfterRestore(b, n);
    RestoredMarks(canon, b, n);
    forall h | h in b'.shards ensures b'.shards[h].Wf() {
      if h in f.work { RestoredWf(canon, b, h); }
    }
  }

  lemma RestoredMarks(canon: Path -> Phys, b: Book, n: nat)
    requires Good(canon, b) && b.flight.Some? && n <= |b.flight.value.batch|
    ensures
      var f, b' := b.flight.value, AfterRestore(b, n);
      forall k: Key ::
        && CellAt(b'.shards, k) == CellAt(b.shards, k)
        && (DirtyAt(b'.shards, k) <==> DirtyAt(b.shards, k) || k in f.dirty)
        && (LeadAt(b'.shards, k) <==> LeadAt(b.shards, k) || k in f.lead)
  {
  }

  lemma RestoredWf(canon: Path -> Phys, b: Book, h: Phys)
    requires Good(canon, b) && b.flight.Some? && h in b.shards && h in b.flight.value.work
    ensures b.shards[h].AfterRestore(b.flight.value.work[h]).Wf()
  {
    var f, sh := b.flight.value, b.shards[h];
    var d := f.work[h];
    forall c | c in d.dirty ensures c in sh.cells && (c !in sh.dirty && sh.cells[c] == SettledVal(false) ==> c.SettledCell? && c.key in d.unsettled) {
      var k := Key(h, c);
      assert k in f.dirty && k in f.mem && k in b.mem;
      assert At(b.mem, k) == CellAt(b.shards, k);
      assert k in b.dirty <==> DirtyAt(b.shards, k);
      if c !in sh.dirty && sh.cells[c] == SettledVal(false) {
        assert f.mem[k] == SettledVal(false);
        assert k in f.lead;
      }
    }
    forall k | k in d.unsettled ensures SettledCell(k) in d.dirty {
      assert Key(h, SettledCell(k)) in f.lead;
      assert Key(h, SettledCell(k)) in f.dirty;
    }
  }

  /** A flush leaves on disk what was there and a prefix, in durability order,
      of what memory owed. */
  ghost predicate Appended(canon: Path -> Phys, b: Book, b': Book) {
    exists us, n :: PrefixOf(canon, b, b', us, n)
  }

  ghost predicate PrefixOf(canon: Path -> Phys, b: Book, b': Book, us: seq<Upsert>, n: nat) {
    IsBatch(b.mem, b.dirty, b.lead, us) && n <= |us| && Image(canon, b') == Replay(Image(canon, b), us[..n])
  }

  /** A whole append, workers recording while it is in flight: once it lands,
      memory as it was drained is durable. */
  lemma FlightLands(canon: Path -> Phys, b: Book, batch: seq<Rec>, ws: seq<Upsert>)
    requires Good(canon, b) && b.flight.None? && IsBatch(b.mem, b.dirty, b.lead, Routed(canon, batch)) && AllTyped(ws)
    requires Good(canon, WorkedAll(AfterDrain(b, batch), ws))
    ensures
      var x := WorkedAll(AfterDrain(b, batch), ws);
      && x.flight.Some? && Image(canon, AfterAck(x)) == b.mem && Appended(canon, b, AfterAck(x))
      && (ws == [] ==> AtRest(AfterAck(x)) && AfterAck(x).mem == b.mem)
  {
    hide Good, Image, IsBatch, WorkedAll, Coherent;
    var us := Routed(canon, batch);
    var x := WorkedAll(AfterDrain(b, batch), ws);
    DrainKept(canon, b, batch, ws);
    AckImage(canon, x);
    GoodCoherent(canon, b);
    FullBatch(Sys(Image(canon, b), b.mem, b.dirty, b.lead), us);
    assert us[..|us|] == us;
    assert PrefixOf(canon, b, AfterAck(x), us, |us|);
  }

  /** If it fails, `n` of its lines are, and memory still owes all it owed and what
      the workers recorded meanwhile. */
  lemma FlightFails(canon: Path -> Phys, b: Book, batch: seq<Rec>, ws: seq<Upsert>, n: nat)
    requires Good(canon, b) && b.flight.None? && IsBatch(b.mem, b.dirty, b.lead, Routed(canon, batch)) && AllTyped(ws)
    requires n <= |batch|
    ensures
      var x := WorkedAll(AfterDrain(b, batch), ws);
      && x.flight.Some? && x.flight.value.batch == batch && Appended(canon, b, AfterRestore(x, n))
      && AfterRestore(x, n).dirty == b.dirty + KeysOf(ws) && AfterRestore(x, n).mem == Replay(b.mem, ws)
  {
    hide Good, IsBatch;
    var x := WorkedAll(AfterDrain(b, batch), ws);
    DrainKept(canon, b, batch, ws);
    WorkedAllOwes(AfterDrain(b, batch), ws);
    WorkedAllLater(canon, AfterDrain(b, batch), ws);
    RestoreImage(canon, x, n);
    hide Image;
    assert PrefixOf(canon, b, AfterRestore(x, n), Routed(canon, batch), n);
  }

  lemma DrainKept(canon: Path -> Phys, b: Book, batch: seq<Rec>, ws: seq<Upsert>)
    requires AllTyped(ws)
    ensures
      var d, x := AfterDrain(b, batch), WorkedAll(AfterDrain(b, batch), ws);
      x.flight == d.flight && Image(canon, x) == Image(canon, b) && (ws == [] ==> x == d)
  {
    assert Image(canon, AfterDrain(b, batch)) == Image(canon, b);
    WorkedAllLater(canon, AfterDrain(b, batch), ws);
  }

  /** An empty batch took nothing from any shard. */
  lemma EmptyDrain(canon: Path -> Phys, b: Book, batch: seq<Rec>)
    requires Good(canon, b) && IsBatch(b.mem, b.dirty, b.lead, Routed(canon, batch)) && batch == []
    ensures WorkOf(b.shards) == map[]
  {
    assert Routed(canon, batch) == [];
    forall h | h in b.shards ensures !b.shards[h].HasDirty() {
      forall c ensures c !in b.shards[h].dirty {
        assert Key(h, c) in b.dirty <==> DirtyAt(b.shards, Key(h, c));
      }
    }
  }

  // ------------------------------------------------------------- compaction

  /** A shard as a state, under its directory. */
  function Shelved(h: Phys, cells: map<Cell, Value>): State {
    map k: Key | k in (set c | c in cells :: Key(h, c)) :: cells[k.cell]
  }

  /** One shard's snapshot replaced. */
  function Folded(snaps: State, h: Phys, doc: map<Cell, Value>): State {
    (map k | k in snaps && k.phys != h :: snaps[k]) + Shelved(h, doc)
  }

  lemma FoldedAt(snaps: State, h: Phys, doc: map<Cell, Value>, k: Key)
    ensures At(Folded(snaps, h, doc), k) == if k.phys == h then At(doc, k.cell) else At(snaps, k)
  {
    if k.phys == h && k.cell in doc { assert k == Key(h, k.cell); }
  }

  /** `doc` is what the log and the snapshots together say of one shard. */
  ghost predicate Documents(canon: Path -> Phys, b: Book, h: Phys, doc: map<Cell, Value>) {
    forall c :: At(doc, c) == At(Image(canon, b), Key(h, c))
  }

  /** A shard that owes nothing holds in memory what its disk already says, so
      the document built from it stays true while workers move memory on. */
  lemma MemoryDocuments(canon: Path -> Phys, b: Book, h: Phys)
    requires Good(canon, b) && b.flight.None? && h in b.shards && !b.shards[h].HasDirty()
    ensures Documents(canon, b, h, b.shards[h].cells)
  {
    forall c ensures At(b.shards[h].cells, c) == At(Image(canon, b), Key(h, c)) {
      var k := Key(h, c);
      assert k !in b.dirty by { assert k in b.dirty <==> DirtyAt(b.shards, k); }
      assert At(b.mem, k) == CellAt(b.shards, k);
      if k !in b.mem { ImageInMemory(canon, b, k); }
    }
  }

  /** The snapshot on disk replaced by the document. */
  function Wrote(b: Book, h: Phys, doc: map<Cell, Value>): Book {
    b.(snaps := Folded(b.snaps, h, doc))
  }

  /** Replaying the log over a fresh snapshot changes nothing: it already says
      what the log repeats. */
  lemma WroteImage(canon: Path -> Phys, b: Book, h: Phys, doc: map<Cell, Value>)
    requires Documents(canon, b, h, doc)
    ensures Image(canon, Wrote(b, h, doc)) == Image(canon, b)
  {
    var snaps := Folded(b.snaps, h, doc);
    forall k: Key ensures At(snaps, k) == At(b.snaps, k) || At(snaps, k) == At(Image(canon, b), k) {
      FoldedAt(b.snaps, h, doc, k);
    }
    ReplayOverMixedSnapshots(b.snaps, snaps, Routed(canon, b.log));
  }

  lemma WroteGood(canon: Path -> Phys, b: Book, h: Phys, doc: map<Cell, Value>)
    requires Good(canon, b) && Documents(canon, b, h, doc)
    ensures Good(canon, Wrote(b, h, doc))
  {
    WroteImage(canon, b, h, doc);
    forall k: Key ensures At(Wrote(b, h, doc).snaps, k) == if k.phys == h then At(doc, k.cell) else At(b.snaps, k) {
      FoldedAt(b.snaps, h, doc, k);
    }
  }

  /** The shard no longer trails the log. */
  function Caught(b: Book, h: Phys): Book
    requires h in b.shards
  {
    b.(shards := b.shards[h := b.shards[h].(stale := false)])
  }

  ghost predicate Snapped(canon: Path -> Phys, b: Book, h: Phys) {
    forall k: Key | k.phys == h :: At(b.snaps, k) == At(Image(canon, b), k)
  }

  lemma WroteSnapped(canon: Path -> Phys, b: Book, h: Phys, doc: map<Cell, Value>)
    requires Documents(canon, b, h, doc)
    ensures Snapped(canon, Wrote(b, h, doc), h)
  {
    WroteImage(canon, b, h, doc);
    forall k: Key | k.phys == h ensures At(Wrote(b, h, doc).snaps, k) == At(Image(canon, b), k) {
      FoldedAt(b.snaps, h, doc, k);
      assert k == Key(h, k.cell);
    }
  }

  lemma CaughtGood(canon: Path -> Phys, b: Book, h: Phys)
    requires Good(canon, b) && h in b.shards && Snapped(canon, b, h)
    ensures Good(canon, Caught(b, h)) && Image(canon, Caught(b, h)) == Image(canon, b)
    ensures Caught(b, h).mem == b.mem && Caught(b, h).shards == b.shards[h := b.shards[h].(stale := false)]
  {
    assert Image(canon, Caught(b, h)) == Image(canon, b);
    StaleTied(b, h, false);
    assert Durable(canon, Caught(b, h));
  }

  lemma StaleTied(b: Book, h: Phys, stale: bool)
    requires Tied(b) && h in b.shards
    ensures
      var b' := b.(shards := b.shards[h := b.shards[h].(stale := stale)]);
      Tied(b') && (InflightOk(b) ==> InflightOk(b'))
  {
    var b' := b.(shards := b.shards[h := b.shards[h].(stale := stale)]);
    forall k: Key
      ensures CellAt(b'.shards, k) == CellAt(b.shards, k)
      ensures DirtyAt(b'.shards, k) <==> DirtyAt(b.shards, k)
      ensures LeadAt(b'.shards, k) <==> LeadAt(b.shards, k) {}
  }

  /** A step of a fold moves nothing a recovery would see. */
  ghost predicate Folds(canon: Path -> Phys, b: Book, b': Book) {
    && b'.flight == b.flight && b'.torn == b.torn && b.shards.Keys <= b'.shards.Keys
    && Image(canon, b') == Image(canon, b)
  }

  /** Nothing was recorded meanwhile. */
  ghost predicate Still(b: Book, b': Book) {
    && b'.mem == b.mem && b'.dirty == b.dirty && b'.lead == b.lead && b'.shards.Keys == b.shards.Keys
    && forall h | h in b.shards :: b'.shards[h].HasDirty() == b.shards[h].HasDirty()
  }

  /** So far into one shard's fold, workers recording around its write. */
  ghost predicate Compacts(canon: Path -> Phys, b: Book, h: Phys, b': Book) {
    && Folds(canon, b, b') && b'.log == b.log
    && (forall g | g in b.shards && g != h :: b'.shards[g].stale == b.shards[g].stale)
  }

  lemma WorkersCompact(canon: Path -> Phys, b: Book, h: Phys, b1: Book, us: seq<Upsert>)
    requires Compacts(canon, b, h, b1) && AllTyped(us)
    ensures Compacts(canon, b, h, WorkedAll(b1, us))
    ensures us == [] && Still(b, b1) ==> Still(b, WorkedAll(b1, us))
    ensures b1.shards.Keys <= WorkedAll(b1, us).shards.Keys
    ensures forall doc | Documents(canon, b1, h, doc) :: Documents(canon, WorkedAll(b1, us), h, doc)
    ensures Snapped(canon, b1, h) ==> Snapped(canon, WorkedAll(b1, us), h)
  {
    hide Image;
    WorkedAllLater(canon, b1, us);
  }

  lemma WriteCompacts(canon: Path -> Phys, b: Book, h: Phys, b1: Book, doc: map<Cell, Value>)
    requires Compacts(canon, b, h, b1) && Documents(canon, b1, h, doc)
    ensures Compacts(canon, b, h, Wrote(b1, h, doc)) && Snapped(canon, Wrote(b1, h, doc), h)
    ensures Still(b, b1) ==> Still(b, Wrote(b1, h, doc))
    ensures Wrote(b1, h, doc).shards == b1.shards
  {
    WroteImage(canon, b1, h, doc);
    WroteSnapped(canon, b1, h, doc);
  }

  lemma CatchCompacts(canon: Path -> Phys, b: Book, h: Phys, b1: Book)
    requires Compacts(canon, b, h, b1) && h in b1.shards
    ensures Compacts(canon, b, h, Caught(b1, h))
    ensures Still(b, b1) ==> Still(b, Caught(b1, h))
  {
    assert Image(canon, Caught(b1, h)) == Image(canon, b1);
  }

  function Trailing(b: Book): set<Phys> {
    set h | h in b.shards && b.shards[h].stale
  }

  predicate Clean(b: Book) {
    forall h | h in b.shards :: !b.shards[h].stale
  }

  /** The log is removed once no shard trails it; the snapshots alone then give
      the same recovered state. */
  lemma RemoveLogGood(canon: Path -> Phys, b: Book)
    requires Good(canon, b) && b.flight.None? && b.torn == {} && Clean(b)
    ensures Good(canon, b.(log := []))
    ensures Image(canon, b.(log := [])) == Image(canon, b) == b.snaps
  {
    forall k: Key ensures At(b.snaps, k) == At(Image(canon, b), k) {
      if k.phys !in b.shards {
        assert At(b.mem, k) == CellAt(b.shards, k);
        ImageInMemory(canon, b, k);
      }
    }
    StatesEqual(b.snaps, Image(canon, b));
    assert Routed(canon, []) == [];
  }

  // ---------------------------------------------------------------- the load

  const BLANK := Book(map[], map[], {}, {}, map[], [], None, {})

  lemma BlankGood(canon: Path -> Phys)
    ensures Good(canon, BLANK) && Image(canon, BLANK) == map[]
  {
    assert Routed(canon, []) == [];
  }

  /** Nothing owed, nothing in flight: the ledger holds what its disk says. */
  predicate AtRest(b: Book) {
    b.flight.None? && b.dirty == {} && b.lead == {} && b.torn == {}
  }

  lemma RestImage(canon: Path -> Phys, b: Book)
    requires Good(canon, b) && AtRest(b)
    ensures Image(canon, b) == b.mem
  {
    forall k ensures At(Image(canon, b), k) == At(b.mem, k) {
      if k !in b.mem { ImageInMemory(canon, b, k); }
    }
    StatesEqual(Image(canon, b), b.mem);
  }

  /** A shard opened over the snapshot its directory holds. */
  function Read(b: Book, h: Phys, cells: map<Cell, Value>): Book {
    b.(shards := b.shards[h := ShardState(cells, {}, {}, {}, false)], mem := Folded(b.mem, h, cells),
       snaps := Folded(b.snaps, h, cells))
  }

  lemma ReadTied(canon: Path -> Phys, b: Book, h: Phys, cells: map<Cell, Value>)
    requires Tied(b) && AtRest(b) && h !in b.shards
    requires forall c | c in cells :: Typed(c, cells[c])
    ensures Tied(Read(b, h, cells)) && (InflightOk(b) ==> InflightOk(Read(b, h, cells)))
  {
    var b' := Read(b, h, cells);
    forall k: Key
      ensures At(b'.mem, k) == CellAt(b'.shards, k)
      ensures !DirtyAt(b'.shards, k) && !LeadAt(b'.shards, k)
    {
      FoldedAt(b.mem, h, cells, k);
      assert At(b.mem, k) == CellAt(b.shards, k);
      assert k in b.dirty <==> DirtyAt(b.shards, k);
      assert k in b.lead <==> LeadAt(b.shards, k);
    }
  }

  lemma ReadImage(canon: Path -> Phys, b: Book, h: Phys, cells: map<Cell, Value>)
    requires b.log == [] && Image(canon, b) == b.mem
    ensures Read(b, h, cells).snaps == Read(b, h, cells).mem == Image(canon, Read(b, h, cells))
  {
    assert Routed(canon, []) == [];
  }

  lemma ReadGood(canon: Path -> Phys, b: Book, h: Phys, cells: map<Cell, Value>)
    requires Good(canon, b) && AtRest(b) && b.log == [] && h !in b.shards
    requires forall c | c in cells :: Typed(c, cells[c])
    ensures Good(canon, Read(b, h, cells))
  {
    RestImage(canon, b);
    ReadTied(canon, b, h, cells);
    ReadImage(canon, b, h, cells);
    TiedTyped(Read(b, h, cells));
  }

  lemma TiedTyped(b: Book)
    requires Tied(b)
    ensures WellTyped(b.mem)
  {
    forall k | k in b.mem ensures Typed(k.cell, b.mem[k]) {
      assert At(b.mem, k) == CellAt(b.shards, k);
    }
  }

  /** One log record replayed into the shard it resolves to. */
  function Replayed(canon: Path -> Phys, b: Book, r: Rec): Book {
    var k := Key(canon(r.shard), r.cell);
    var base := WithShard(b.shards, k.phys);
    var sh := base[k.phys];
    b.(shards := base[k.phys := sh.(cells := sh.cells[r.cell := r.val], stale := true)],
       mem := b.mem[k := r.val], log := b.log + [r])
  }

  lemma ReplayedParts(canon: Path -> Phys, b: Book, r: Rec)
    ensures
      var base := WithShard(b.shards, canon(r.shard));
      && Replayed(canon, b, r).shards
         == base[canon(r.shard) := base[canon(r.shard)].(cells := base[canon(r.shard)].cells[r.cell := r.val], stale := true)]
      && Replayed(canon, b, r).log == b.log + [r] && Replayed(canon, b, r).snaps == b.snaps
      && (AtRest(b) ==> AtRest(Replayed(canon, b, r)))
  {
  }

  lemma ReplayedImage(canon: Path -> Phys, b: Book, r: Rec)
    ensures Image(canon, Replayed(canon, b, r)) == Image(canon, b)[Key(canon(r.shard), r.cell) := r.val]
  {
    RoutedConcat(canon, b.log, [r]);
    assert Routed(canon, [r]) == [Upsert(Key(canon(r.shard), r.cell), r.val)];
    assert (Routed(canon, b.log) + Routed(canon, [r]))[..|b.log|] == Routed(canon, b.log);
  }

  lemma ReplayedGood(canon: Path -> Phys, b: Book, r: Rec)
    requires Good(canon, b) && AtRest(b) && Typed(r.cell, r.val)
    ensures Good(canon, Replayed(canon, b, r))
  {
    var b' := Replayed(canon, b, r);
    ReplayedImage(canon, b, r);
    RestImage(canon, b);
    ReplayedTied(canon, b, r);
    assert Durable(canon, b');
    forall k: Key | k.phys in b'.shards && !b'.shards[k.phys].stale ensures At(b.snaps, k) == At(b'.mem, k) {
      assert k.phys in b.shards && !b.shards[k.phys].stale;
    }
  }

  lemma ReplayedTied(canon: Path -> Phys, b: Book, r: Rec)
    requires Tied(b) && InflightOk(b) && AtRest(b) && Typed(r.cell, r.val)
    ensures Tied(Replayed(canon, b, r)) && InflightOk(Replayed(canon, b, r))
  {
    var b', kr := Replayed(canon, b, r), Key(canon(r.shard), r.cell);
    forall k: Key
      ensures CellAt(b'.shards, k) == At(b'.mem, k)
      ensures !DirtyAt(b'.shards, k) && !LeadAt(b'.shards, k)
    {
      assert At(b.mem, k) == CellAt(b.shards, k);
      assert k in b.dirty <==> DirtyAt(b.shards, k);
      assert k in b.lead <==> LeadAt(b.shards, k);
      assert k == kr <==> k.phys == kr.phys && k.cell == kr.cell;
    }
    forall h | h in b'.shards ensures b'.shards[h].Wf() {
      if h != kr.phys { assert b'.shards[h] == b.shards[h]; }
      forall c ensures c !in b'.shards[h].dirty { assert !DirtyAt(b'.shards, Key(h, c)); }
      forall q ensures q !in b'.shards[h].unsettled { assert !LeadAt(b'.shards, Key(h, SettledCell(q))); }
    }
  }

  /** A shard marked for a fold. */
  function Marked(b: Book, h: Phys): Book
    requires h in b.shards
  {
    b.(shards := b.shards[h := b.shards[h].(stale := true)])
  }

  /** Two books that differ in their shards' marks at most. */
  ghost predicate SameBut(b: Book, b': Book) {
    b'.mem == b.mem && b'.log == b.log && b'.snaps == b.snaps && b'.shards.Keys == b.shards.Keys
  }

  /** Marking a shard stale only postpones the log's removal. */
  lemma StaleGood(canon: Path -> Phys, b: Book, h: Phys)
    requires Good(canon, b) && h in b.shards
    ensures Good(canon, Marked(b, h))
  {
    var b' := Marked(b, h);
    StaleTied(b, h, true);
    assert Image(canon, b') == Image(canon, b);
    assert Durable(canon, b');
  }

  // ------------------------------------------------------------ what survives

  /** A cell that is neither dirty nor in flight survives a crash at this
      instant exactly as memory holds it, whatever the crash leaves of a batch. */
  lemma SettledCellSurvives(canon: Path -> Phys, b: Book, r: State, k: Key)
    requires Good(canon, b) && Recoverable(canon, b, r)
    requires k !in b.dirty && (b.flight.Some? ==> k !in b.flight.value.dirty)
    ensures At(r, k) == At(b.mem, k)
  {
    if b.flight.Some? {
      var f := b.flight.value;
      var n :| 0 <= n <= |f.batch| && r == Replay(Image(canon, b), Routed(canon, f.batch)[..n]);
      PrefixAt(Sys(Image(canon, b), f.mem, f.dirty, f.lead), Routed(canon, f.batch), n, k);
      assert Agrees(f.mem, b.mem, b.dirty);
    }
  }

  /** A ledger with nothing owed and nothing in flight is recovered whole. */
  lemma CleanRecovery(canon: Path -> Phys, b: Book, r: State)
    requires Good(canon, b) && Recoverable(canon, b, r) && b.flight.None? && b.dirty == {}
    ensures r == b.mem
  {
    forall k ensures At(r, k) == At(b.mem, k) {
      SettledCellSurvives(canon, b, r, k);
    }
    StatesEqual(r, b.mem);
  }

  /** Reading the entry's dirty and in-flight marks decides its durability. */
  lemma MarksDecide(canon: Path -> Phys, b: Book, k: Key)
    requires Good(canon, b) && k.phys in b.shards && k.cell.EntryCell?
    ensures k in b.dirty <==> k.cell in b.shards[k.phys].dirty
    ensures (b.flight.Some? && k in b.flight.value.dirty) <==> k.cell.path in b.shards[k.phys].inflight
  {
    assert k in b.dirty <==> DirtyAt(b.shards, k);
  }
}
