/** The incremental walk over the crash-safe ledger: any number of runs, each
    cut short anywhere, with flushes, torn appends and crashes at any point. */
module WalkDurability {
  import opened Statuses
  import opened Records
  import opened Durability
  import opened Books
  import opened Walks
  import opened WalkSafety
  import opened Refinement

  /** Where a collection lives in the ledger. */
  datatype Home = Home(phys: Phys, prefix: Path, elem: nat -> Path)

  ghost predicate Distinct(h: Home) {
    forall e: nat, f: nat :: h.elem(e) == h.elem(f) ==> e == f
  }

  function ElemKey(h: Home, e: nat): Key {
    Key(h.phys, EntryCell(h.elem(e)))
  }

  function CompleteKey(h: Home): Key {
    Key(h.phys, CompletedCell(h.prefix))
  }

  function SettledKey(h: Home): Key {
    Key(h.phys, SettledCell(h.prefix))
  }

  predicate IsSettled(h: Home, m: State) {
    At(m, SettledKey(h)) == Some(SettledVal(true))
  }

  predicate Has(h: Home, m: State, e: nat) {
    ElemKey(h, e) in m
  }

  predicate Terminal(h: Home, m: State, e: nat) {
    Has(h, m, e) && m[ElemKey(h, e)].EntryVal? && m[ElemKey(h, e)].entry.terminal
  }

  ghost predicate ClosedState(h: Home, m: State) {
    forall e: nat | Has(h, m, e) :: Terminal(h, m, e) && forall f: nat | f < e :: Has(h, m, f)
  }

  /** A state a run may safely start from. */
  ghost predicate SoundState(h: Home, m: State) {
    IsSettled(h, m) ==> CompleteKey(h) in m && ClosedState(h, m)
  }

  /** Elements are objects, never reference gates. */
  ghost predicate NoGates(h: Home, m: State) {
    forall e: nat | Has(h, m, e) :: m[ElemKey(h, e)].EntryVal? && !m[ElemKey(h, e)].entry.status.IsGate()
  }

  /** If the durable state would let a run stop early, then either an
      unsettlement is owed to the log, or nothing new was recorded. */
  ghost predicate Guarded(h: Home, s: Sys) {
    IsSettled(h, s.image) && SettledKey(h) !in s.lead ==>
      forall e: nat | Has(h, s.mem, e) :: Has(h, s.image, e) && Terminal(h, s.mem, e)
  }

  ghost predicate Related(h: Home, s: Sys) {
    && Distinct(h) && Coherent(s)
    && NoGates(h, s.mem) && NoGates(h, s.image)
    && SoundState(h, s.mem) && SoundState(h, s.image)
    && Guarded(h, s)
  }

  // ------------------------------------------- the ledger's own steps keep it

  /** Every crash point of an append is a sound state to resume from. */
  lemma PrefixSound(h: Home, s: Sys, us: seq<Upsert>, n: nat)
    requires Related(h, s) && IsBatch(s.mem, s.dirty, s.lead, us) && n <= |us|
    ensures Related(h, Torn(s, us, n))
  {
    var r := Replay(s.image, us[..n]);
    var sk := SettledKey(h);
    TornCoherent(s, us, n);
    forall e: nat | Has(h, r, e) ensures r[ElemKey(h, e)].EntryVal? && !r[ElemKey(h, e)].entry.status.IsGate() {
      PrefixAt(s, us, n, ElemKey(h, e));
    }
    if IsSettled(h, r) {
      ReplayAt(s.image, us[..n], sk);
      if LastOf(us[..n], sk).Some? {
        SettledInPrefix(h, s, us, n);
      } else {
        SettledBefore(h, s, us, n);
      }
    }
  }

  /** A shard's completion is emitted before its settlement. */
  lemma CompletionFirst(us: seq<Upsert>, i: nat, j: nat)
    requires i < |us| && j < |us| && us[i].val == SettledVal(true) && us[j].val == CompletedVal
    requires us[i].key.phys == us[j].key.phys && InEmissionOrder(us)
    ensures j < i
  {
    assert Class(us[i].val) == Class(us[j].val) && Emission(us[j].val) < Emission(us[i].val);
  }

  /** A settlement in the prefix brings everything it vouches for. */
  lemma SettledInPrefix(h: Home, s: Sys, us: seq<Upsert>, n: nat)
    requires Related(h, s) && IsBatch(s.mem, s.dirty, s.lead, us) && n <= |us|
    requires LastOf(us[..n], SettledKey(h)) == Some(SettledVal(true))
    ensures SoundState(h, Replay(s.image, us[..n])) && Guarded(h, Torn(s, us, n))
  {
    var r := Replay(s.image, us[..n]);
    var sk, ck := SettledKey(h), CompleteKey(h);
    var i := LastOfSome(us[..n], sk);
    assert us[i] in us && Drained(s.mem, s.dirty, s.lead, us[i]);
    assert IsSettled(h, s.mem);
    forall e: nat ensures At(r, ElemKey(h, e)) == At(s.mem, ElemKey(h, e)) {
      var k := ElemKey(h, e);
      PrefixAt(s, us, n, k);
      if k in s.dirty { PrefixGuards(s, us, n, i, k); }
    }
    forall e: nat ensures Has(h, r, e) <==> Has(h, s.mem, e)
             ensures Terminal(h, r, e) <==> Terminal(h, s.mem, e) {
      assert At(r, ElemKey(h, e)) == At(s.mem, ElemKey(h, e));
    }
    PrefixAt(s, us, n, ck);
    ReplayAt(s.image, us[..n], ck);
    if ck in s.dirty {
      var j :| 0 <= j < |us| && us[j] == Upsert(ck, s.mem[ck]);
      assert Typed(ck.cell, s.mem[ck]);
      CompletionFirst(us, i, j);
      assert us[..n][j] == us[j];
      if LastOf(us[..n], ck).None? { LastOfNone(us[..n], ck); assert false; }
    }
  }

  /** A settlement older than the prefix still holds: either its withdrawal
      leads every entry the prefix could add, or nothing new was recorded. */
  lemma SettledBefore(h: Home, s: Sys, us: seq<Upsert>, n: nat)
    requires Related(h, s) && IsBatch(s.mem, s.dirty, s.lead, us) && n <= |us|
    requires LastOf(us[..n], SettledKey(h)).None? && IsSettled(h, s.image)
    ensures SoundState(h, Replay(s.image, us[..n])) && Guarded(h, Torn(s, us, n))
  {
    var r := Replay(s.image, us[..n]);
    var sk, ck := SettledKey(h), CompleteKey(h);
    PrefixAt(s, us, n, ck);
    forall e: nat ensures Has(h, r, e) <==> Has(h, s.image, e)
             ensures Has(h, r, e) ==> Terminal(h, r, e) {
      var k := ElemKey(h, e);
      PrefixAt(s, us, n, k);
      if sk in s.lead && At(r, k) != At(s.image, k) {
        var i := PrefixMoved(s, us, n, k);
        assert Typed(k.cell, s.mem[k]);
        PrefixLeads(s, us, n, i, sk);
      }
    }
  }

  lemma AckSound(h: Home, s: Sys, us: seq<Upsert>)
    requires Related(h, s) && IsBatch(s.mem, s.dirty, s.lead, us)
    ensures Related(h, Acked(s, us))
  {
    AckedCoherent(s, us);
    forall e: nat | IsSettled(h, s.mem) && Has(h, s.mem, e) ensures Terminal(h, s.mem, e) {}
  }

  // ---------------------------------------------- the walk's mutations keep it

  /** Memory agrees with the collection handle the walk reads. */
  ghost predicate Mirrors(h: Home, m: State, c: Col) {
    && (forall e: nat :: e in c.elems <==> Has(h, m, e))
    && (forall e: nat | e in c.elems ::
          m[ElemKey(h, e)].EntryVal? && m[ElemKey(h, e)].entry.status == c.elems[e].status
          && m[ElemKey(h, e)].entry.terminal == c.elems[e].terminal)
    && (c.complete <==> CompleteKey(h) in m)
    && (c.settled <==> IsSettled(h, m))
  }

  /** The ledger write behind one mutation; `entry` is what an archive records. */
  function Write(h: Home, s: Sys, op: Op, entry: Entry): Sys {
    match op
    case SetSettled(v) => Put(s, SettledKey(h), SettledVal(v))
    case MarkComplete => Put(s, CompleteKey(h), CompletedVal)
    case Archive(a) => if a.status.Some? then Put(s, ElemKey(h, a.item.id), EntryVal(entry)) else s
  }

  predicate Writes(op: Op, entry: Entry) {
    op.Archive? && op.done.status.Some? ==>
      entry.status == op.done.status.value && entry.terminal == op.done.item.terminal
  }

  lemma WriteRelated(h: Home, s: Sys, c: Col, op: Op, entry: Entry)
    requires Related(h, s) && Mirrors(h, s.mem, c) && OpOk(c, op) && Writes(op, entry)
    ensures Related(h, Write(h, s, op, entry)) && Mirrors(h, Write(h, s, op, entry).mem, Apply(c, op))
  {
    match op
    case SetSettled(v) =>
      if v { MirrorClosed(h, s.mem, c); }
      FlagRelated(h, s, SettledKey(h), SettledVal(v));
      FlagMirrors(h, s.mem, c, op, SettledKey(h), SettledVal(v));
    case MarkComplete =>
      FlagRelated(h, s, CompleteKey(h), CompletedVal);
      FlagMirrors(h, s.mem, c, op, CompleteKey(h), CompletedVal);
    case Archive(a) =>
      if a.status.Some? {
        ArchiveRelated(h, s, a.item.id, entry);
        ArchiveMirrors(h, s.mem, c, a, entry);
      }
  }

  lemma FlagRelated(h: Home, s: Sys, k: Key, v: Value)
    requires Related(h, s)
    requires (k == SettledKey(h) && v == SettledVal(true) && CompleteKey(h) in s.mem && ClosedState(h, s.mem))
             || (k == SettledKey(h) && v == SettledVal(false))
             || (k == CompleteKey(h) && v == CompletedVal)
    ensures Related(h, Put(s, k, v))
  {
    PutCoherent(s, k, v);
    SameElems(h, s.mem, Put(s, k, v).mem);
  }

  lemma FlagMirrors(h: Home, m: State, c: Col, op: Op, k: Key, v: Value)
    requires Mirrors(h, m, c)
    requires (op.SetSettled? && k == SettledKey(h) && v == SettledVal(op.value))
             || (op == MarkComplete && k == CompleteKey(h) && v == CompletedVal)
    ensures Mirrors(h, m[k := v], Apply(c, op))
  {
    SameElems(h, m, m[k := v]);
  }

  /** Writing no element keeps what is recorded and what is terminal. */
  lemma SameElems(h: Home, m: State, m': State)
    requires forall e: nat :: At(m', ElemKey(h, e)) == At(m, ElemKey(h, e))
    ensures forall e: nat :: Has(h, m', e) <==> Has(h, m, e)
    ensures forall e: nat :: Terminal(h, m', e) <==> Terminal(h, m, e)
    ensures forall e: nat | Has(h, m, e) && Has(h, m', e) :: m'[ElemKey(h, e)] == m[ElemKey(h, e)]
    ensures ClosedState(h, m) <==> ClosedState(h, m')
    ensures NoGates(h, m) <==> NoGates(h, m')
  {
    forall e: nat
      ensures Has(h, m', e) <==> Has(h, m, e)
      ensures Has(h, m, e) ==> m'[ElemKey(h, e)] == m[ElemKey(h, e)]
    {
      assert At(m', ElemKey(h, e)) == At(m, ElemKey(h, e));
    }
  }

  lemma MirrorClosed(h: Home, m: State, c: Col)
    requires Mirrors(h, m, c) && Closed(c)
    ensures ClosedState(h, m)
  {
    forall e: nat | Has(h, m, e) ensures Terminal(h, m, e) && forall f: nat | f < e :: Has(h, m, f) {
      assert e in c.elems;
    }
  }

  lemma ArchiveRelated(h: Home, s: Sys, id: nat, entry: Entry)
    requires Related(h, s) && !entry.status.IsGate()
    requires IsSettled(h, s.mem) ==> Has(h, s.mem, id) && entry.terminal
    ensures Related(h, Put(s, ElemKey(h, id), EntryVal(entry)))
  {
    var s' := Put(s, ElemKey(h, id), EntryVal(entry));
    PutCoherent(s, ElemKey(h, id), EntryVal(entry));
    OnlyElem(h, s.mem, id, entry);
    if IsSettled(h, s.image) && SettledKey(h) !in s.lead {
      assert Typed(SettledKey(h).cell, s.mem[SettledKey(h)]);
      assert IsSettled(h, s.mem);
    }
  }

  lemma ArchiveMirrors(h: Home, m: State, c: Col, a: Archived, entry: Entry)
    requires Distinct(h) && Mirrors(h, m, c) && a.status.Some?
    requires entry.status == a.status.value && entry.terminal == a.item.terminal
    ensures Mirrors(h, m[ElemKey(h, a.item.id) := EntryVal(entry)], Apply(c, Archive(a)))
  {
    OnlyElem(h, m, a.item.id, entry);
  }

  lemma OnlyElem(h: Home, m: State, id: nat, entry: Entry)
    requires Distinct(h)
    ensures
      var m' := m[ElemKey(h, id) := EntryVal(entry)];
      && (forall e: nat :: Has(h, m', e) <==> Has(h, m, e) || e == id)
      && (forall e: nat :: Terminal(h, m', e) <==> if e == id then entry.terminal else Terminal(h, m, e))
      && (forall e: nat | Has(h, m', e) ::
            m'[ElemKey(h, e)] == if e == id then EntryVal(entry) else m[ElemKey(h, e)])
  {
    var m' := m[ElemKey(h, id) := EntryVal(entry)];
    forall e: nat
      ensures Has(h, m', e) <==> Has(h, m, e) || e == id
      ensures Has(h, m', e) ==> m'[ElemKey(h, e)] == if e == id then EntryVal(entry) else m[ElemKey(h, e)]
    {
      assert ElemKey(h, e) == ElemKey(h, id) <==> e == id;
    }
  }

  /** A write to any cell outside the collection leaves its guard alone. */
  lemma OtherRelated(h: Home, s: Sys, c: Col, k: Key, v: Value)
    requires Related(h, s) && Mirrors(h, s.mem, c) && Typed(k.cell, v)
    requires k != SettledKey(h) && k != CompleteKey(h) && forall e: nat :: k != ElemKey(h, e)
    ensures Related(h, Put(s, k, v)) && Mirrors(h, Put(s, k, v).mem, c)
  {
    PutCoherent(s, k, v);
    SameElems(h, s.mem, Put(s, k, v).mem);
  }

  // --------------------------------------------------------------- whole runs

  /** The archiver at one instant: the ledger, the collection it mirrors, and
      the mutations the current walk still has to perform. */
  datatype Instant = Instant(book: Book, col: Col, todo: seq<Op>)

  datatype Step =
    | Begin(cfg: Config, retryAbsent: bool, script: seq<Fetch>)
    | Mutate(entry: Entry)
    | Other(key: Key, val: Value)
    | Stop
    | Held(hold: Hold)
    | Restart(gone: set<Phys>)

  /** What a load finds once some directories were deleted. */
  function Without(m: State, gone: set<Phys>): State {
    map k | k in m && k.phys !in gone :: m[k]
  }

  /** A walk may be given up at any mutation; between any two, other workers
      record, batches are drained, land or fail, snapshots and the log are
      written; and a crash at any instant leaves any whole-line prefix of the batch
      in flight for the next run to load. */
  ghost predicate Steps(canon: Path -> Phys, h: Home, x: Instant, step: Step, y: Instant) {
    match step
    case Begin(cfg, retryAbsent, script) =>
      && x.todo == [] && y.book == x.book && Mirrors(h, x.book.mem, y.col)
      && Fits(cfg, retryAbsent, y.col, script)
      && (cfg.historyCount > 0 || !StopAllowed(y.col, retryAbsent) || ServedOnce(script))
      && y.todo == WalkRun(cfg, retryAbsent, y.col, script).ops
    case Mutate(entry) =>
      && x.todo != [] && Writes(x.todo[0], entry)
      && y == Instant(Entered(h, x.book, x.todo[0], entry), Apply(x.col, x.todo[0]), x.todo[1..])
    case Other(k, v) =>
      && Typed(k.cell, v) && k != SettledKey(h) && k != CompleteKey(h) && (forall e: nat :: k != ElemKey(h, e))
      && y == x.(book := Worked(x.book, k, v))
    case Stop => y == x.(todo := [])
    case Held(hold) => !hold.Work? && Next(canon, x.book, hold, y.book) && y.col == x.col && y.todo == x.todo
    case Restart(gone) =>
      && Good(canon, y.book) && AtRest(y.book)
      && (exists r :: Recoverable(canon, x.book, r) && y.book.mem == Without(r, gone))
      && Mirrors(h, y.book.mem, y.col) && y.todo == []
  }

  /** The book after a mutation's record, if it records anything. */
  function Entered(h: Home, b: Book, op: Op, entry: Entry): Book {
    match op
    case SetSettled(v) => Worked(b, SettledKey(h), SettledVal(v))
    case MarkComplete => Worked(b, CompleteKey(h), CompletedVal)
    case Archive(a) => if a.status.Some? then Worked(b, ElemKey(h, a.item.id), EntryVal(entry)) else b
  }

  ghost predicate Safe(canon: Path -> Phys, h: Home, x: Instant) {
    && Good(canon, x.book) && Kept(canon, s => Related(h, s), x.book)
    && Mirrors(h, x.book.mem, x.col) && GoodTrace(x.col, x.todo) && SoundState(h, x.book.mem)
  }

  /** No flush and no crash breaks it. */
  lemma RelatedClosed(h: Home)
    ensures Crashproof(s => Related(h, s))
  {
    hide Related;
    forall s, us | Related(h, s) && IsBatch(s.mem, s.dirty, s.lead, us) ensures Related(h, Acked(s, us)) {
      AckSound(h, s, us);
    }
    forall s, us, n: nat | Related(h, s) && IsBatch(s.mem, s.dirty, s.lead, us) && n <= |us| ensures Related(h, Torn(s, us, n)) {
      PrefixSound(h, s, us, n);
    }
    forall s | Related(h, s) ensures Related(h, AtOnce(s.image)) {
      AtOnceSound(h, s);
    }
  }

  lemma AtOnceSound(h: Home, s: Sys)
    requires Related(h, s)
    ensures Related(h, AtOnce(s.image))
  {
  }

  /** Whichever way the append in flight ends, memory is sound. */
  lemma MemorySound(canon: Path -> Phys, h: Home, b: Book)
    requires Kept(canon, s => Related(h, s), b)
    ensures SoundState(h, b.mem)
  {
  }

  lemma MutateSafe(canon: Path -> Phys, h: Home, x: Instant, entry: Entry, y: Instant)
    requires Safe(canon, h, x) && Steps(canon, h, x, Mutate(entry), y)
    ensures Safe(canon, h, y)
  {
    hide Related, Good, SoundState;
    var op := x.todo[0];
    assert OpOk(x.col, op) && GoodTrace(y.col, y.todo);
    hide GoodTrace, OpOk;
    if op.Archive? && op.done.status.None? {
      SameMirror(h, x.book.mem, x.col, y.col);
    } else {
      var u := RecordOf(h, op, entry);
      RecordRelated(h, x.book.mem, x.col, op, entry);
      hide Mirrors, Kept, Worked;
      WorkSafe(canon, h, x, u.key, u.val);
      SomeRelated(canon, h, x.book);
    }
  }

  lemma SameMirror(h: Home, m: State, c: Col, c': Col)
    requires Mirrors(h, m, c) && c'.elems == c.elems && c'.complete == c.complete && c'.settled == c.settled
    ensures Mirrors(h, m, c')
  {
  }

  lemma RecordRelated(h: Home, mem: State, c: Col, op: Op, entry: Entry)
    requires Mirrors(h, mem, c) && OpOk(c, op) && Writes(op, entry) && !(op.Archive? && op.done.status.None?)
    ensures
      var u := RecordOf(h, op, entry);
      forall s | Related(h, s) && s.mem == mem ::
        Related(h, Put(s, u.key, u.val)) && Mirrors(h, Put(s, u.key, u.val).mem, Apply(c, op))
  {
    hide Related, Mirrors;
    var u := RecordOf(h, op, entry);
    forall s | Related(h, s) && s.mem == mem
      ensures Related(h, Put(s, u.key, u.val)) && Mirrors(h, Put(s, u.key, u.val).mem, Apply(c, op))
    {
      WriteRelated(h, s, c, op, entry);
    }
  }

  function RecordOf(h: Home, op: Op, entry: Entry): Upsert {
    match op
    case SetSettled(v) => Upsert(SettledKey(h), SettledVal(v))
    case MarkComplete => Upsert(CompleteKey(h), CompletedVal)
    case Archive(a) => Upsert(ElemKey(h, a.item.id), EntryVal(entry))
  }

  /** Some view of the book's memory is related. */
  lemma SomeRelated(canon: Path -> Phys, h: Home, b: Book)
    requires Kept(canon, s => Related(h, s), b)
    ensures exists s :: Related(h, s) && s.mem == b.mem
  {
    if b.flight.None? {
      assert Related(h, SysOf(canon, b));
    } else {
      assert Related(h, Sys(b.flight.value.mem, b.mem, b.dirty, b.lead));
    }
  }

  lemma WorkSafe(canon: Path -> Phys, h: Home, x: Instant, k: Key, v: Value)
    requires Safe(canon, h, x) && Typed(k.cell, v)
    requires forall s | Related(h, s) && s.mem == x.book.mem :: Related(h, Put(s, k, v))
    ensures Good(canon, Worked(x.book, k, v)) && Kept(canon, s => Related(h, s), Worked(x.book, k, v))
    ensures SoundState(h, Worked(x.book, k, v).mem) && Worked(x.book, k, v).mem == x.book.mem[k := v]
  {
    hide Related;
    WorkedGood(canon, x.book, k, v);
    WorkedParts(x.book, k, v);
    KeptWork(canon, s => Related(h, s), x.book, k, v);
    MemorySound(canon, h, Worked(x.book, k, v));
  }

  lemma RestartSafe(canon: Path -> Phys, h: Home, x: Instant, gone: set<Phys>, y: Instant)
    requires Safe(canon, h, x) && Steps(canon, h, x, Restart(gone), y)
    ensures Safe(canon, h, y)
  {
    RelatedClosed(h);
    var r :| Recoverable(canon, x.book, r) && y.book.mem == Without(r, gone);
    KeptRecovers(canon, s => Related(h, s), x.book, r);
    WithoutSound(h, r, gone);
    hide Related;
    RestImage(canon, y.book);
    assert SysOf(canon, y.book) == AtOnce(y.book.mem);
    MemorySound(canon, h, y.book);
  }

  lemma WithoutSound(h: Home, r: State, gone: set<Phys>)
    requires Related(h, AtOnce(r))
    ensures Related(h, AtOnce(Without(r, gone)))
  {
    var m := Without(r, gone);
    forall e: nat ensures h.phys !in gone ==> At(m, ElemKey(h, e)) == At(r, ElemKey(h, e)) {}
    if h.phys !in gone { SameElems(h, r, m); }
  }

  lemma StepSafe(canon: Path -> Phys, h: Home, x: Instant, step: Step, y: Instant)
    requires Safe(canon, h, x) && Steps(canon, h, x, step, y)
    ensures Safe(canon, h, y)
  {
    match step
    case Begin(cfg, retryAbsent, script) =>
      MirrorSound(h, x.book.mem, y.col);
      WalkGood(cfg, retryAbsent, y.col, script);
    case Mutate(entry) => MutateSafe(canon, h, x, entry, y);
    case Other(k, v) =>
      forall s | Related(h, s) && s.mem == x.book.mem
        ensures Related(h, Put(s, k, v)) && Mirrors(h, Put(s, k, v).mem, x.col)
      {
        OtherRelated(h, s, x.col, k, v);
      }
      WorkSafe(canon, h, x, k, v);
      SomeRelated(canon, h, x.book);
    case Stop =>
    case Held(hold) => HeldSafe(canon, h, x, hold, y);
    case Restart(gone) => RestartSafe(canon, h, x, gone, y);
  }

  lemma HeldSafe(canon: Path -> Phys, h: Home, x: Instant, hold: Hold, y: Instant)
    requires Safe(canon, h, x) && Steps(canon, h, x, Held(hold), y)
    ensures Safe(canon, h, y)
  {
    hide Related, Good, Mirrors;
    RelatedClosed(h);
    NextGood(canon, x.book, hold, y.book);
    KeptNext(canon, s => Related(h, s), x.book, hold, y.book);
    assert y.book.mem == x.book.mem;
  }

  lemma MirrorSound(h: Home, m: State, c: Col)
    requires Mirrors(h, m, c) && SoundState(h, m)
    ensures Sound(c)
  {
    if c.settled {
      forall e: nat | e in c.elems ensures c.elems[e].terminal && forall f: nat | f < e :: f in c.elems {
        assert Has(h, m, e) && Terminal(h, m, e);
      }
    }
  }

  /** `states` is an execution: each step leads to the next state. */
  ghost predicate IsRun(canon: Path -> Phys, h: Home, states: seq<Instant>, steps: seq<Step>) {
    && |states| == |steps| + 1 && states[0] == EMPTY
    && forall i | 0 <= i < |steps| :: Steps(canon, h, states[i], steps[i], states[i + 1])
  }

  const EMPTY := Instant(BLANK, Col(map[], map[], false, false), [])

  lemma EmptySafe(canon: Path -> Phys, h: Home)
    requires Distinct(h)
    ensures Safe(canon, h, EMPTY)
  {
    BlankGood(canon);
    assert SysOf(canon, BLANK) == AtOnce(map[]);
  }

  lemma {:induction false} RunSafe(canon: Path -> Phys, h: Home, states: seq<Instant>, steps: seq<Step>)
    requires Distinct(h) && IsRun(canon, h, states, steps)
    ensures Safe(canon, h, states[|steps|])
    decreases |steps|
  {
    hide Safe, Steps;
    if steps == [] {
      EmptySafe(canon, h);
    } else {
      var n := |steps| - 1;
      RunSafe(canon, h, states[..n + 1], steps[..n]);
      StepSafe(canon, h, states[n], steps[n], states[n + 1]);
    }
  }

  /** Early stop never strands an element.  After any execution, whatever prefix
      of the batch in flight a crash leaves, a recovered ledger that would let a
      run stop early records every element down to the oldest, each as it was
      once terminal. */
  lemma RecoveredNeverStrands(canon: Path -> Phys, h: Home, states: seq<Instant>, steps: seq<Step>, r: State)
    requires Distinct(h) && IsRun(canon, h, states, steps) && Recoverable(canon, states[|steps|].book, r)
    ensures IsSettled(h, r) ==>
              && CompleteKey(h) in r
              && forall e: nat | Has(h, r, e) :: Terminal(h, r, e) && forall f: nat | f < e :: Has(h, r, f)
  {
    RunSafe(canon, h, states, steps);
    RelatedClosed(h);
    hide Related;
    KeptRecovers(canon, s => Related(h, s), states[|steps|].book, r);
    AtOnceSettled(h, r);
  }

  lemma AtOnceSettled(h: Home, r: State)
    requires Related(h, AtOnce(r))
    ensures SoundState(h, r)
  {
  }
}
