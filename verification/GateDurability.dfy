/** Reference gates over the crash-safe ledger: any number of runs, with records
    and references between any two holds of the ledger's lock, batches landing or
    failing, and crashes at any instant. */
module GateDurability {
  import opened Statuses
  import opened Records
  import opened Durability
  import opened Books
  import opened Gates
  import opened Refinement

  datatype Step =
    | Record(path: Path, status: Status, terminal: bool)
    | Reference(gate: Path, shared: set<Path>, sight: Sight, retryAbsent: bool)
    | Flag(key: Key, val: Value)
    | Held(hold: Hold)
    | Restart

  /** The ledger, and every memory the process has gone through since it
      loaded. */
  datatype Instant = Instant(book: Book, past: seq<State>)

  function Goes(x: Instant, b: Book): Instant {
    Instant(b, x.past + [b.mem])
  }

  /** The book once a reference wrote its gate, if it had to. */
  function Referred(l: Layout, b: Book, gate: Path, sight: Sight, retryAbsent: bool): Book {
    var w := GateWrite(l, b.mem, gate, Verdict(sight, retryAbsent));
    if w.None? then b
    else Worked(b, EntryKey(l, gate), EntryVal(GateEntry(l, b.mem, gate, w.value, sight)))
  }

  ghost predicate Steps(canon: Path -> Phys, l: Layout, x: Instant, step: Step, y: Instant) {
    match step
    case Record(p, status, terminal) =>
      && (status.IsGate() ==> l.gate(p) && status !in {ReferenceCleared, ReferenceAbsent})
      && y == Goes(x, Worked(x.book, EntryKey(l, p), EntryVal(Rewrite(l, x.book.mem, p, status, terminal, map[]))))
    case Reference(gate, shared, sight, retryAbsent) =>
      && l.gate(gate) && (forall p | p in shared :: !l.gate(p)) && Sighted(l, x.past, shared, sight)
      && y == Goes(x, Referred(l, x.book, gate, sight, retryAbsent))
    case Flag(k, v) => Typed(k.cell, v) && !k.cell.EntryCell? && y == Goes(x, Worked(x.book, k, v))
    case Held(hold) => !hold.Work? && Next(canon, x.book, hold, y.book) && y.past == x.past
    case Restart => Restarts(canon, x.book, y.book) && y.past == [y.book.mem]
  }

  ghost predicate Safe(canon: Path -> Phys, l: Layout, x: Instant) {
    && Good(canon, x.book) && Kept(canon, s => GateSafe(l, s), x.book)
    && Advancing(l, x.past, x.book.mem)
  }

  /** No flush and no crash breaks it. */
  lemma SafeCrashproof(l: Layout)
    ensures Crashproof(s => GateSafe(l, s))
  {
    forall s, us | GateSafe(l, s) && IsBatch(s.mem, s.dirty, s.lead, us) ensures GateSafe(l, Acked(s, us)) {
      AckedCoherent(s, us);
    }
    forall s, us, n: nat | GateSafe(l, s) && IsBatch(s.mem, s.dirty, s.lead, us) && n <= |us| ensures GateSafe(l, Torn(s, us, n)) {
      PrefixGateSafe(l, s, us, n);
    }
    forall s | GateSafe(l, s) ensures GateSafe(l, AtOnce(s.image)) {
      AtOnceSafe(l, s);
    }
  }

  lemma AtOnceSafe(l: Layout, s: Sys)
    requires GateSafe(l, s)
    ensures GateSafe(l, AtOnce(s.image))
  {
  }

  /** A record every safe view of this memory keeps is kept by the book. */
  lemma WorkSafe(canon: Path -> Phys, l: Layout, x: Instant, k: Key, v: Value, y: Instant)
    requires Safe(canon, l, x) && Typed(k.cell, v) && y == Goes(x, Worked(x.book, k, v))
    requires forall s | GateSafe(l, s) && s.mem == x.book.mem :: GateSafe(l, Put(s, k, v))
    requires Older(l, x.book.mem, x.book.mem[k := v])
    ensures Safe(canon, l, y)
  {
    hide GateSafe;
    WorkedGood(canon, x.book, k, v);
    WorkedParts(x.book, k, v);
    KeptWork(canon, s => GateSafe(l, s), x.book, k, v);
    hide Kept, Good, Worked;
    forall i | 0 <= i < |y.past| ensures Older(l, y.past[i], y.book.mem) {
      if i < |x.past| { assert Older(l, x.past[i], x.book.mem); }
    }
  }

  lemma EntryOlder(l: Layout, m: State, p: Path, e: Entry)
    requires EntryAt(l, m, p).Some? ==> e.attempts >= EntryAt(l, m, p).value.attempts
    ensures Older(l, m, m[EntryKey(l, p) := EntryVal(e)])
  {
    forall q ensures EntryAt(l, m[EntryKey(l, p) := EntryVal(e)], q) == if q == p then Some(e) else EntryAt(l, m, q) {
      PutEntryAt(l, m, p, e, q);
    }
  }

  lemma RecordSafe(canon: Path -> Phys, l: Layout, x: Instant, p: Path, status: Status, terminal: bool, y: Instant)
    requires Safe(canon, l, x) && Steps(canon, l, x, Record(p, status, terminal), y)
    ensures Safe(canon, l, y)
  {
    var e := Rewrite(l, x.book.mem, p, status, terminal, map[]);
    EntryOlder(l, x.book.mem, p, e);
    hide GateSafe, Safe;
    forall s | GateSafe(l, s) && s.mem == x.book.mem ensures GateSafe(l, Put(s, EntryKey(l, p), EntryVal(e))) {
      RecordGateSafe(l, s, p, status, terminal);
    }
    WorkSafe(canon, l, x, EntryKey(l, p), EntryVal(e), y);
  }

  lemma ReferenceSafe(canon: Path -> Phys, l: Layout, x: Instant, gate: Path, shared: set<Path>, sight: Sight,
                      retryAbsent: bool, y: Instant)
    requires Safe(canon, l, x) && Steps(canon, l, x, Reference(gate, shared, sight, retryAbsent), y)
    ensures Safe(canon, l, y)
  {
    hide GateSafe, Good, Kept, Worked;
    var w := GateWrite(l, x.book.mem, gate, Verdict(sight, retryAbsent));
    if w.None? {
      MemoryOlder(l, x.book.mem);
    } else {
      var e := GateEntry(l, x.book.mem, gate, w.value, sight);
      EntryOlder(l, x.book.mem, gate, e);
      GateKept(l, x.book.mem, x.past, gate, shared, sight, retryAbsent, e);
      hide Safe, Verdict, GateWrite, GateEntry;
      WorkSafe(canon, l, x, EntryKey(l, gate), EntryVal(e), y);
    }
  }

  lemma MemoryOlder(l: Layout, m: State)
    ensures Older(l, m, m)
  {
  }

  lemma GateKept(l: Layout, m: State, past: seq<State>, gate: Path, shared: set<Path>, sight: Sight, retryAbsent: bool,
                 e: Entry)
    requires l.gate(gate) && (forall p | p in shared :: !l.gate(p))
    requires Advancing(l, past, m) && Sighted(l, past, shared, sight)
    requires
      var w := GateWrite(l, m, gate, Verdict(sight, retryAbsent));
      w.Some? && e == GateEntry(l, m, gate, w.value, sight)
    ensures forall s | GateSafe(l, s) && s.mem == m :: GateSafe(l, Put(s, EntryKey(l, gate), EntryVal(e)))
  {
    hide GateSafe, Verdict, GateWrite, Advancing, Sighted;
    forall s | GateSafe(l, s) && s.mem == m ensures GateSafe(l, Put(s, EntryKey(l, gate), EntryVal(e))) {
      ReferGateSafe(l, s, past, gate, shared, sight, retryAbsent);
    }
  }

  lemma FlagSafe(canon: Path -> Phys, l: Layout, x: Instant, k: Key, v: Value, y: Instant)
    requires Safe(canon, l, x) && Steps(canon, l, x, Flag(k, v), y)
    ensures Safe(canon, l, y)
  {
    hide GateSafe, Safe;
    FlagOlder(l, x.book.mem, k, v);
    forall s | GateSafe(l, s) && s.mem == x.book.mem ensures GateSafe(l, Put(s, k, v)) {
      FlagKept(l, s, k, v);
    }
    WorkSafe(canon, l, x, k, v, y);
  }

  lemma FlagOlder(l: Layout, m: State, k: Key, v: Value)
    requires !k.cell.EntryCell?
    ensures Older(l, m, m[k := v]) && forall p :: EntryAt(l, m[k := v], p) == EntryAt(l, m, p)
  {
  }

  lemma FlagKept(l: Layout, s: Sys, k: Key, v: Value)
    requires GateSafe(l, s) && Typed(k.cell, v) && !k.cell.EntryCell?
    ensures GateSafe(l, Put(s, k, v))
  {
    PutCoherent(s, k, v);
    FlagOlder(l, s.mem, k, v);
    hide EntryAt, Coherent;
  }

  lemma StepSafe(canon: Path -> Phys, l: Layout, x: Instant, step: Step, y: Instant)
    requires Safe(canon, l, x) && Steps(canon, l, x, step, y)
    ensures Safe(canon, l, y)
  {
    match step
    case Record(p, status, terminal) => RecordSafe(canon, l, x, p, status, terminal, y);
    case Reference(gate, shared, sight, retryAbsent) => ReferenceSafe(canon, l, x, gate, shared, sight, retryAbsent, y);
    case Flag(k, v) => FlagSafe(canon, l, x, k, v, y);
    case Held(hold) => HeldSafe(canon, l, x, hold, y);
    case Restart => RestartSafe(canon, l, x, y);
  }

  lemma HeldSafe(canon: Path -> Phys, l: Layout, x: Instant, hold: Hold, y: Instant)
    requires Safe(canon, l, x) && Steps(canon, l, x, Held(hold), y)
    ensures Safe(canon, l, y)
  {
    hide GateSafe, Good;
    SafeCrashproof(l);
    NextGood(canon, x.book, hold, y.book);
    KeptNext(canon, s => GateSafe(l, s), x.book, hold, y.book);
    assert y.book.mem == x.book.mem;
  }

  lemma RestartSafe(canon: Path -> Phys, l: Layout, x: Instant, y: Instant)
    requires Safe(canon, l, x) && Steps(canon, l, x, Restart, y)
    ensures Safe(canon, l, y)
  {
    hide GateSafe, Good;
    SafeCrashproof(l);
    KeptRestart(canon, s => GateSafe(l, s), x.book, y.book);
  }

  ghost predicate IsRun(canon: Path -> Phys, l: Layout, states: seq<Instant>, steps: seq<Step>) {
    && |states| == |steps| + 1 && states[0] == Instant(BLANK, [map[]])
    && forall i | 0 <= i < |steps| :: Steps(canon, l, states[i], steps[i], states[i + 1])
  }

  lemma BlankSafe(canon: Path -> Phys, l: Layout)
    ensures Safe(canon, l, Instant(BLANK, [map[]]))
  {
    BlankGood(canon);
    assert SysOf(canon, BLANK) == AtOnce(map[]);
  }

  lemma {:induction false} RunSafe(canon: Path -> Phys, l: Layout, states: seq<Instant>, steps: seq<Step>)
    requires IsRun(canon, l, states, steps)
    ensures Safe(canon, l, states[|steps|])
    decreases |steps|
  {
    hide Safe, Steps;
    if steps == [] {
      BlankSafe(canon, l);
    } else {
      var n := |steps| - 1;
      RunSafe(canon, l, states[..n + 1], steps[..n]);
      StepSafe(canon, l, states[n], steps[n], states[n + 1]);
    }
  }

  /** Gate clears never outrun their cause: whatever a crash leaves of the batch in
      flight, a recovered settled gate comes with every object it mirrored,
      recorded as it was when it was read or more recently. */
  lemma RecoveredGatesBacked(canon: Path -> Phys, l: Layout, states: seq<Instant>, steps: seq<Step>, r: State, g: Path,
                             p: Path)
    requires IsRun(canon, l, states, steps) && Recoverable(canon, states[|steps|].book, r)
    requires
      var gate := EntryAt(l, r, g);
      gate.Some? && gate.value.status in {ReferenceCleared, ReferenceAbsent} && p in gate.value.mirrored
    ensures EntryAt(l, r, p).Some? && EntryAt(l, r, p).value.attempts >= EntryAt(l, r, g).value.mirrored[p]
  {
    RunSafe(canon, l, states, steps);
    SafeCrashproof(l);
    hide GateSafe;
    KeptRecovers(canon, s => GateSafe(l, s), states[|steps|].book, r);
    AtOnceBacked(l, r);
  }

  lemma AtOnceBacked(l: Layout, r: State)
    requires GateSafe(l, AtOnce(r))
    ensures GatesBacked(l, r)
  {
  }
}
