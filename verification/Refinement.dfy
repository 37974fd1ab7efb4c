/** The ledger's lock holds, in any interleaving, refine a view of memory and disk
    alone: a flush takes effect at its drain, and what is recorded while it is in
    flight comes after it. */
module Refinement {
  import opened Statuses
  import opened Records
  import opened Durability
  import opened Shards
  import opened Batches
  import opened Books

  /** One hold of the ledger's lock, or one write of its files. */
  datatype Hold =
    | Work(key: Key, val: Value)
    | Drain(batch: seq<Rec>)
    | Acknowledge
    | Fail(left: nat)
    | WriteSnapshot(phys: Phys, doc: map<Cell, Value>)
    | ClearStale(phys: Phys)
    | RemoveLog

  ghost predicate Next(canon: Path -> Phys, b: Book, hold: Hold, b': Book) {
    match hold
    case Work(k, v) => Typed(k.cell, v) && b' == Worked(b, k, v)
    case Drain(batch) =>
      b.flight.None? && IsBatch(b.mem, b.dirty, b.lead, Routed(canon, batch)) && b' == AfterDrain(b, batch)
    case Acknowledge => b.flight.Some? && b' == AfterAck(b)
    case Fail(n) => b.flight.Some? && n <= |b.flight.value.batch| && b' == AfterRestore(b, n)
    case WriteSnapshot(h, doc) => b.flight.None? && Documents(canon, b, h, doc) && b' == Wrote(b, h, doc)
    case ClearStale(h) => b.flight.None? && h in b.shards && Snapped(canon, b, h) && b' == Caught(b, h)
    case RemoveLog => b.flight.None? && b.torn == {} && Clean(b) && b' == b.(log := [])
  }

  lemma NextGood(canon: Path -> Phys, b: Book, hold: Hold, b': Book)
    requires Good(canon, b) && Next(canon, b, hold, b')
    ensures Good(canon, b')
  {
    hide Good, IsBatch, Documents, Snapped, Worked, AfterAck, AfterRestore, AfterDrain, Wrote, Caught;
    match hold
    case Work(k, v) => WorkedGood(canon, b, k, v);
    case Drain(batch) => DrainGood(canon, b, batch);
    case Acknowledge => AckGood(canon, b);
    case Fail(n) => RestoreGood(canon, b, n);
    case WriteSnapshot(h, doc) => WroteGood(canon, b, h, doc);
    case ClearStale(h) => CaughtGood(canon, b, h);
    case RemoveLog => RemoveLogGood(canon, b);
  }

  /** A run of the ledger from a book at rest with its disk. */
  ghost predicate IsRun(canon: Path -> Phys, books: seq<Book>, holds: seq<Hold>) {
    && |books| == |holds| + 1 && Good(canon, books[0]) && books[0].flight.None?
    && forall i | 0 <= i < |holds| :: Next(canon, books[i], holds[i], books[i + 1])
  }

  // ----------------------------------------------------------- the simple view

  /** What a recording worker and a whole flush do to memory and disk. */
  datatype Move = Recorded(key: Key, val: Value) | FlushAcked(us: seq<Upsert>) | FlushTorn(us: seq<Upsert>, n: nat)

  function Moved(s: Sys, m: Move): Sys {
    match m
    case Recorded(k, v) => Put(s, k, v)
    case FlushAcked(us) => Acked(s, us)
    case FlushTorn(us, n) => Torn(s, us, if n <= |us| then n else |us|)
  }

  ghost predicate Legal(s: Sys, m: Move) {
    match m
    case Recorded(k, v) => Typed(k.cell, v)
    case FlushAcked(us) => IsBatch(s.mem, s.dirty, s.lead, us)
    case FlushTorn(us, n) => IsBatch(s.mem, s.dirty, s.lead, us) && n <= |us|
  }

  function Performed(s: Sys, moves: seq<Move>): Sys {
    if moves == [] then s else Moved(Performed(s, moves[..|moves| - 1]), moves[|moves| - 1])
  }

  ghost predicate AllLegal(s: Sys, moves: seq<Move>) {
    forall i | 0 <= i < |moves| :: Legal(Performed(s, moves[..i]), moves[i])
  }

  /** What the acknowledged flushes, and the lines failed ones left, made durable:
      an acknowledged flush, memory as it was when drained. */
  function DurableBy(s: Sys, moves: seq<Move>): State {
    if moves == [] then s.image
    else
      var init := moves[..|moves| - 1];
      match moves[|moves| - 1]
      case Recorded(_, _) => DurableBy(s, init)
      case FlushAcked(_) => Replay(s.mem, PutsOf(init))
      case FlushTorn(us, n) => Replay(DurableBy(s, init), us[..if n <= |us| then n else |us|])
  }

  function PutsOf(moves: seq<Move>): seq<Upsert> {
    if moves == [] then []
    else
      var init, last := PutsOf(moves[..|moves| - 1]), moves[|moves| - 1];
      if last.Recorded? then init + [Upsert(last.key, last.val)] else init
  }

  function Puts(ws: seq<Upsert>): seq<Move> {
    seq(|ws|, i requires 0 <= i < |ws| => Recorded(ws[i].key, ws[i].val))
  }

  // ------------------------------------------- what a run of holds amounts to

  /** The moves a run has made, the batch in flight, and what was recorded since
      its drain. */
  datatype Story = Story(moves: seq<Move>, flight: Option<seq<Upsert>>, since: seq<Upsert>)

  /** A record made while a batch is in flight waits for the batch; the batch
      counts, acknowledged or failed, from its drain. */
  function Told(canon: Path -> Phys, y: Story, hold: Hold): Story {
    match hold
    case Work(k, v) =>
      if y.flight.None? then y.(moves := y.moves + [Recorded(k, v)]) else y.(since := y.since + [Upsert(k, v)])
    case Drain(batch) => if y.flight.None? then Story(y.moves, Some(Routed(canon, batch)), []) else y
    case Acknowledge =>
      if y.flight.None? then y else Story(y.moves + [FlushAcked(y.flight.value)] + Puts(y.since), None, [])
    case Fail(n) =>
      if y.flight.None? then y else Story(y.moves + [FlushTorn(y.flight.value, n)] + Puts(y.since), None, [])
    case _ => y
  }

  function StoryOf(canon: Path -> Phys, holds: seq<Hold>): Story {
    if holds == [] then Story([], None, [])
    else Told(canon, StoryOf(canon, holds[..|holds| - 1]), holds[|holds| - 1])
  }

  /** Everything the workers recorded, oldest first. */
  function WorksOf(holds: seq<Hold>): seq<Upsert> {
    if holds == [] then []
    else
      var init, last := WorksOf(holds[..|holds| - 1]), holds[|holds| - 1];
      if last.Work? then init + [Upsert(last.key, last.val)] else init
  }

  lemma PutsConcat(a: seq<Move>, b: seq<Move>)
    ensures PutsOf(a + b) == PutsOf(a) + PutsOf(b)
  {
    if b == [] {
      assert a + b == a;
    } else {
      assert (a + b)[..|a + b| - 1] == a + b[..|b| - 1];
      PutsConcat(a, b[..|b| - 1]);
    }
  }

  lemma {:induction false} PutsOfPuts(ws: seq<Upsert>)
    ensures PutsOf(Puts(ws)) == ws
  {
    if ws != [] {
      PutsOfPuts(ws[..|ws| - 1]);
      assert Puts(ws)[..|ws| - 1] == Puts(ws[..|ws| - 1]);
    }
  }

  /** The moves hold exactly the workers' records, in their order. */
  lemma {:induction false} NothingInvented(canon: Path -> Phys, holds: seq<Hold>)
    ensures
      var y := StoryOf(canon, holds);
      PutsOf(y.moves) + y.since == WorksOf(holds) && (y.flight.None? ==> y.since == [])
  {
    if holds != [] {
      var x, hold := StoryOf(canon, holds[..|holds| - 1]), holds[|holds| - 1];
      NothingInvented(canon, holds[..|holds| - 1]);
      match hold
      case Work(k, v) => PutsConcat(x.moves, [Recorded(k, v)]);
      case Acknowledge => if x.flight.Some? { FlushTold(x.moves, FlushAcked(x.flight.value), x.since); }
      case Fail(n) => if x.flight.Some? { FlushTold(x.moves, FlushTorn(x.flight.value, n), x.since); }
      case _ =>
    }
  }

  lemma FlushTold(moves: seq<Move>, m: Move, since: seq<Upsert>)
    requires !m.Recorded?
    ensures PutsOf(moves + [m] + Puts(since)) == PutsOf(moves) + since
  {
    PutsConcat(moves + [m], Puts(since));
    PutsConcat(moves, [m]);
    PutsOfPuts(since);
    assert PutsOf([m]) == [] && PutsOf(moves) + [] == PutsOf(moves);
  }

  // -------------------------------------------------------------- the refinement

  ghost function SysOf(canon: Path -> Phys, b: Book): Sys {
    Sys(Image(canon, b), b.mem, b.dirty, b.lead)
  }

  /** Several workers' changes, oldest first. */
  function PutAll(s: Sys, ws: seq<Upsert>): Sys {
    if ws == [] then s else Put(PutAll(s, ws[..|ws| - 1]), ws[|ws| - 1].key, ws[|ws| - 1].val)
  }

  /** The book is where the moves lead, or where they lead and a drain and the
      records since lead on. */
  ghost predicate Tells(canon: Path -> Phys, b: Book, s: Sys, y: Story) {
    if b.flight.None? then y.flight.None? && SysOf(canon, b) == s
    else
      var f := b.flight.value;
      && y.flight == Some(Routed(canon, f.batch)) && AllTyped(y.since)
      && s == Sys(Image(canon, b), f.mem, f.dirty, f.lead)
      && SysOf(canon, b) == PutAll(Sys(Image(canon, b), f.mem, {}, {}), y.since)
  }

  /** Recorded changes neither read the disk nor forget what was owed before
      them, so they move past a flush's outcome. */
  lemma {:induction false} PutAllShift(s: Sys, image: State, dirty: set<Key>, lead: set<Key>, ws: seq<Upsert>)
    ensures
      var t := PutAll(s, ws);
      PutAll(Sys(image, s.mem, s.dirty + dirty, s.lead + lead), ws) == Sys(image, t.mem, t.dirty + dirty, t.lead + lead)
  {
    if ws != [] { PutAllShift(s, image, dirty, lead, ws[..|ws| - 1]); }
  }

  lemma AckShift(s: Sys, us: seq<Upsert>, ws: seq<Upsert>, t: Sys)
    requires Coherent(s) && IsBatch(s.mem, s.dirty, s.lead, us) && t == PutAll(Sys(s.image, s.mem, {}, {}), ws)
    ensures PutAll(Acked(s, us), ws) == Sys(s.mem, t.mem, t.dirty, t.lead)
  {
    FullBatch(s, us);
    PutAllShift(Sys(s.image, s.mem, {}, {}), s.mem, {}, {}, ws);
    hide IsBatch, Coherent, PutAll;
    assert Acked(s, us) == Sys(s.mem, s.mem, {} + {}, {} + {});
    assert t.dirty + {} == t.dirty && t.lead + {} == t.lead;
  }

  lemma FailShift(s: Sys, us: seq<Upsert>, n: nat, ws: seq<Upsert>, t: Sys)
    requires n <= |us| && t == PutAll(Sys(s.image, s.mem, {}, {}), ws)
    ensures PutAll(Torn(s, us, n), ws) == Sys(Replay(s.image, us[..n]), t.mem, t.dirty + s.dirty, t.lead + s.lead)
  {
    PutAllShift(Sys(s.image, s.mem, {}, {}), Replay(s.image, us[..n]), s.dirty, s.lead, ws);
    hide PutAll;
    assert Torn(s, us, n) == Sys(Replay(s.image, us[..n]), s.mem, {} + s.dirty, {} + s.lead);
  }

  lemma {:induction false} PerformedMore(s: Sys, moves: seq<Move>, m: Move)
    requires AllLegal(s, moves) && Legal(Performed(s, moves), m)
    ensures AllLegal(s, moves + [m]) && Performed(s, moves + [m]) == Moved(Performed(s, moves), m)
  {
    assert (moves + [m])[..|moves|] == moves;
    forall i | 0 <= i < |moves + [m]| ensures Legal(Performed(s, (moves + [m])[..i]), (moves + [m])[i]) {
      assert (moves + [m])[..i] == moves[..i];
    }
  }

  lemma {:induction false} PerformedPuts(s: Sys, moves: seq<Move>, ws: seq<Upsert>)
    requires AllLegal(s, moves) && AllTyped(ws)
    ensures AllLegal(s, moves + Puts(ws)) && Performed(s, moves + Puts(ws)) == PutAll(Performed(s, moves), ws)
  {
    if ws == [] {
      assert moves + Puts(ws) == moves;
    } else {
      var init, w := ws[..|ws| - 1], ws[|ws| - 1];
      PerformedPuts(s, moves, init);
      assert Puts(ws) == Puts(init) + [Recorded(w.key, w.val)];
      assert moves + Puts(ws) == moves + Puts(init) + [Recorded(w.key, w.val)];
      hide AllLegal;
      PerformedMore(s, moves + Puts(init), Recorded(w.key, w.val));
    }
  }

  /** One flush, then what was recorded meanwhile. */
  lemma PerformedFlush(s: Sys, moves: seq<Move>, m: Move, ws: seq<Upsert>)
    requires AllLegal(s, moves) && Legal(Performed(s, moves), m) && AllTyped(ws)
    ensures AllLegal(s, moves + [m] + Puts(ws))
    ensures Performed(s, moves + [m] + Puts(ws)) == PutAll(Moved(Performed(s, moves), m), ws)
  {
    hide AllLegal;
    PerformedMore(s, moves, m);
    PerformedPuts(s, moves + [m], ws);
  }

  lemma WorkTold(canon: Path -> Phys, b: Book, s: Sys, y: Story, k: Key, v: Value)
    requires Tells(canon, b, s, y) && Typed(k.cell, v)
    ensures Tells(canon, Worked(b, k, v), if b.flight.None? then Put(s, k, v) else s,
                  Told(canon, y, Hold.Work(k, v)))
  {
    WorkedParts(b, k, v);
    assert Image(canon, Worked(b, k, v)) == Image(canon, b);
    hide Image;
    assert (y.since + [Upsert(k, v)])[..|y.since|] == y.since;
  }

  lemma FlightBatch(canon: Path -> Phys, b: Book, s: Sys, y: Story)
    requires Good(canon, b) && b.flight.Some? && Tells(canon, b, s, y)
    ensures Coherent(s) && IsBatch(s.mem, s.dirty, s.lead, y.flight.value)
  {
  }

  lemma AckTold(canon: Path -> Phys, b: Book, s: Sys, y: Story)
    requires Good(canon, b) && b.flight.Some? && Tells(canon, b, s, y)
    ensures SysOf(canon, AfterAck(b)) == PutAll(Acked(s, y.flight.value), y.since)
  {
    FlightBatch(canon, b, s, y);
    AckImage(canon, b);
    hide Good, PutAll, IsBatch, Coherent, Image, Acked;
    AckShift(s, y.flight.value, y.since, SysOf(canon, b));
  }

  lemma FailTold(canon: Path -> Phys, b: Book, s: Sys, y: Story, n: nat)
    requires Good(canon, b) && b.flight.Some? && Tells(canon, b, s, y) && n <= |b.flight.value.batch|
    ensures n <= |y.flight.value| && SysOf(canon, AfterRestore(b, n)) == PutAll(Torn(s, y.flight.value, n), y.since)
  {
    hide Good, PutAll, IsBatch, Coherent, Image, Torn;
    RestoreImage(canon, b, n);
    FailShift(s, y.flight.value, n, y.since, SysOf(canon, b));
  }

  /** A write of the ledger's files moves nothing in the simple view. */
  lemma FilesTold(canon: Path -> Phys, b: Book, hold: Hold, b': Book)
    requires Good(canon, b) && b.flight.None? && Next(canon, b, hold, b')
    requires hold.WriteSnapshot? || hold.ClearStale? || hold.RemoveLog?
    ensures b'.flight.None? && SysOf(canon, b') == SysOf(canon, b)
  {
    hide Good, Image, Documents, Snapped;
    match hold
    case WriteSnapshot(h, doc) => WroteImage(canon, b, h, doc);
    case ClearStale(h) => CaughtGood(canon, b, h);
    case RemoveLog => RemoveLogGood(canon, b);
  }

  lemma DrainTold(canon: Path -> Phys, b: Book, batch: seq<Rec>, s: Sys, y: Story)
    requires b.flight.None? && Tells(canon, b, s, y)
    ensures Tells(canon, AfterDrain(b, batch), s, Told(canon, y, Drain(batch)))
  {
    assert Image(canon, AfterDrain(b, batch)) == Image(canon, b);
  }

  /** What holds of the story so far. */
  ghost predicate Refines(canon: Path -> Phys, b: Book, s0: Sys, y: Story) {
    AllLegal(s0, y.moves) && Tells(canon, b, Performed(s0, y.moves), y)
  }

  lemma HoldRefined(canon: Path -> Phys, b: Book, hold: Hold, b': Book, s0: Sys, y: Story)
    requires Good(canon, b) && Next(canon, b, hold, b') && Refines(canon, b, s0, y)
    ensures Refines(canon, b', s0, Told(canon, y, hold))
  {
    hide Good, PutAll, IsBatch, Documents, Snapped, AllLegal, Performed, Image, Worked, AfterAck, AfterRestore, AfterDrain;
    var s := Performed(s0, y.moves);
    match hold
    case Work(k, v) =>
      WorkTold(canon, b, s, y, k, v);
      if b.flight.None? { PerformedMore(s0, y.moves, Recorded(k, v)); }
    case Drain(batch) => DrainTold(canon, b, batch, s, y);
    case Acknowledge =>
      FlightBatch(canon, b, s, y);
      AckTold(canon, b, s, y);
      AckLanded(b);
      PerformedFlush(s0, y.moves, FlushAcked(y.flight.value), y.since);
    case Fail(n) =>
      FlightBatch(canon, b, s, y);
      FailTold(canon, b, s, y, n);
      AckLanded(b);
      PerformedFlush(s0, y.moves, FlushTorn(y.flight.value, n), y.since);
    case WriteSnapshot(_, _) => FilesTold(canon, b, hold, b');
    case ClearStale(_) => FilesTold(canon, b, hold, b');
    case RemoveLog => FilesTold(canon, b, hold, b');
  }

  lemma AckLanded(b: Book)
    requires b.flight.Some?
    ensures AfterAck(b).flight.None? && forall n: nat | n <= |b.flight.value.batch| :: AfterRestore(b, n).flight.None?
  {
  }

  /** Any interleaving of the ledger's holds is, seen from memory and disk alone,
      the run of moves its story tells, each of them legal where it is made. */
  lemma {:induction false} RunRefined(canon: Path -> Phys, books: seq<Book>, holds: seq<Hold>)
    requires IsRun(canon, books, holds)
    ensures Good(canon, books[|holds|])
    ensures Refines(canon, books[|holds|], SysOf(canon, books[0]), StoryOf(canon, holds))
    decreases |holds|
  {
    hide Next, Good, Refines, SysOf;
    if holds == [] {
      Untold(canon, books[0]);
    } else {
      var n := |holds| - 1;
      RunRefined(canon, books[..n + 1], holds[..n]);
      NextGood(canon, books[n], holds[n], books[n + 1]);
      HoldRefined(canon, books[n], holds[n], books[n + 1], SysOf(canon, books[0]), StoryOf(canon, holds[..n]));
    }
  }

  lemma Untold(canon: Path -> Phys, b: Book)
    requires b.flight.None?
    ensures Refines(canon, b, SysOf(canon, b), Story([], None, []))
  {
  }

  /** Legal moves keep memory and what is durable told. */
  lemma {:induction false} DurableIs(s: Sys, moves: seq<Move>)
    requires AllLegal(s, moves) && Coherent(s)
    ensures Coherent(Performed(s, moves))
    ensures Performed(s, moves).image == DurableBy(s, moves) && Performed(s, moves).mem == Replay(s.mem, PutsOf(moves))
  {
    if moves != [] {
      var init, last := moves[..|moves| - 1], moves[|moves| - 1];
      forall i | 0 <= i < |init| ensures Legal(Performed(s, init[..i]), init[i]) { assert init[..i] == moves[..i]; }
      DurableIs(s, init);
      var t := Performed(s, init);
      assert Legal(t, last);
      hide AllLegal, Coherent, IsBatch;
      match last
      case Recorded(k, v) =>
        PutCoherent(t, k, v);
        assert (PutsOf(init) + [Upsert(k, v)])[..|PutsOf(init)|] == PutsOf(init);
      case FlushAcked(us) => AckedCoherent(t, us);
      case FlushTorn(us, n) => TornCoherent(t, us, n);
    }
  }

  /** Ledger crash refinement.  After any interleaving of recording workers,
      drains, landed and failed appends and partial folds, memory holds what the
      workers recorded, and a crash recovers exactly memory as the last
      acknowledged flush drained it, the lines failed appends left after it, and
      some whole-line prefix of the batch in flight. */
  lemma CrashRefined(canon: Path -> Phys, books: seq<Book>, holds: seq<Hold>, r: State)
    requires IsRun(canon, books, holds)
    ensures
      var s0, y, b := SysOf(canon, books[0]), StoryOf(canon, holds), books[|holds|];
      && PutsOf(y.moves) + y.since == WorksOf(holds) && b.mem == Replay(books[0].mem, WorksOf(holds))
      && AllLegal(s0, y.moves) && (y.flight.Some? <==> b.flight.Some?)
      && (y.flight.Some? ==> Legal(Performed(s0, y.moves), FlushAcked(y.flight.value)))
      && (Recoverable(canon, b, r) <==>
            if y.flight.None? then r == DurableBy(s0, y.moves)
            else exists n :: 0 <= n <= |y.flight.value| && r == Replay(DurableBy(s0, y.moves), y.flight.value[..n]))
  {
    RunRefined(canon, books, holds);
    NothingInvented(canon, holds);
    var s0, y, b := SysOf(canon, books[0]), StoryOf(canon, holds), books[|holds|];
    GoodCoherent(canon, books[0]);
    hide IsRun;
    DurableIs(s0, y.moves);
    hide AllLegal, Coherent, IsBatch, DurableBy, Performed, Image;
    MemoryTold(canon, b, Performed(s0, y.moves), y);
    ReplayConcat(s0.mem, PutsOf(y.moves), y.since);
    if b.flight.Some? { FlightBatch(canon, b, Performed(s0, y.moves), y); }
  }

  lemma MemoryTold(canon: Path -> Phys, b: Book, s: Sys, y: Story)
    requires Tells(canon, b, s, y) && (y.flight.None? ==> y.since == [])
    ensures b.mem == Replay(s.mem, y.since) && (y.flight.Some? <==> b.flight.Some?)
    ensures b.flight.None? ==> Image(canon, b) == s.image
    ensures b.flight.Some? ==> Image(canon, b) == s.image && y.flight == Some(Routed(canon, b.flight.value.batch))
  {
    if b.flight.Some? { PutAllMem(Sys(Image(canon, b), b.flight.value.mem, {}, {}), y.since); }
  }

  lemma {:induction false} PutAllMem(s: Sys, ws: seq<Upsert>)
    ensures PutAll(s, ws).mem == Replay(s.mem, ws)
  {
    if ws != [] { PutAllMem(s, ws[..|ws| - 1]); }
  }

  // --------------------------------------- what every crash point of a run keeps

  /** A property of memory and disk that no flush and no crash breaks. */
  ghost predicate Crashproof(P: Sys -> bool) {
    && (forall s, us | P(s) && IsBatch(s.mem, s.dirty, s.lead, us) :: P(Acked(s, us)))
    && (forall s, us, n: nat | P(s) && IsBatch(s.mem, s.dirty, s.lead, us) && n <= |us| :: P(Torn(s, us, n)))
    && (forall s | P(s) :: P(AtOnce(s.image)))
  }

  /** A ledger just loaded. */
  function AtOnce(m: State): Sys {
    Sys(m, m, {}, {})
  }

  /** A record that keeps it, whatever the disk holds. */
  ghost predicate Keeps(P: Sys -> bool, mem: State, k: Key, v: Value) {
    forall s | P(s) && s.mem == mem :: P(Put(s, k, v))
  }

  /** It holds of the book; while a batch is in flight, of the drain, and of the
      book however the append ends. */
  ghost predicate Kept(canon: Path -> Phys, P: Sys -> bool, b: Book) {
    if b.flight.None? then P(SysOf(canon, b))
    else
      var f := b.flight.value;
      && P(Sys(Image(canon, b), f.mem, f.dirty, f.lead))
      && P(Sys(f.mem, b.mem, b.dirty, b.lead))
      && forall n: nat | n <= |f.batch| :: P(IfTorn(canon, b, n))
  }

  ghost function IfTorn(canon: Path -> Phys, b: Book, n: nat): Sys
    requires b.flight.Some? && n <= |b.flight.value.batch|
  {
    var f := b.flight.value;
    Sys(Replay(Image(canon, b), Routed(canon, f.batch)[..n]), b.mem, b.dirty + f.dirty, b.lead + f.lead)
  }

  lemma KeptNext(canon: Path -> Phys, P: Sys -> bool, b: Book, hold: Hold, b': Book)
    requires Crashproof(P) && Good(canon, b) && Kept(canon, P, b) && Next(canon, b, hold, b')
    requires hold.Work? ==> Keeps(P, b.mem, hold.key, hold.val)
    ensures Kept(canon, P, b')
  {
    match hold
    case Work(k, v) => KeptWork(canon, P, b, k, v);
    case Drain(batch) => KeptDrain(canon, P, b, batch);
    case Acknowledge =>
      AckImage(canon, b);
    case Fail(n) =>
      RestoreImage(canon, b, n);
      assert P(IfTorn(canon, b, n));
    case WriteSnapshot(_, _) => FilesTold(canon, b, hold, b');
    case ClearStale(_) => FilesTold(canon, b, hold, b');
    case RemoveLog => FilesTold(canon, b, hold, b');
  }

  lemma KeptWork(canon: Path -> Phys, P: Sys -> bool, b: Book, k: Key, v: Value)
    requires Kept(canon, P, b) && Keeps(P, b.mem, k, v) && Typed(k.cell, v)
    ensures Kept(canon, P, Worked(b, k, v))
  {
    var b' := Worked(b, k, v);
    WorkedParts(b, k, v);
    assert Image(canon, b') == Image(canon, b);
    if b.flight.None? {
      assert SysOf(canon, b') == Put(SysOf(canon, b), k, v);
    } else {
      var f := b.flight.value;
      var landed := Sys(f.mem, b.mem, b.dirty, b.lead);
      assert Sys(f.mem, b'.mem, b'.dirty, b'.lead) == Put(landed, k, v);
      forall n: nat | n <= |f.batch| ensures P(IfTorn(canon, b', n)) {
        assert P(IfTorn(canon, b, n));
        assert IfTorn(canon, b', n) == Put(IfTorn(canon, b, n), k, v);
      }
    }
  }

  lemma KeptDrain(canon: Path -> Phys, P: Sys -> bool, b: Book, batch: seq<Rec>)
    requires Crashproof(P) && Good(canon, b) && Kept(canon, P, b) && b.flight.None?
    requires IsBatch(b.mem, b.dirty, b.lead, Routed(canon, batch))
    ensures Kept(canon, P, AfterDrain(b, batch))
  {
    var s, us, b' := SysOf(canon, b), Routed(canon, batch), AfterDrain(b, batch);
    GoodCoherent(canon, b);
    KeptFlush(P, s, us);
    hide Good, IsBatch, Crashproof, Acked, AfterDrain, Image, Routed, Replay, WorkOf;
    DrainParts(canon, b, batch);
    forall n: nat | n <= |batch| ensures P(IfTorn(canon, b', n)) {
      assert IfTorn(canon, b', n) == Torn(s, us, n);
    }
  }

  lemma DrainParts(canon: Path -> Phys, b: Book, batch: seq<Rec>)
    ensures
      var b' := AfterDrain(b, batch);
      && b'.flight.Some? && b'.flight.value.mem == b.mem && b'.flight.value.batch == batch
      && b'.flight.value.dirty == b.dirty && b'.flight.value.lead == b.lead
      && b'.mem == b.mem && b'.dirty == {} && b'.lead == {} && Image(canon, b') == Image(canon, b)
  {
  }

  lemma KeptFlush(P: Sys -> bool, s: Sys, us: seq<Upsert>)
    requires Crashproof(P) && Coherent(s) && P(s) && IsBatch(s.mem, s.dirty, s.lead, us)
    ensures P(AtOnce(s.mem)) && forall n: nat | n <= |us| :: P(Torn(s, us, n))
  {
    AckedCoherent(s, us);
    assert P(Acked(s, us)) && Acked(s, us) == AtOnce(s.mem);
  }

  /** Whatever a crash recovers has it. */
  lemma KeptRecovers(canon: Path -> Phys, P: Sys -> bool, b: Book, r: State)
    requires Crashproof(P) && Good(canon, b) && Kept(canon, P, b) && Recoverable(canon, b, r)
    ensures P(AtOnce(r))
  {
    if b.flight.None? {
      assert P(AtOnce(SysOf(canon, b).image));
    } else {
      var f := b.flight.value;
      var s := Sys(Image(canon, b), f.mem, f.dirty, f.lead);
      var n :| 0 <= n <= |f.batch| && r == Replay(Image(canon, b), Routed(canon, f.batch)[..n]);
      assert P(Torn(s, Routed(canon, f.batch), n));
      assert P(AtOnce(Torn(s, Routed(canon, f.batch), n).image));
    }
  }

  /** A crash, and a load of what it left. */
  ghost predicate Restarts(canon: Path -> Phys, b: Book, b': Book) {
    Good(canon, b') && AtRest(b') && Recoverable(canon, b, b'.mem)
  }

  lemma KeptRestart(canon: Path -> Phys, P: Sys -> bool, b: Book, b': Book)
    requires Crashproof(P) && Good(canon, b) && Kept(canon, P, b) && Restarts(canon, b, b')
    ensures Kept(canon, P, b')
  {
    KeptRecovers(canon, P, b, b'.mem);
    RestImage(canon, b');
    assert SysOf(canon, b') == AtOnce(b'.mem);
  }

  // ----------------------------------------------------------- runs as one step

  /** The holds lead from one book to the other. */
  ghost predicate Reaches(canon: Path -> Phys, b: Book, holds: seq<Hold>, b': Book)
    decreases |holds|, 0
  {
    if holds == [] then b' == b else ReachesBy(canon, b, holds[..|holds| - 1], holds[|holds| - 1], b')
  }

  ghost predicate ReachesBy(canon: Path -> Phys, b: Book, init: seq<Hold>, last: Hold, b': Book)
    decreases |init|, 1
  {
    exists x :: Reaches(canon, b, init, x) && Next(canon, x, last, b')
  }

  lemma ReachesOne(canon: Path -> Phys, b: Book, hold: Hold, b': Book)
    requires Next(canon, b, hold, b')
    ensures Reaches(canon, b, [hold], b')
  {
    hide Next;
    assert [hold][..0] == [] && Reaches(canon, b, [], b);
  }

  lemma {:induction false} ReachesAgain(canon: Path -> Phys, a: Book, hs: seq<Hold>, b: Book, more: seq<Hold>, c: Book)
    requires Reaches(canon, a, hs, b) && Reaches(canon, b, more, c)
    ensures Reaches(canon, a, hs + more, c)
    decreases |more|
  {
    hide Next;
    if more == [] {
      assert hs + more == hs;
    } else {
      var init, last := more[..|more| - 1], more[|more| - 1];
      var x :| Reaches(canon, b, init, x) && Next(canon, x, last, c);
      ReachesAgain(canon, a, hs, b, init, x);
      assert (hs + more)[..|hs + more| - 1] == hs + init;
    }
  }

  function Works(us: seq<Upsert>): seq<Hold> {
    seq(|us|, i requires 0 <= i < |us| => Hold.Work(us[i].key, us[i].val))
  }

  lemma {:induction false} ReachesWorks(canon: Path -> Phys, b: Book, us: seq<Upsert>)
    requires AllTyped(us)
    ensures Reaches(canon, b, Works(us), WorkedAll(b, us))
    ensures WorksOf(Works(us)) == us
  {
    hide Worked;
    if us != [] {
      var init, u := us[..|us| - 1], us[|us| - 1];
      assert AllTyped(init);
      ReachesWorks(canon, b, init);
      assert Works(us)[..|us| - 1] == Works(init);
      assert Next(canon, WorkedAll(b, init), Hold.Work(u.key, u.val), WorkedAll(b, us));
    }
  }

  lemma {:induction false} WorksConcat(a: seq<Hold>, b: seq<Hold>)
    ensures WorksOf(a + b) == WorksOf(a) + WorksOf(b)
    decreases |b|
  {
    if b == [] {
      assert a + b == a;
    } else {
      assert (a + b)[..|a + b| - 1] == a + b[..|b| - 1];
      WorksConcat(a, b[..|b| - 1]);
    }
  }

  /** Memory is what the workers made of it. */
  lemma {:induction false} ReachesMemory(canon: Path -> Phys, b: Book, holds: seq<Hold>, b': Book)
    requires Reaches(canon, b, holds, b')
    ensures b'.mem == Replay(b.mem, WorksOf(holds))
    decreases |holds|
  {
    if holds != [] {
      var init, last := holds[..|holds| - 1], holds[|holds| - 1];
      var x :| Reaches(canon, b, init, x) && Next(canon, x, last, b');
      ReachesMemory(canon, b, init, x);
      if last.Work? {
        WorkedParts(x, last.key, last.val);
        var us := WorksOf(init);
        assert (us + [Upsert(last.key, last.val)])[..|us|] == us;
      }
    }
  }

  /** The books between. */
  lemma {:induction false} ReachesRun(canon: Path -> Phys, b: Book, holds: seq<Hold>, b': Book) returns (books: seq<Book>)
    requires Reaches(canon, b, holds, b') && Good(canon, b) && b.flight.None?
    ensures IsRun(canon, books, holds) && books[0] == b && books[|holds|] == b'
    decreases |holds|
  {
    hide Next, Good;
    if holds == [] {
      books := [b];
    } else {
      var init, last := holds[..|holds| - 1], holds[|holds| - 1];
      var x :| Reaches(canon, b, init, x) && Next(canon, x, last, b');
      books := ReachesRun(canon, b, init, x);
      var more := books + [b'];
      forall i | 0 <= i < |holds| ensures Next(canon, more[i], holds[i], more[i + 1]) {
        if i < |init| { assert holds[i] == init[i] && Next(canon, books[i], init[i], books[i + 1]); }
      }
      books := more;
    }
  }

  // ------------------------------------------------------------- the log's file

  /** The batch a run has drained and not closed. */
  function Pending(holds: seq<Hold>): seq<Rec> {
    if holds == [] then []
    else
      match holds[|holds| - 1]
      case Drain(batch) => batch
      case Acknowledge => []
      case Fail(_) => []
      case _ => Pending(holds[..|holds| - 1])
  }

  /** The lines of the log file after a run. */
  function Filed(lines: seq<Rec>, holds: seq<Hold>): seq<Rec> {
    if holds == [] then lines
    else
      var init := holds[..|holds| - 1];
      match holds[|holds| - 1]
      case Acknowledge => Filed(lines, init) + Pending(init)
      case Fail(n) => Filed(lines, init) + Pending(init)[..if n <= |Pending(init)| then n else |Pending(init)|]
      case RemoveLog => []
      case _ => Filed(lines, init)
  }

  lemma {:induction false} FiledConcat(lines: seq<Rec>, a: seq<Hold>, b: seq<Hold>)
    requires Pending(a) == []
    ensures Filed(lines, a + b) == Filed(Filed(lines, a), b) && Pending(a + b) == Pending(b)
    decreases |b|
  {
    if b == [] {
      assert a + b == a;
    } else {
      assert (a + b)[..|a + b| - 1] == a + b[..|b| - 1];
      FiledConcat(lines, a, b[..|b| - 1]);
    }
  }

  lemma {:induction false} FiledWorks(lines: seq<Rec>, a: seq<Hold>, us: seq<Upsert>)
    ensures Filed(lines, a + Works(us)) == Filed(lines, a) && Pending(a + Works(us)) == Pending(a)
  {
    if us == [] {
      assert a + Works(us) == a;
    } else {
      var init := us[..|us| - 1];
      assert (a + Works(us))[..|a + Works(us)| - 1] == a + Works(init);
      FiledWorks(lines, a, init);
    }
  }
}
