/** A reference as the ledger performs it (pkg/manifest/ledger.go, pkg/collect/env.go):
    its reads and its write, with the workers' records between them, are a stretch
    of the runs over which recovered gates are backed. */
module GateCalls {
  import opened Statuses
  import opened Records
  import opened Books
  import opened Ledgers
  import opened GateDurability
  import Gates

  /** The steps lead from one instant to the other. */
  ghost predicate Arrives(canon: Path -> Phys, l: Gates.Layout, x: Instant, steps: seq<Step>, y: Instant)
    decreases |steps|, 0
  {
    if steps == [] then y == x else ArrivesBy(canon, l, x, steps[..|steps| - 1], steps[|steps| - 1], y)
  }

  ghost predicate ArrivesBy(canon: Path -> Phys, l: Gates.Layout, x: Instant, init: seq<Step>, last: Step, y: Instant)
    decreases |init|, 1
  {
    exists z :: Arrives(canon, l, x, init, z) && Steps(canon, l, z, last, y)
  }

  lemma ArrivesOne(canon: Path -> Phys, l: Gates.Layout, x: Instant, steps: seq<Step>, z: Instant, step: Step, y: Instant)
    requires Arrives(canon, l, x, steps, z) && Steps(canon, l, z, step, y)
    ensures Arrives(canon, l, x, steps + [step], y)
  {
    hide Steps;
    assert (steps + [step])[..|steps|] == steps;
    assert ArrivesBy(canon, l, x, steps, step, y);
  }

  lemma {:induction false} ArrivesAgain(canon: Path -> Phys, l: Gates.Layout, x: Instant, a: seq<Step>, y: Instant,
                                        b: seq<Step>, z: Instant)
    requires Arrives(canon, l, x, a, y) && Arrives(canon, l, y, b, z)
    ensures Arrives(canon, l, x, a + b, z)
    decreases |b|
  {
    hide Steps;
    if b == [] {
      assert a + b == a;
    } else {
      var init, last := b[..|b| - 1], b[|b| - 1];
      var m :| Arrives(canon, l, y, init, m) && Steps(canon, l, m, last, z);
      ArrivesAgain(canon, l, x, a, y, init, m);
      ArrivesOne(canon, l, x, a + init, m, last, z);
      assert a + b == a + init + [last];
    }
  }

  /** The steps of a run, appended to it, are a run. */
  lemma {:induction false} RunsOn(canon: Path -> Phys, l: Gates.Layout, states: seq<Instant>, steps: seq<Step>,
                                  more: seq<Step>, y: Instant) returns (all: seq<Instant>)
    requires IsRun(canon, l, states, steps) && Arrives(canon, l, states[|steps|], more, y)
    ensures IsRun(canon, l, all, steps + more) && all[|steps + more|] == y
    decreases |more|
  {
    hide Steps;
    if more == [] {
      all := states;
      assert steps + more == steps;
    } else {
      var init, last := more[..|more| - 1], more[|more| - 1];
      var z :| Arrives(canon, l, states[|steps|], init, z) && Steps(canon, l, z, last, y);
      var before := RunsOn(canon, l, states, steps, init, z);
      all := before + [y];
      var done := steps + init;
      assert steps + more == done + [last];
      forall i | 0 <= i < |done| + 1 ensures Steps(canon, l, all[i], (done + [last])[i], all[i + 1]) {
        if i < |done| { assert all[i] == before[i] && all[i + 1] == before[i + 1]; }
      }
    }
  }

  /** No worker records a settled gate, or a gate's status at an object's path. */
  ghost predicate Lawful(gates: Path -> bool, ws: seq<Work>) {
    forall w | w in ws && w.RecordEntry? && w.status.IsGate() :: gates(w.path) && w.status !in {ReferenceCleared, ReferenceAbsent}
  }

  ghost predicate AllLawful(gates: Path -> bool, pauses: nat -> seq<Work>) {
    forall i :: Lawful(gates, pauses(i))
  }

  /** An instant whose memory is among those its process went through. */
  ghost predicate Now(x: Instant) {
    x.past != [] && x.past[|x.past| - 1] == x.book.mem
  }

  ghost predicate Later(x: Instant, y: Instant) {
    Now(y) && x.past <= y.past
  }

  /** One worker's call is at most one step. */
  lemma OneCall(ledger: Ledger, gates: Path -> bool, x: Instant, w: Work) returns (steps: seq<Step>, y: Instant)
    requires Lawful(gates, [w]) && Now(x)
    ensures Arrives(ledger.canon, ledger.Homes(gates), x, steps, y) && Later(x, y)
    ensures AllTyped(Change(ledger.canon, x.book.mem, w))
    ensures y.book == WorkedAll(x.book, Change(ledger.canon, x.book.mem, w))
  {
    var canon, l, us := ledger.canon, ledger.Homes(gates), Change(ledger.canon, x.book.mem, w);
    if us == [] {
      return [], x;
    }
    var u := us[0];
    assert us == [u] && w in [w];
    ledger.WorkedOnce(x.book, u);
    y := Goes(x, Worked(x.book, u.key, u.val));
    var step := if w.RecordEntry? then Record(w.path, w.status, w.terminal) else Flag(u.key, u.val);
    assert Steps(canon, l, x, step, y) by { hide Worked; }
    steps := [step];
    assert Arrives(canon, l, x, [], x);
    hide Steps, Worked;
    ArrivesOne(canon, l, x, [], x, step, y);
    assert [] + [step] == [step];
  }

  lemma {:induction false} SomeCalls(ledger: Ledger, gates: Path -> bool, x: Instant, ws: seq<Work>)
    returns (steps: seq<Step>, y: Instant)
    requires Lawful(gates, ws) && Now(x)
    ensures Arrives(ledger.canon, ledger.Homes(gates), x, steps, y) && Later(x, y)
    ensures y.book == WorkedAll(x.book, Changes(ledger.canon, x.book.mem, ws))
    ensures y.book.mem == Replay(x.book.mem, Changes(ledger.canon, x.book.mem, ws))
    decreases |ws|
  {
    hide Steps;
    if ws == [] {
      steps, y := [], x;
    } else {
      var init, w := ws[..|ws| - 1], ws[|ws| - 1];
      var before, z := SomeCalls(ledger, gates, x, init);
      var us := Changes(ledger.canon, x.book.mem, init);
      var after;
      after, y := OneCall(ledger, gates, z, w);
      var more := Change(ledger.canon, z.book.mem, w);
      steps := before + after;
      ArrivesAgain(ledger.canon, ledger.Homes(gates), x, before, z, after, y);
      ledger.WorkedOn(x.book, us, more);
      ledger.WorkedMemory(x.book, us + more);
    }
  }

  /** Every moment a survey reads at is a memory the process went through. */
  ghost predicate Passed(past: seq<State>, moments: seq<State>) {
    forall i | 0 <= i < |moments| :: moments[i] in past
  }

  lemma NoPauses(ledger: Ledger, gates: Path -> bool, x: Instant, pauses: nat -> seq<Work>)
    requires Now(x)
    ensures Arrives(ledger.canon, ledger.Homes(gates), x, [], x) && Later(x, x)
    ensures Meanwhile(ledger.canon, x.book.mem, pauses, 0) == [] && WorkedAll(x.book, []) == x.book
    ensures Replay(x.book.mem, []) == x.book.mem && Passed(x.past, Moments(ledger.canon, x.book.mem, pauses, 0))
  {
    hide Steps;
  }

  lemma {:induction false} SomePauses(ledger: Ledger, gates: Path -> bool, x: Instant, pauses: nat -> seq<Work>, n: nat)
    returns (steps: seq<Step>, y: Instant)
    requires AllLawful(gates, pauses) && Now(x)
    ensures Arrives(ledger.canon, ledger.Homes(gates), x, steps, y) && Later(x, y)
    ensures
      var us := Meanwhile(ledger.canon, x.book.mem, pauses, n);
      y.book == WorkedAll(x.book, us) && y.book.mem == Replay(x.book.mem, us)
    ensures Passed(y.past, Moments(ledger.canon, x.book.mem, pauses, n))
    decreases n
  {
    hide Steps, Arrives, WorkedAll, Changes, Passed, Moments, Replay;
    if n == 0 {
      NoPauses(ledger, gates, x, pauses);
      steps, y := [], x;
    } else {
      var before, z := SomePauses(ledger, gates, x, pauses, n - 1);
      var us := Meanwhile(ledger.canon, x.book.mem, pauses, n - 1);
      assert Lawful(gates, pauses(n - 1));
      var after;
      after, y := SomeCalls(ledger, gates, z, pauses(n - 1));
      var more := Changes(ledger.canon, z.book.mem, pauses(n - 1));
      steps := before + after;
      ArrivesAgain(ledger.canon, ledger.Homes(gates), x, before, z, after, y);
      ledger.WorkedOn(x.book, us, more);
      ledger.WorkedMemory(x.book, us + more);
      PassedMore(ledger, x.book.mem, pauses, n, z.past, y.past);
    }
  }

  lemma PassedMore(ledger: Ledger, m: State, pauses: nat -> seq<Work>, n: nat, was: seq<State>, past: seq<State>)
    requires n > 0 && was <= past && Passed(was, Moments(ledger.canon, m, pauses, n - 1))
    requires past != [] && past[|past| - 1] == Replay(m, Meanwhile(ledger.canon, m, pauses, n))
    ensures Passed(past, Moments(ledger.canon, m, pauses, n))
  {
    hide Meanwhile;
    var all, some := Moments(ledger.canon, m, pauses, n), Moments(ledger.canon, m, pauses, n - 1);
    forall i | 0 <= i < n ensures all[i] in past {
      if i < n - 1 { assert all[i] == some[i]; }
    }
  }

  lemma ReadFromPassed(l: Gates.Layout, moments: seq<State>, past: seq<State>, p: Path, e: Option<Entry>)
    requires Gates.ReadFrom(l, moments, p, e) && Passed(past, moments)
    ensures Gates.ReadFrom(l, past, p, e)
  {
    var i :| 0 <= i < |moments| && e == Gates.EntryAt(l, moments[i], p);
    assert moments[i] in past;
  }

  /** What `Ledger.Reference` promises of its reads, its workers and its book is a
      stretch of steps that ends in the reference. */
  lemma CallIsSteps(ledger: Ledger, gates: Path -> bool, x: Instant, gate: Path, shared: seq<Path>, retryAbsent: bool,
                    pauses: nat -> seq<Work>, again: nat -> seq<Work>, us: seq<Upsert>, sight: Gates.Sight, book: Book)
    returns (steps: seq<Step>, y: Instant)
    requires Now(x) && AllLawful(gates, pauses) && AllLawful(gates, again)
    requires gates(gate) && (forall p | p in shared :: !gates(p))
    requires Refers(ledger.canon, ledger.Homes(gates), x.book, gate, shared, retryAbsent, pauses, again, us, sight, book)
    ensures Arrives(ledger.canon, ledger.Homes(gates), x,
                    steps + [Step.Reference(gate, (set p | p in shared), sight, retryAbsent)], y)
    ensures y.book == book
  {
    var l, m, n := ledger.Homes(gates), x.book.mem, |shared|;
    var first, second, z, after;
    first, z := SomePauses(ledger, gates, x, pauses, n);
    second, after := SomePauses(ledger, gates, z, again, n);
    hide Steps, Referred, Moments, Meanwhile, AllLawful;
    var early := Meanwhile(ledger.canon, m, pauses, n);
    var late := Meanwhile(ledger.canon, z.book.mem, again, n);
    ledger.WorkedOn(x.book, early, late);
    ArrivesAgain(ledger.canon, l, x, first, z, second, after);
    steps := first + second;
    PassedOn(Moments(ledger.canon, m, pauses, n), z.past, after.past);
    forall p | p in shared
      ensures Gates.ReadFrom(l, after.past, p, sight.first[p]) && Gates.ReadFrom(l, after.past, p, sight.again[p])
    {
      ReadFromPassed(l, Moments(ledger.canon, m, pauses, n), after.past, p, sight.first[p]);
      ReadFromPassed(l, Moments(ledger.canon, z.book.mem, again, n), after.past, p, sight.again[p]);
    }
    y := Goes(after, Referred(l, after.book, gate, sight, retryAbsent));
    ReferenceStep(ledger, gates, after, gate, shared, sight, retryAbsent, y);
    ArrivesOne(ledger.canon, l, x, steps, after, Step.Reference(gate, (set p | p in shared), sight, retryAbsent), y);
  }

  lemma PassedOn(moments: seq<State>, was: seq<State>, past: seq<State>)
    requires Passed(was, moments) && was <= past
    ensures Passed(past, moments)
  {
  }

  lemma ReferenceStep(ledger: Ledger, gates: Path -> bool, x: Instant, gate: Path, shared: seq<Path>, sight: Gates.Sight,
                      retryAbsent: bool, y: Instant)
    requires gates(gate) && (forall p | p in shared :: !gates(p))
    requires sight.first.Keys == sight.again.Keys == (set p | p in shared)
    requires forall p | p in shared ::
               Gates.ReadFrom(ledger.Homes(gates), x.past, p, sight.first[p])
               && Gates.ReadFrom(ledger.Homes(gates), x.past, p, sight.again[p])
    requires y == Goes(x, Referred(ledger.Homes(gates), x.book, gate, sight, retryAbsent))
    ensures Steps(ledger.canon, ledger.Homes(gates), x, Step.Reference(gate, (set p | p in shared), sight, retryAbsent), y)
  {
    hide Referred, Gates.ReadFrom;
  }

  /** Memory is always the last one the process went through. */
  lemma {:induction false} RunNow(canon: Path -> Phys, l: Gates.Layout, states: seq<Instant>, steps: seq<Step>)
    requires IsRun(canon, l, states, steps)
    ensures Now(states[|steps|])
    decreases |steps|
  {
    if steps != [] {
      var n := |steps| - 1;
      var x, y := states[n], states[n + 1];
      RunNow(canon, l, states[..n + 1], steps[..n]);
      hide IsRun;
      StepNow(canon, l, x, steps[n], y);
    }
  }

  lemma StepNow(canon: Path -> Phys, l: Gates.Layout, x: Instant, step: Step, y: Instant)
    requires Now(x) && Steps(canon, l, x, step, y)
    ensures Now(y)
  {
    hide Referred, Worked, Gates.Rewrite, Gates.Sighted;
  }

  /** So a crash at any instant after a call of `Ledger.Reference`, wherever the
      runs before had come to, recovers no settled gate without the objects it
      mirrors. */
  lemma CallBacked(ledger: Ledger, gates: Path -> bool, states: seq<Instant>, run: seq<Step>, gate: Path, shared: seq<Path>,
                   retryAbsent: bool, pauses: nat -> seq<Work>, again: nat -> seq<Work>, us: seq<Upsert>, sight: Gates.Sight,
                   book: Book, r: State, g: Path, p: Path)
    requires IsRun(ledger.canon, ledger.Homes(gates), states, run)
    requires AllLawful(gates, pauses) && AllLawful(gates, again)
    requires gates(gate) && (forall p | p in shared :: !gates(p))
    requires Refers(ledger.canon, ledger.Homes(gates), states[|run|].book, gate, shared, retryAbsent, pauses, again, us, sight,
                    book)
    requires Recoverable(ledger.canon, book, r)
    requires
      var e := Gates.EntryAt(ledger.Homes(gates), r, g);
      e.Some? && e.value.status in {ReferenceCleared, ReferenceAbsent} && p in e.value.mirrored
    ensures
      var l := ledger.Homes(gates);
      && Gates.EntryAt(l, r, p).Some?
      && Gates.EntryAt(l, r, p).value.attempts >= Gates.EntryAt(l, r, g).value.mirrored[p]
  {
    var l := ledger.Homes(gates);
    RunNow(ledger.canon, l, states, run);
    hide IsRun, Steps, Arrives, Refers;
    var more, y := CallIsSteps(ledger, gates, states[|run|], gate, shared, retryAbsent, pauses, again, us, sight, book);
    more := more + [Step.Reference(gate, (set p | p in shared), sight, retryAbsent)];
    var all := RunsOn(ledger.canon, l, states, run, more, y);
    RecoveredGatesBacked(ledger.canon, l, all, run + more, r, g, p);
  }
}
