/** One write per object, however many collections address it
    (pkg/collect/shared.go): the first caller archives, the others wait for its
    outcome.  Each step below is one step of one call, so any order of steps is
    an interleaving. */
module SharedArchives {
  import opened Records

  datatype Error = Canceled | Failed

  /** A claim: who made it, whether its archive returned, and with what; `kept`
      records that its release found the object settled. */
  datatype Once = Once(path: Path, owner: nat, done: bool, err: Option<Error>, kept: bool)

  /** How a call returned: as claimant, on its claimant's outcome, or because its
      own context ended. */
  datatype Exit = Own(claim: nat) | Awaited(claim: nat) | GaveUp

  datatype Phase =
    | Archiving(claim: nat)
    | Releasing(claim: nat)
    | Waiting(claim: nat)
    | Returned(err: Option<Error>, exit: Exit)

  datatype Call = Call(path: Path, phase: Phase)

  /** `settled` are the paths the ledger would not fetch. */
  datatype Hall = Hall(shared: map<Path, nat>, claims: map<nat, Once>, calls: map<nat, Call>, settled: set<Path>)

  datatype Step =
    | Claim(call: nat, path: Path, id: nat)
    | Publish(call: nat, err: Option<Error>)
    | Release(call: nat)
    | Wake(call: nat)
    | GiveUp(call: nat)
    | Note(path: Path, now: bool)

  predicate Enabled(h: Hall, s: Step) {
    match s
    case Claim(c, _, k) => c !in h.calls && k !in h.claims
    case Publish(c, _) => c in h.calls && h.calls[c].phase.Archiving? && h.calls[c].phase.claim in h.claims
    case Release(c) => c in h.calls && h.calls[c].phase.Releasing? && h.calls[c].phase.claim in h.claims
    case Wake(c) =>
      && c in h.calls && h.calls[c].phase.Waiting? && h.calls[c].phase.claim in h.claims
      && h.claims[h.calls[c].phase.claim].done
    case GiveUp(c) => c in h.calls && h.calls[c].phase.Waiting?
    case Note(_, _) => true
  }

  function After(h: Hall, s: Step): Hall
    requires Enabled(h, s)
  {
    match s
    case Claim(c, p, k) =>
      if p in h.shared then h.(calls := h.calls[c := Call(p, Waiting(h.shared[p]))])
      else h.(shared := h.shared[p := k], claims := h.claims[k := Once(p, c, false, None, false)],
              calls := h.calls[c := Call(p, Archiving(k))])
    case Publish(c, err) =>
      var k := h.calls[c].phase.claim;
      h.(claims := h.claims[k := h.claims[k].(done := true, err := err)],
         calls := h.calls[c := Call(h.calls[c].path, Releasing(k))])
    case Release(c) =>
      var k, p := h.calls[c].phase.claim, h.calls[c].path;
      var keep := h.claims[k].err.None? && p in h.settled;
      h.(shared := if keep then h.shared else h.shared - {p},
         claims := if keep then h.claims[k := h.claims[k].(kept := true)] else h.claims,
         calls := h.calls[c := Call(p, Returned(h.claims[k].err, Own(k)))])
    case Wake(c) =>
      var k := h.calls[c].phase.claim;
      h.(calls := h.calls[c := Call(h.calls[c].path, Returned(h.claims[k].err, Awaited(k)))])
    case GiveUp(c) => h.(calls := h.calls[c := Call(h.calls[c].path, Returned(Some(Canceled), Exit.GaveUp))])
    case Note(p, now) => h.(settled := if now then h.settled + {p} else h.settled - {p})
  }

  // -------------------------------------------------------------- the steps

  class Env {
    var shared: map<Path, nat>
    var claims: map<nat, Once>
    var calls: map<nat, Call>
    var settled: set<Path>

    constructor ()
      ensures H() == EMPTY
    {
      shared, claims, calls, settled := map[], map[], map[], {};
    }

    function H(): Hall
      reads this
    {
      Hall(shared, claims, calls, settled)
    }

    /** A call names a path: it claims it, or joins the claim that stands. */
    method ClaimShared(c: nat, p: Path, k: nat) returns (claimed: bool)
      requires Enabled(H(), Claim(c, p, k))
      modifies this`shared, this`claims, this`calls
      ensures H() == After(old(H()), Claim(c, p, k)) && (claimed <==> p !in old(shared))
      ensures calls[c] == Call(p, if claimed then Archiving(k) else Waiting(old(shared)[p]))
    {
      claimed := p !in shared;
      if claimed {
        shared := shared[p := k];
        claims := claims[k := Once(p, c, false, None, false)];
        calls := calls[c := Call(p, Archiving(k))];
      } else {
        calls := calls[c := Call(p, Waiting(shared[p]))];
      }
    }

    /** The claimant's archive returns, and its outcome is published. */
    method PublishShared(c: nat, err: Option<Error>)
      requires Enabled(H(), Publish(c, err))
      modifies this`claims, this`calls
      ensures H() == After(old(H()), Publish(c, err))
      ensures
        var k := old(calls)[c].phase.claim;
        k in claims && claims[k].done && claims[k].err == err && calls[c] == Call(old(calls)[c].path, Releasing(k))
    {
      var k := calls[c].phase.claim;
      claims := claims[k := claims[k].(done := true, err := err)];
      calls := calls[c := Call(calls[c].path, Releasing(k))];
    }

    /** The claim is dropped unless its archive succeeded and left the object
        settled; the call returns its own outcome. */
    method ReleaseShared(c: nat)
      requires Enabled(H(), Release(c))
      modifies this`shared, this`claims, this`calls
      ensures H() == After(old(H()), Release(c))
      ensures
        var p := old(calls)[c].path;
        var once := old(claims)[old(calls)[c].phase.claim];
        && shared == (if once.err.None? && p in settled then old(shared) else old(shared) - {p})
        && calls[c].phase.Returned? && calls[c].phase.err == once.err
    {
      var k, p := calls[c].phase.claim, calls[c].path;
      if claims[k].err.None? && p in settled {
        claims := claims[k := claims[k].(kept := true)];
      } else {
        shared := shared - {p};
      }
      calls := calls[c := Call(p, Returned(claims[k].err, Own(k)))];
    }

    /** A waiter returns: its claimant has published, or its own context ended
        and the claim stands. */
    method Await(c: nat, ended: bool)
      requires Enabled(H(), if ended then GiveUp(c) else Wake(c))
      modifies this`calls
      ensures H() == After(old(H()), if ended then GiveUp(c) else Wake(c))
      ensures calls[c].phase.Returned? && calls[c].phase.err == if ended then Some(Canceled) else claims[old(calls)[c].phase.claim].err
    {
      if ended {
        calls := calls[c := Call(calls[c].path, Returned(Some(Canceled), Exit.GaveUp))];
      } else {
        var k := calls[c].phase.claim;
        calls := calls[c := Call(calls[c].path, Returned(claims[k].err, Awaited(k)))];
      }
    }
  }

  const EMPTY := Hall(map[], map[], map[], {})

  // ----------------------------------------------------------- what they keep

  /** A claim in the map is its path's, and either its call still holds it or the
      archive succeeded over a settled object. */
  ghost predicate SharedOk(h: Hall) {
    forall p | p in h.shared ::
      var k := h.shared[p];
      && k in h.claims && h.claims[k].path == p && h.claims[k].owner in h.calls
      && (h.calls[h.claims[k].owner].phase in {Archiving(k), Releasing(k)}
          || (h.claims[k].done && h.claims[k].err.None? && h.claims[k].kept
              && h.calls[h.claims[k].owner].phase == Returned(None, Own(k))))
  }

  /** A claim not published yet is held by a call that archives. */
  ghost predicate ClaimsOk(h: Hall) {
    forall k | k in h.claims && !h.claims[k].done ::
      h.claims[k].owner in h.calls && h.calls[h.claims[k].owner].phase == Archiving(k)
  }

  ghost predicate CallOk(h: Hall, c: nat)
    requires c in h.calls
  {
    var call := h.calls[c];
    match call.phase
    case Archiving(k) =>
      k in h.claims && h.claims[k].owner == c && !h.claims[k].done && !h.claims[k].kept && h.claims[k].path == call.path
      && call.path in h.shared && h.shared[call.path] == k
    case Releasing(k) =>
      k in h.claims && h.claims[k].owner == c && h.claims[k].done && !h.claims[k].kept && h.claims[k].path == call.path
      && call.path in h.shared && h.shared[call.path] == k
    case Waiting(k) => k in h.claims && h.claims[k].path == call.path && h.claims[k].owner != c
    case Returned(err, exit) =>
      match exit
      case Own(k) => k in h.claims && h.claims[k].owner == c && h.claims[k].done && err == h.claims[k].err
      case Awaited(k) => k in h.claims && h.claims[k].path == call.path && h.claims[k].done && err == h.claims[k].err
      case GaveUp => err == Some(Canceled)
  }

  ghost predicate CallsOk(h: Hall) {
    forall c | c in h.calls :: CallOk(h, c)
  }

  ghost predicate Sound(h: Hall) {
    SharedOk(h) && ClaimsOk(h) && CallsOk(h)
  }

  lemma StepSharedOk(h: Hall, s: Step)
    requires Sound(h) && Enabled(h, s)
    ensures SharedOk(After(h, s))
  {
    var h' := After(h, s);
    if s.Release? || s.Publish? || s.Wake? || s.GiveUp? { assert CallOk(h, s.call); }
    forall p | p in h'.shared
      ensures
        var k := h'.shared[p];
        && k in h'.claims && h'.claims[k].path == p && h'.claims[k].owner in h'.calls
        && (h'.calls[h'.claims[k].owner].phase in {Archiving(k), Releasing(k)}
            || (h'.claims[k].done && h'.claims[k].err.None? && h'.claims[k].kept
                && h'.calls[h'.claims[k].owner].phase == Returned(None, Own(k))))
    {
    }
  }

  lemma StepClaimsOk(h: Hall, s: Step)
    requires Sound(h) && Enabled(h, s)
    ensures ClaimsOk(After(h, s))
  {
    if s.Release? || s.Publish? || s.Wake? || s.GiveUp? { assert CallOk(h, s.call); }
  }

  lemma StepCallsOk(h: Hall, s: Step)
    requires Sound(h) && Enabled(h, s)
    ensures CallsOk(After(h, s))
  {
    var h' := After(h, s);
    if s.Release? || s.Publish? || s.Wake? || s.GiveUp? { assert CallOk(h, s.call); }
    forall c | c in h'.calls ensures CallOk(h', c) {
      if c in h.calls { assert CallOk(h, c); }
    }
  }

  lemma StepSound(h: Hall, s: Step)
    requires Sound(h) && Enabled(h, s)
    ensures Sound(After(h, s))
  {
    StepSharedOk(h, s);
    StepClaimsOk(h, s);
    StepCallsOk(h, s);
  }

  // ------------------------------------------------------------- whole runs

  ghost predicate IsRun(hs: seq<Hall>, steps: seq<Step>) {
    && |hs| == |steps| + 1 && hs[0] == EMPTY
    && forall i | 0 <= i < |steps| :: Enabled(hs[i], steps[i]) && hs[i + 1] == After(hs[i], steps[i])
  }

  lemma {:induction false} RunSound(hs: seq<Hall>, steps: seq<Step>)
    requires IsRun(hs, steps)
    ensures Sound(hs[|steps|])
    decreases |steps|
  {
    hide Sound, After;
    if steps == [] {
      EmptySound();
    } else {
      var n := |steps| - 1;
      RunSound(hs[..n + 1], steps[..n]);
      StepSound(hs[n], steps[n]);
    }
  }

  lemma EmptySound()
    ensures Sound(EMPTY)
  {
  }

  /** At any point of any interleaving: two archive calls for one path never
      overlap; a waiter that did not give up returned its claimant's outcome; a
      claim that outlived its call succeeded over a settled object; and whoever
      waits, waits for a published claim or for a call that archives. */
  lemma InEveryRun(hs: seq<Hall>, steps: seq<Step>, a: nat, b: nat, p: Path)
    requires IsRun(hs, steps)
    ensures
      var h := hs[|steps|];
      && ((a in h.calls && b in h.calls && h.calls[a].path == h.calls[b].path && h.calls[a].phase.Archiving?
           && (h.calls[b].phase.Archiving? || h.calls[b].phase.Releasing?)) ==> a == b)
      && (a in h.calls && h.calls[a].phase.Returned? && h.calls[a].phase.exit.Awaited? ==>
            var k := h.calls[a].phase.exit.claim;
            k in h.claims && h.claims[k].done && h.claims[k].path == h.calls[a].path && h.calls[a].phase.err == h.claims[k].err)
      && ((p in h.shared && h.shared[p] in h.claims && h.claims[h.shared[p]].owner in h.calls
           && h.calls[h.claims[h.shared[p]].owner].phase.Returned?) ==>
            h.claims[h.shared[p]].err.None? && h.claims[h.shared[p]].kept)
      && (a in h.calls && h.calls[a].phase.Waiting? ==>
            var k := h.calls[a].phase.claim;
            k in h.claims && (h.claims[k].done
                              || (h.claims[k].owner in h.calls && h.calls[h.claims[k].owner].phase == Archiving(k))))
  {
    RunSound(hs, steps);
    var h := hs[|steps|];
    if a in h.calls { assert CallOk(h, a); }
    if b in h.calls { assert CallOk(h, b); }
  }

  /** Only the claimant takes its claim out, and only when it failed or left its
      object unsettled. */
  lemma OnlyClaimantRemoves(h: Hall, s: Step, p: Path)
    requires Sound(h) && Enabled(h, s) && p in h.shared
    requires !(p in After(h, s).shared && After(h, s).shared[p] == h.shared[p])
    ensures s.Release? && h.shared[p] in h.claims && h.claims[h.shared[p]].owner == s.call
    ensures h.claims[h.shared[p]].err.Some? || p !in h.settled
  {
    assert s.Release?;
    assert CallOk(h, s.call);
  }

  /** A success that was kept makes every later call of its path free: the claim
      stands and no other is ever made. */
  lemma {:induction false} KeptIsForever(hs: seq<Hall>, steps: seq<Step>, i: nat, p: Path)
    requires IsRun(hs, steps) && i <= |steps|
    requires p in hs[i].shared && hs[i].shared[p] in hs[i].claims && hs[i].claims[hs[i].shared[p]].kept
    ensures
      var h := hs[|steps|];
      && p in h.shared && h.shared[p] == hs[i].shared[p] && h.shared[p] in h.claims && h.claims[h.shared[p]].kept
      && forall k | k in h.claims && h.claims[k].path == p :: k in hs[i].claims
    decreases |steps|
  {
    if i < |steps| {
      var n := |steps| - 1;
      KeptIsForever(hs[..n + 1], steps[..n], i, p);
      RunSound(hs[..n + 1], steps[..n]);
      KeptOnce(hs[n], steps[n], p);
    }
  }

  lemma KeptOnce(h: Hall, s: Step, p: Path)
    requires Sound(h) && Enabled(h, s) && p in h.shared && h.shared[p] in h.claims && h.claims[h.shared[p]].kept
    ensures
      var h' := After(h, s);
      && p in h'.shared && h'.shared[p] == h.shared[p] && h.shared[p] in h'.claims && h'.claims[h.shared[p]].kept
      && forall k | k in h'.claims && h'.claims[k].path == p :: k in h.claims
  {
    if s.Release? || s.Publish? || s.Wake? || s.GiveUp? { assert CallOk(h, s.call); }
  }
}
