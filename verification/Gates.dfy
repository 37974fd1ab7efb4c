/** Reference gates (pkg/collect/env.go, pkg/manifest/ledger.go): a ledger-only
    entry in a run's own shard that mirrors whether objects in other shards have
    settled, and why a crash never persists a clear without its cause. */
module Gates {
  import opened Statuses
  import opened Records
  import opened Durability

  /** `home` is the shard directory a path's entry lives in; `gate` tells the
      paths that name gates from the paths that name objects. */
  datatype Layout = Layout(home: Path -> Phys, gate: Path -> bool)

  function EntryKey(l: Layout, p: Path): Key {
    Key(l.home(p), EntryCell(p))
  }

  function EntryAt(l: Layout, m: State, p: Path): Option<Entry> {
    if EntryKey(l, p) in m && m[EntryKey(l, p)].EntryVal? then Some(m[EntryKey(l, p)].entry) else None
  }

  /** What a reference saw of the objects it mirrors: it reads each for whether
      it is still to fetch, then each again for an absence, and the workers that
      record them do not wait for it. */
  datatype Sight = Sight(first: map<Path, Option<Entry>>, again: map<Path, Option<Entry>>)

  predicate ToFetch(e: Option<Entry>, retryAbsent: bool) {
    e.None? || (if e.value.status.Absent? then retryAbsent else !e.value.status.Settled())
  }

  /** What the reference then asks of its gate. */
  function Verdict(sight: Sight, retryAbsent: bool): Status {
    if exists p | p in sight.first :: ToFetch(sight.first[p], retryAbsent) then Pending
    else if exists p | p in sight.again :: sight.again[p].Some? && sight.again[p].value.status.Absent? then ReferenceAbsent
    else ReferenceCleared
  }

  /** The status written to the gate, if any: a gate already pending or marked
      is left alone, and only an open or marked gate is cleared. */
  function GateWrite(l: Layout, m: State, gate: Path, verdict: Status): Option<Status> {
    var g := EntryAt(l, m, gate);
    match verdict
    case Pending => if g.Some? && g.value.status.Pending? then None else Some(Pending)
    case ReferenceAbsent => if g.Some? && g.value.status.ReferenceAbsent? then None else Some(ReferenceAbsent)
    case _ =>
      if g.Some? && (!g.value.status.Settled() || g.value.status.ReferenceAbsent?) then Some(ReferenceCleared) else None
  }

  /** A recorded entry counts one more attempt than the one it replaces. */
  function Rewrite(l: Layout, m: State, p: Path, status: Status, terminal: bool, mirrored: map<Path, nat>): Entry {
    var e := EntryAt(l, m, p);
    Entry(status, if e.Some? then e.value.attempts + 1 else 1, terminal, mirrored)
  }

  /** How often each mirrored object had been recorded when it was read. */
  function Causes(sight: Sight): map<Path, nat> {
    map p | p in sight.first && sight.first[p].Some? :: sight.first[p].value.attempts
  }

  /** What a reference writes to its gate. */
  function GateEntry(l: Layout, m: State, gate: Path, status: Status, sight: Sight): Entry {
    Rewrite(l, m, gate, status, false, if status.Settled() then Causes(sight) else map[])
  }

  function Refer(l: Layout, s: Sys, gate: Path, sight: Sight, retryAbsent: bool): Sys {
    var w := GateWrite(l, s.mem, gate, Verdict(sight, retryAbsent));
    if w.None? then s
    else Put(s, EntryKey(l, gate), EntryVal(GateEntry(l, s.mem, gate, w.value, sight)))
  }

  ghost predicate ReadFrom(l: Layout, past: seq<State>, p: Path, e: Option<Entry>) {
    exists i :: 0 <= i < |past| && e == EntryAt(l, past[i], p)
  }

  /** Each reading is of some memory this process went through. */
  ghost predicate Sighted(l: Layout, past: seq<State>, shared: set<Path>, sight: Sight) {
    && sight.first.Keys == sight.again.Keys == shared
    && (forall p | p in shared :: ReadFrom(l, past, p, sight.first[p]) && ReadFrom(l, past, p, sight.again[p]))
  }

  /** Every settled gate stands behind records at least as new as the ones that
      settled the objects it mirrors. */
  ghost predicate GatesBacked(l: Layout, m: State) {
    forall g, p |
      && EntryAt(l, m, g).Some? && EntryAt(l, m, g).value.status in {ReferenceCleared, ReferenceAbsent}
      && p in EntryAt(l, m, g).value.mirrored ::
      EntryAt(l, m, p).Some? && EntryAt(l, m, p).value.attempts >= EntryAt(l, m, g).value.mirrored[p]
  }

  /** Only gates carry gate statuses, and gates mirror only objects. */
  ghost predicate GatesApart(l: Layout, m: State) {
    forall p | EntryAt(l, m, p).Some? ::
      && (EntryAt(l, m, p).value.status.IsGate() ==> l.gate(p))
      && (forall q | q in EntryAt(l, m, p).value.mirrored :: !l.gate(q))
  }

  /** The durable state never runs ahead of memory. */
  ghost predicate Older(l: Layout, image: State, mem: State) {
    forall p | EntryAt(l, image, p).Some? ::
      EntryAt(l, mem, p).Some? && EntryAt(l, image, p).value.attempts <= EntryAt(l, mem, p).value.attempts
  }

  /** Records only ever advance while the process runs. */
  ghost predicate Advancing(l: Layout, past: seq<State>, mem: State) {
    forall i | 0 <= i < |past| :: Older(l, past[i], mem)
  }

  ghost predicate GateSafe(l: Layout, s: Sys) {
    && Coherent(s)
    && GatesBacked(l, s.mem) && GatesBacked(l, s.image)
    && GatesApart(l, s.mem) && GatesApart(l, s.image)
    && Older(l, s.image, s.mem)
  }

  /** What a prefix of the batch leaves of one entry. */
  lemma PrefixEntry(l: Layout, s: Sys, us: seq<Upsert>, n: nat, p: Path)
    requires GateSafe(l, s) && IsBatch(s.mem, s.dirty, s.lead, us) && n <= |us|
    ensures
      var r := Replay(s.image, us[..n]);
      EntryAt(l, r, p) == EntryAt(l, s.image, p) || EntryAt(l, r, p) == EntryAt(l, s.mem, p)
  {
    var k := EntryKey(l, p);
    PrefixAt(s, us, n, k);
    if k in s.mem { assert Typed(k.cell, s.mem[k]); }
  }

  /** An open marker is durable before anything it stands behind: a prefix that
      holds any settled record or skip signal of the batch holds the marker. */
  lemma OpenMarkerLeads(l: Layout, s: Sys, us: seq<Upsert>, n: nat, i: nat, p: Path)
    requires Coherent(s) && IsBatch(s.mem, s.dirty, s.lead, us) && i < n <= |us|
    requires Finished(us[i].val) || Signal(us[i].val) || us[i].val.RunVal?
    requires EntryKey(l, p) in s.dirty && EntryAt(l, s.mem, p).Some? && !EntryAt(l, s.mem, p).value.status.Settled()
    ensures EntryAt(l, Replay(s.image, us[..n]), p) == EntryAt(l, s.mem, p)
  {
    PrefixGuards(s, us, n, i, EntryKey(l, p));
  }

  /** A gate the prefix moved brings the newest record of every object. */
  lemma GateBringsObjects(l: Layout, s: Sys, us: seq<Upsert>, n: nat, g: Path, p: Path)
    requires GateSafe(l, s) && IsBatch(s.mem, s.dirty, s.lead, us) && n <= |us|
    requires
      var r := Replay(s.image, us[..n]);
      && EntryAt(l, r, g) != EntryAt(l, s.image, g)
      && EntryAt(l, r, g).Some? && EntryAt(l, r, g).value.status in {ReferenceCleared, ReferenceAbsent}
    requires !l.gate(p)
    ensures EntryAt(l, Replay(s.image, us[..n]), p) == EntryAt(l, s.mem, p)
  {
    var r := Replay(s.image, us[..n]);
    var gk, pk := EntryKey(l, g), EntryKey(l, p);
    var i := PrefixMoved(s, us, n, gk);
    PrefixAt(s, us, n, pk);
    assert At(r, gk) == Some(us[i].val);
    if pk in s.dirty {
      assert Typed(pk.cell, s.mem[pk]) && EntryAt(l, s.mem, p).Some?;
      PrefixGuards(s, us, n, i, pk);
    }
  }

  lemma PrefixBacked(l: Layout, s: Sys, us: seq<Upsert>, n: nat)
    requires GateSafe(l, s) && IsBatch(s.mem, s.dirty, s.lead, us) && n <= |us|
    ensures GatesBacked(l, Replay(s.image, us[..n]))
  {
    var r := Replay(s.image, us[..n]);
    forall g, p |
      && EntryAt(l, r, g).Some? && EntryAt(l, r, g).value.status in {ReferenceCleared, ReferenceAbsent}
      && p in EntryAt(l, r, g).value.mirrored
      ensures EntryAt(l, r, p).Some? && EntryAt(l, r, p).value.attempts >= EntryAt(l, r, g).value.mirrored[p]
    {
      PrefixEntry(l, s, us, n, g);
      PrefixEntry(l, s, us, n, p);
      if EntryAt(l, r, g) != EntryAt(l, s.image, g) {
        assert !l.gate(p);
        GateBringsObjects(l, s, us, n, g, p);
      }
    }
  }

  lemma PrefixGateSafe(l: Layout, s: Sys, us: seq<Upsert>, n: nat)
    requires GateSafe(l, s) && IsBatch(s.mem, s.dirty, s.lead, us) && n <= |us|
    ensures GateSafe(l, Torn(s, us, n)) && GateSafe(l, Reloaded(s, us, n))
  {
    var r := Replay(s.image, us[..n]);
    TornCoherent(s, us, n);
    ReloadedCoherent(s, us, n);
    PrefixBacked(l, s, us, n);
    forall p ensures EntryAt(l, r, p) == EntryAt(l, s.image, p) || EntryAt(l, r, p) == EntryAt(l, s.mem, p) {
      PrefixEntry(l, s, us, n, p);
    }
  }

  lemma PutEntryAt(l: Layout, m: State, p: Path, e: Entry, q: Path)
    ensures EntryAt(l, m[EntryKey(l, p) := EntryVal(e)], q) == if q == p then Some(e) else EntryAt(l, m, q)
  {
  }

  /** One entry's advance keeps every gate backed, provided a settled gate's own
      causes are on record. */
  lemma WriteGateSafe(l: Layout, s: Sys, p: Path, e: Entry)
    requires GateSafe(l, s)
    requires e.status.IsGate() ==> l.gate(p)
    requires EntryAt(l, s.mem, p).Some? ==> e.attempts >= EntryAt(l, s.mem, p).value.attempts
    requires forall q | q in e.mirrored ::
               !l.gate(q) && EntryAt(l, s.mem, q).Some? && EntryAt(l, s.mem, q).value.attempts >= e.mirrored[q]
    ensures GateSafe(l, Put(s, EntryKey(l, p), EntryVal(e)))
  {
    var s' := Put(s, EntryKey(l, p), EntryVal(e));
    PutCoherent(s, EntryKey(l, p), EntryVal(e));
    forall q ensures EntryAt(l, s'.mem, q) == if q == p then Some(e) else EntryAt(l, s.mem, q) {
      PutEntryAt(l, s.mem, p, e, q);
    }
    hide EntryAt, Coherent;
    assert GatesBacked(l, s'.mem);
  }

  /** Recording an object, whatever its outcome, never outruns a gate. */
  lemma RecordGateSafe(l: Layout, s: Sys, p: Path, status: Status, terminal: bool)
    requires GateSafe(l, s) && (status.IsGate() ==> l.gate(p) && status !in {ReferenceCleared, ReferenceAbsent})
    ensures GateSafe(l, Put(s, EntryKey(l, p), EntryVal(Rewrite(l, s.mem, p, status, terminal, map[]))))
  {
    WriteGateSafe(l, s, p, Rewrite(l, s.mem, p, status, terminal, map[]));
  }

  /** A gate settles on readings that may be stale by the time it is written;
      the records behind it are at least as new as the ones that were read. */
  lemma ReferGateSafe(l: Layout, s: Sys, past: seq<State>, gate: Path, shared: set<Path>, sight: Sight, retryAbsent: bool)
    requires GateSafe(l, s) && l.gate(gate) && forall p | p in shared :: !l.gate(p)
    requires Advancing(l, past, s.mem) && Sighted(l, past, shared, sight)
    ensures GateSafe(l, Refer(l, s, gate, sight, retryAbsent))
  {
    CausesRecorded(l, s.mem, past, shared, sight);
    hide Sighted, Advancing, GateSafe, EntryAt, Put;
    var w := GateWrite(l, s.mem, gate, Verdict(sight, retryAbsent));
    if w.Some? {
      var causes := if w.value.Settled() then Causes(sight) else map[];
      WriteGateSafe(l, s, gate, Rewrite(l, s.mem, gate, w.value, false, causes));
    }
  }

  lemma CausesRecorded(l: Layout, mem: State, past: seq<State>, shared: set<Path>, sight: Sight)
    requires Advancing(l, past, mem) && Sighted(l, past, shared, sight)
    ensures forall p | p in Causes(sight) ::
              p in shared && EntryAt(l, mem, p).Some? && EntryAt(l, mem, p).value.attempts >= Causes(sight)[p]
  {
    forall p | p in Causes(sight)
      ensures EntryAt(l, mem, p).Some? && EntryAt(l, mem, p).value.attempts >= Causes(sight)[p]
    {
      var i :| 0 <= i < |past| && sight.first[p] == EntryAt(l, past[i], p);
      assert Older(l, past[i], mem);
    }
  }

  // ----------------------------------------------------- what a reference does

  /** A reading of an object this run still has to fetch. */
  predicate Outstanding(e: Option<Entry>, retryAbsent: bool) {
    || e.None?
    || e.value.status in {Errored, Forbidden, Pending}
    || (e.value.status == Absent && retryAbsent)
  }

  /** What a reference makes of its gate: pending while some object it read is
      outstanding; else marked absent if it then read one as an absence, even where
      there was no gate; else cleared if it was open or marked, and otherwise left
      alone, missing or not.  A gate that already says so is not written again, one
      that is written counts one more attempt and, settled, remembers how often each
      object had been recorded, and no other cell changes. */
  ghost predicate GateMoves(l: Layout, before: State, gate: Path, sight: Sight, retryAbsent: bool, after: State) {
    var was, now := EntryAt(l, before, gate), EntryAt(l, after, gate);
    && (forall k | k != EntryKey(l, gate) :: At(after, k) == At(before, k))
    && (after == before ||
          (now.Some? && now.value.attempts == (if was.Some? then was.value.attempts + 1 else 1)
           && (now.value.status != Pending ==>
                 forall p :: p in now.value.mirrored <==> p in sight.first && sight.first[p].Some?)
           && (now.value.status != Pending ==>
                 forall p | p in now.value.mirrored :: now.value.mirrored[p] == sight.first[p].value.attempts)))
    && if exists p :: p in sight.first && Outstanding(sight.first[p], retryAbsent) then
         now.Some? && now.value.status == Pending && (was.Some? && was.value.status == Pending ==> after == before)
       else if exists p :: p in sight.again && sight.again[p].Some? && sight.again[p].value.status == Absent then
         && now.Some? && now.value.status == ReferenceAbsent
         && (was.Some? && was.value.status == ReferenceAbsent ==> after == before)
       else if was.Some? && was.value.status in {Errored, Forbidden, Pending, ReferenceAbsent} then
         now.Some? && now.value.status == ReferenceCleared
       else after == before
  }

  /** What the verdict and the write come to. */
  lemma ReferMoves(l: Layout, m: State, gate: Path, sight: Sight, retryAbsent: bool)
    ensures
      var w := GateWrite(l, m, gate, Verdict(sight, retryAbsent));
      GateMoves(l, m, gate, sight, retryAbsent,
                if w.None? then m else m[EntryKey(l, gate) := EntryVal(GateEntry(l, m, gate, w.value, sight))])
  {
    VerdictMeans(sight, retryAbsent);
    var w := GateWrite(l, m, gate, Verdict(sight, retryAbsent));
    if w.Some? {
      var e := GateEntry(l, m, gate, w.value, sight);
      PutEntryAt(l, m, gate, e, gate);
    }
    hide Verdict, Outstanding;
  }

  lemma VerdictMeans(sight: Sight, retryAbsent: bool)
    ensures
      var v := Verdict(sight, retryAbsent);
      if exists p :: p in sight.first && Outstanding(sight.first[p], retryAbsent) then v == Pending
      else if exists p :: p in sight.again && sight.again[p].Some? && sight.again[p].value.status == Absent then
        v == ReferenceAbsent
      else v == ReferenceCleared
  {
  }
}
