/** What one appended batch promises across a crash: the class order of
    pkg/manifest/wal.go makes every whole-line prefix of it a safe state. */
module Durability {
  import opened Statuses
  import opened Records

  /** An upsert a drain may emit: a dirty cell's current value, or the leading
      `false` of a collection unsettled since the last drain. */
  predicate Drained(mem: State, dirty: set<Key>, lead: set<Key>, u: Upsert)
    requires dirty <= mem.Keys
  {
    u.key in dirty && (u.val == mem[u.key] || (u.key in lead && u.val == SettledVal(false)))
  }

  predicate InClassOrder(us: seq<Upsert>) {
    forall i, j :: 0 <= i < j < |us| ==> Class(us[i].val) <= Class(us[j].val)
  }

  /** Where a shard's drain emits a record among those of its class. */
  function Emission(v: Value): nat {
    match v
    case EntryVal(_) => 0
    case MarkVal(_) => 1
    case CompletedVal => 2
    case SettledVal(_) => 3
    case RunVal(_) => 4
  }

  predicate InEmissionOrder(us: seq<Upsert>) {
    forall i, j :: 0 <= i < j < |us| && us[i].key.phys == us[j].key.phys && Class(us[i].val) == Class(us[j].val) ==>
      Emission(us[i].val) <= Emission(us[j].val)
  }

  /** `us` is one flush's batch for the given dirty state: complete, in class
      order, and holding nothing else. */
  ghost predicate IsBatch(mem: State, dirty: set<Key>, lead: set<Key>, us: seq<Upsert>) {
    && dirty <= mem.Keys
    && InClassOrder(us)
    && InEmissionOrder(us)
    && (forall u | u in us :: Drained(mem, dirty, lead, u))
    && (forall k | k in dirty :: Upsert(k, mem[k]) in us)
    && (forall k | k in lead :: Upsert(k, SettledVal(false)) in us)
  }

  /** The ledger between lock holds: what replaying the disk gives, what memory
      holds, and what memory still owes the log. */
  datatype Sys = Sys(image: State, mem: State, dirty: set<Key>, lead: set<Key>)

  ghost predicate WellTyped(m: State) {
    forall k | k in m :: Typed(k.cell, m[k])
  }

  ghost predicate Coherent(s: Sys) {
    && WellTyped(s.mem)
    && s.dirty <= s.mem.Keys
    && s.lead <= s.dirty
    && (forall k | k in s.lead :: k.cell.SettledCell?)
    && (forall k | k in s.dirty && s.mem[k] == SettledVal(false) :: k in s.lead)
    && s.image.Keys <= s.mem.Keys
    && (forall k | k in s.mem && k !in s.dirty :: k in s.image && s.image[k] == s.mem[k])
    && WellTyped(s.image)
  }

  /** One ledger mutation under the write lock. */
  function Put(s: Sys, k: Key, v: Value): Sys {
    Sys(s.image, s.mem[k := v], s.dirty + {k}, if v == SettledVal(false) then s.lead + {k} else s.lead)
  }

  /** The state after a failed append of which `n` lines stayed on disk. */
  function Torn(s: Sys, us: seq<Upsert>, n: nat): Sys
    requires n <= |us|
  {
    s.(image := Replay(s.image, us[..n]))
  }

  /** The state after an acknowledged append. */
  function Acked(s: Sys, us: seq<Upsert>): Sys {
    Sys(Replay(s.image, us), s.mem, {}, {})
  }

  /** A crash that left `n` lines of the batch, followed by a load. */
  function Reloaded(s: Sys, us: seq<Upsert>, n: nat): Sys
    requires n <= |us|
  {
    var r := Replay(s.image, us[..n]);
    Sys(r, r, {}, {})
  }

  lemma BatchLast(mem: State, dirty: set<Key>, lead: set<Key>, us: seq<Upsert>, k: Key)
    requires IsBatch(mem, dirty, lead, us) && WellTyped(mem)
    requires forall k | k in lead :: k.cell.SettledCell?
    ensures LastOf(us, k) == if k in dirty then Some(mem[k]) else None
  {
    if k in dirty {
      var j :| 0 <= j < |us| && us[j] == Upsert(k, mem[k]);
      if LastOf(us, k).None? { LastOfNone(us, k); assert false; }
      var i := LastOfSome(us, k);
      assert us[i] in us && Drained(mem, dirty, lead, us[i]);
      assert Typed(k.cell, mem[k]);
      // A later record of the same cell could only be a leading `false`, which
      // no record of a higher class precedes.
      assert j < i ==> Class(us[j].val) <= Class(us[i].val);
    } else {
      forall i | 0 <= i < |us| ensures us[i].key != k {
        assert Drained(mem, dirty, lead, us[i]);
      }
      if LastOf(us, k).Some? { var _ := LastOfSome(us, k); assert false; }
    }
  }

  /** An acknowledged batch makes the durable state equal to memory. */
  lemma FullBatch(s: Sys, us: seq<Upsert>)
    requires Coherent(s) && IsBatch(s.mem, s.dirty, s.lead, us)
    ensures Replay(s.image, us) == s.mem
  {
    forall k ensures At(Replay(s.image, us), k) == At(s.mem, k) {
      BatchLast(s.mem, s.dirty, s.lead, us, k);
      ReplayAt(s.image, us, k);
    }
    StatesEqual(Replay(s.image, us), s.mem);
  }

  /** What a prefix leaves in any one cell. */
  lemma PrefixAt(s: Sys, us: seq<Upsert>, n: nat, k: Key)
    requires Coherent(s) && IsBatch(s.mem, s.dirty, s.lead, us) && n <= |us|
    ensures k !in s.dirty ==> At(Replay(s.image, us[..n]), k) == At(s.mem, k)
    ensures
      var r := At(Replay(s.image, us[..n]), k);
      || r == At(s.image, k)
      || (k in s.dirty && r == Some(s.mem[k]))
      || (k in s.lead && r == Some(SettledVal(false)))
  {
    ReplayAt(s.image, us[..n], k);
    if LastOf(us[..n], k).Some? {
      var i := LastOfSome(us[..n], k);
      assert us[i] in us && Drained(s.mem, s.dirty, s.lead, us[i]);
    }
  }

  /** The durability order: a prefix that holds any record holds every drained
      record of a lower class. */
  lemma PrefixGuards(s: Sys, us: seq<Upsert>, n: nat, i: nat, k: Key)
    requires Coherent(s) && IsBatch(s.mem, s.dirty, s.lead, us)
    requires i < n <= |us| && k in s.dirty && Class(s.mem[k]) < Class(us[i].val)
    ensures At(Replay(s.image, us[..n]), k) == Some(s.mem[k])
  {
    var j :| 0 <= j < |us| && us[j] == Upsert(k, s.mem[k]);
    assert j < i;
    ReplayAt(s.image, us[..n], k);
    var l := LastFrom(us, n, j, k);
    assert us[l] in us && Drained(s.mem, s.dirty, s.lead, us[l]);
    assert Class(us[j].val) <= Class(us[l].val);
    assert Typed(k.cell, s.mem[k]);
  }

  /** A prefix that holds any record above class 0 holds every unsettlement. */
  lemma PrefixLeads(s: Sys, us: seq<Upsert>, n: nat, i: nat, k: Key)
    requires Coherent(s) && IsBatch(s.mem, s.dirty, s.lead, us)
    requires i < n <= |us| && k in s.lead && Class(us[i].val) > 0
    ensures LastOf(us[..n], k) in {Some(SettledVal(false)), Some(s.mem[k])}
  {
    var j :| 0 <= j < |us| && us[j] == Upsert(k, SettledVal(false));
    assert j < i;
    var l := LastFrom(us, n, j, k);
    assert us[l] in us && Drained(s.mem, s.dirty, s.lead, us[l]);
  }

  /** An entry that is still to be fetched, or an obligation not yet met. */
  predicate Guard(v: Value) {
    v.EntryVal? && v.entry.status in {Errored, Forbidden, Pending}
  }

  /** An object a later run leaves alone. */
  predicate Finished(v: Value) {
    v.EntryVal? && v.entry.status in {Done, Absent, Skipped, NotApplicable}
  }

  /** What lets a later run skip the work behind it: a cleared or marked gate, a
      high-water mark, a completion, a settlement. */
  predicate Signal(v: Value) {
    || (v.EntryVal? && v.entry.status in {ReferenceCleared, ReferenceAbsent})
    || v.MarkVal? || v.CompletedVal? || v == SettledVal(true)
  }

  /** What a prefix that reaches one record already holds: open entries before
      anything settled, objects before whatever lets a run skip them, everything
      before the run's own record, and every withdrawn settlement before all. */
  lemma PrefixOrder(s: Sys, us: seq<Upsert>, n: nat, i: nat, k: Key)
    requires Coherent(s) && IsBatch(s.mem, s.dirty, s.lead, us) && i < n <= |us| && k in s.dirty
    ensures
      var v, w := us[i].val, s.mem[k];
      || (Guard(w) && (Finished(v) || Signal(v) || v.RunVal?))
      || (Finished(w) && (Signal(v) || v.RunVal?))
      || (Signal(w) && v.RunVal?) ==>
        At(Replay(s.image, us[..n]), k) == Some(w)
    ensures k in s.lead && us[i].val != SettledVal(false) ==> LastOf(us[..n], k) in {Some(SettledVal(false)), Some(s.mem[k])}
  {
    var v, w := us[i].val, s.mem[k];
    if Class(w) < Class(v) { PrefixGuards(s, us, n, i, k); }
    if k in s.lead && v != SettledVal(false) { PrefixLeads(s, us, n, i, k); }
  }

  lemma LastFrom(us: seq<Upsert>, n: nat, j: nat, k: Key) returns (l: nat)
    requires j < n <= |us| && us[j].key == k
    ensures j <= l < n && us[l].key == k && LastOf(us[..n], k) == Some(us[l].val)
  {
    assert us[..n][j] == us[j];
    if LastOf(us[..n], k).None? { LastOfNone(us[..n], k); assert false; }
    l := LastOfSome(us[..n], k);
  }

  /** A cell the prefix moved was written by a record of its own final class,
      unless the prefix holds only its leading unsettlement. */
  lemma PrefixMoved(s: Sys, us: seq<Upsert>, n: nat, k: Key) returns (i: nat)
    requires Coherent(s) && IsBatch(s.mem, s.dirty, s.lead, us) && n <= |us|
    requires At(Replay(s.image, us[..n]), k) != At(s.image, k)
    ensures i < n && us[i].key == k && k in s.dirty
    ensures At(Replay(s.image, us[..n]), k) == Some(us[i].val)
    ensures us[i].val == s.mem[k] || (k in s.lead && us[i].val == SettledVal(false))
  {
    ReplayAt(s.image, us[..n], k);
    i := LastOfSome(us[..n], k);
    assert us[i] in us && Drained(s.mem, s.dirty, s.lead, us[i]);
  }

  // ----------------------------------------------- the steps keep coherence

  lemma PutCoherent(s: Sys, k: Key, v: Value)
    requires Coherent(s) && Typed(k.cell, v)
    ensures Coherent(Put(s, k, v))
  {
  }

  lemma TornCoherent(s: Sys, us: seq<Upsert>, n: nat)
    requires Coherent(s) && IsBatch(s.mem, s.dirty, s.lead, us) && n <= |us|
    ensures Coherent(Torn(s, us, n))
  {
    var r := Replay(s.image, us[..n]);
    forall k ensures k in r ==> k in s.mem && Typed(k.cell, r[k])
             ensures k in s.mem && k !in s.dirty ==> k in r && r[k] == s.mem[k] {
      PrefixAt(s, us, n, k);
      assert At(r, k) == if k in r then Some(r[k]) else None;
    }
  }

  lemma AckedCoherent(s: Sys, us: seq<Upsert>)
    requires Coherent(s) && IsBatch(s.mem, s.dirty, s.lead, us)
    ensures Coherent(Acked(s, us)) && Acked(s, us).image == s.mem
  {
    FullBatch(s, us);
  }

  lemma ReloadedCoherent(s: Sys, us: seq<Upsert>, n: nat)
    requires Coherent(s) && IsBatch(s.mem, s.dirty, s.lead, us) && n <= |us|
    ensures Coherent(Reloaded(s, us, n))
  {
    TornCoherent(s, us, n);
  }
}
