/** The batch one flush appends: several shards' drains, merged and sorted
    (pkg/manifest/ledger.go, `Flush`; pkg/manifest/wal.go). */
module Batches {
  import opened Statuses
  import opened Records
  import opened Durability
  import opened Shards

  /** Resolves a log record's shard tag to the directory it names. */
  function Routed(canon: Path -> Phys, recs: seq<Rec>): (us: seq<Upsert>)
    ensures |us| == |recs|
    ensures forall i | 0 <= i < |recs| :: us[i] == Upsert(Key(canon(recs[i].shard), recs[i].cell), recs[i].val)
  {
    seq(|recs|, i requires 0 <= i < |recs| => Upsert(Key(canon(recs[i].shard), recs[i].cell), recs[i].val))
  }

  lemma RoutedConcat(canon: Path -> Phys, a: seq<Rec>, b: seq<Rec>)
    ensures Routed(canon, a + b) == Routed(canon, a) + Routed(canon, b)
  {
  }

  lemma RoutedIn(canon: Path -> Phys, recs: seq<Rec>, r: Rec)
    requires r in recs
    ensures Upsert(Key(canon(r.shard), r.cell), r.val) in Routed(canon, recs)
  {
    var i :| 0 <= i < |recs| && recs[i] == r;
    assert Routed(canon, recs)[i] == Upsert(Key(canon(r.shard), r.cell), r.val);
  }

  // ------------------------------------------------------- the merged batch

  /** Within one shard and class, the records keep their emission order. */
  predicate Ranked(canon: Path -> Phys, us: seq<Rec>) {
    forall i, j :: 0 <= i < j < |us| && canon(us[i].shard) == canon(us[j].shard) && Class(us[i].val) == Class(us[j].val)
      ==> Emission(us[i].val) <= Emission(us[j].val)
  }

  lemma {:induction false} OfClassRanked(canon: Path -> Phys, us: seq<Rec>, c: nat)
    requires Ranked(canon, us)
    ensures Ranked(canon, OfClass(us, c))
  {
    if us != [] {
      var init, last := us[..|us| - 1], us[|us| - 1];
      assert Ranked(canon, init);
      OfClassRanked(canon, init, c);
      OfClassMembers(init, c);
      if Class(last.val) == c { RankedPush(canon, us, OfClass(init, c)); }
    }
  }

  lemma RankedPush(canon: Path -> Phys, us: seq<Rec>, part: seq<Rec>)
    requires us != [] && Ranked(canon, us) && Ranked(canon, part)
    requires forall r | r in part :: r in us[..|us| - 1]
    ensures Ranked(canon, part + [us[|us| - 1]])
  {
    var last := us[|us| - 1];
    forall i | 0 <= i < |part| && canon(part[i].shard) == canon(last.shard) && Class(part[i].val) == Class(last.val)
      ensures Emission(part[i].val) <= Emission(last.val)
    {
      assert part[i] in part && part[i] in us[..|us| - 1];
      var k :| 0 <= k < |us| - 1 && us[k] == part[i];
    }
  }

  lemma RankedConcat(canon: Path -> Phys, a: seq<Rec>, b: seq<Rec>)
    requires Ranked(canon, a) && Ranked(canon, b)
    requires forall x, y | x in a && y in b :: canon(x.shard) != canon(y.shard) || Class(x.val) != Class(y.val)
    ensures Ranked(canon, a + b)
  {
    var s := a + b;
    assert forall i | 0 <= i < |a| :: s[i] in a;
    assert forall j | |a| <= j < |s| :: s[j] in b;
    forall i, j | 0 <= i < j < |s| && canon(s[i].shard) == canon(s[j].shard) && Class(s[i].val) == Class(s[j].val)
      ensures Emission(s[i].val) <= Emission(s[j].val)
    {
      if i >= |a| { assert s[i] == b[i - |a|] && s[j] == b[j - |a|]; }
    }
  }

  lemma ByClassRanked(canon: Path -> Phys, us: seq<Rec>)
    requires Ranked(canon, us)
    ensures Ranked(canon, ByClass(us))
  {
    forall c | 0 <= c <= 4
      ensures Ranked(canon, OfClass(us, c)) && forall r | r in OfClass(us, c) :: Class(r.val) == c
    {
      OfClassRanked(canon, us, c);
      OfClassMembers(us, c);
    }
    RankedConcat(canon, OfClass(us, 0), OfClass(us, 1));
    RankedConcat(canon, OfClass(us, 0) + OfClass(us, 1), OfClass(us, 2));
    RankedConcat(canon, OfClass(us, 0) + OfClass(us, 1) + OfClass(us, 2), OfClass(us, 3));
    RankedConcat(canon, OfClass(us, 0) + OfClass(us, 1) + OfClass(us, 2) + OfClass(us, 3), OfClass(us, 4));
  }

  /** The drains of some shards, merged: everything those shards owe. */
  ghost predicate Merged(canon: Path -> Phys, mem: State, dirty: set<Key>, lead: set<Key>, done: set<Phys>, recs: seq<Rec>) {
    && dirty <= mem.Keys
    && (forall r | r in recs ::
          canon(r.shard) in done && Durability.Drained(mem, dirty, lead, Upsert(Key(canon(r.shard), r.cell), r.val)))
    && (forall k | k in dirty && k.phys in done :: Upsert(k, mem[k]) in Routed(canon, recs))
    && (forall k | k in lead && k.phys in done :: Upsert(k, SettledVal(false)) in Routed(canon, recs))
    && Ranked(canon, recs)
  }

  lemma SameRouted(canon: Path -> Phys, a: seq<Rec>, b: seq<Rec>)
    requires forall r :: r in a <==> r in b
    ensures forall u :: u in Routed(canon, a) ==> u in Routed(canon, b)
  {
    forall u | u in Routed(canon, a) ensures u in Routed(canon, b) {
      var i :| 0 <= i < |a| && Routed(canon, a)[i] == u;
      assert a[i] in a;
      RoutedIn(canon, b, a[i]);
    }
  }

  lemma RoutedOrder(canon: Path -> Phys, b: seq<Rec>)
    requires Sorted(b) && Ranked(canon, b)
    ensures InClassOrder(Routed(canon, b)) && InEmissionOrder(Routed(canon, b))
  {
  }

  /** Sorting the merged drains by class makes them one batch. */
  lemma MergedIsBatch(canon: Path -> Phys, mem: State, dirty: set<Key>, lead: set<Key>, done: set<Phys>, recs: seq<Rec>)
    requires Merged(canon, mem, dirty, lead, done, recs)
    requires lead <= dirty && forall k | k in dirty :: k.phys in done
    ensures IsBatch(mem, dirty, lead, Routed(canon, ByClass(recs)))
  {
    ByClassSorts(recs);
    ByClassRanked(canon, recs);
    RoutedOrder(canon, ByClass(recs));
    SameRouted(canon, recs, ByClass(recs));
    SameRouted(canon, ByClass(recs), recs);
    forall u | u in Routed(canon, recs) ensures Durability.Drained(mem, dirty, lead, u) {
      var i :| 0 <= i < |recs| && Routed(canon, recs)[i] == u;
      assert recs[i] in recs;
    }
  }

  /** One more shard's drain joins the merge. */
  lemma MergeShard(canon: Path -> Phys, mem: State, dirty: set<Key>, lead: set<Key>, done: set<Phys>, recs: seq<Rec>,
                   tag: Path, cells: map<Cell, Value>, owed: set<Cell>, unsettled: set<Path>, more: seq<Rec>)
    requires Merged(canon, mem, dirty, lead, done, recs) && canon(tag) !in done
    requires Emits(cells, owed, unsettled, tag, more)
    requires forall c :: Key(canon(tag), c) in dirty <==> c in owed
    requires forall k :: Key(canon(tag), SettledCell(k)) in lead <==> k in unsettled
    requires forall k | k in lead :: k.cell.SettledCell?
    requires forall c | c in owed :: mem[Key(canon(tag), c)] == cells[c]
    ensures Merged(canon, mem, dirty, lead, done + {canon(tag)}, recs + more)
  {
    var h := canon(tag);
    RoutedConcat(canon, recs, more);
    forall r | r in more ensures Durability.Drained(mem, dirty, lead, Upsert(Key(canon(r.shard), r.cell), r.val)) {
      assert r.shard == tag;
      if r.val != cells[r.cell] { assert Key(h, SettledCell(r.cell.key)) in lead; }
    }
    forall k | k in dirty && k.phys == h ensures Upsert(k, mem[k]) in Routed(canon, more) {
      assert k == Key(h, k.cell);
      RoutedIn(canon, more, Rec(tag, k.cell, cells[k.cell]));
    }
    forall k | k in lead && k.phys == h ensures Upsert(k, SettledVal(false)) in Routed(canon, more) {
      assert k == Key(h, SettledCell(k.cell.key));
      RoutedIn(canon, more, Rec(tag, k.cell, SettledVal(false)));
    }
    RankedConcat(canon, recs, more);
  }
}
