/** Which child directory of a parent archives which object
    (pkg/collect/identity.go): identity records, rename breadcrumbs, and the
    per-run cache of owners. */
module Identities {
  import opened Records

  type Name = string
  type Id = string

  /** A directory's identity record; `renamedTo` is the breadcrumb of one kept
      for history only. */
  datatype Ident = Ident(id: Id, renamedTo: Option<Name>)

  type Disk = map<Name, Ident>

  predicate Live(d: Disk, n: Name, id: Id) {
    n in d && d[n].id == id && d[n].renamedTo.None?
  }

  /** At most one un-breadcrumbed child names an id. */
  ghost predicate Unique(d: Disk) {
    forall n, m, id | Live(d, n, id) && Live(d, m, id) :: n == m
  }

  /** A directory's recorded id never changes. */
  ghost predicate SameIds(before: Disk, after: Disk) {
    forall n | n in before :: n in after && after[n].id == before[n].id
  }

  /** The cache knows every live owner a scan can see, and names no directory
      that archives another id. */
  ghost predicate CacheOk(scanned: Name -> bool, cache: Option<map<Id, Name>>, d: Disk) {
    cache.Some? ==>
      && (forall n, id | scanned(n) && Live(d, n, id) :: id in cache.value && cache.value[id] == n)
      && (forall id | id in cache.value :: cache.value[id] in d && d[cache.value[id]].id == id)
  }

  /** A live owner the scan does not look at: it skips children that are not
      directories themselves, a symlinked one included. */
  ghost predicate Hidden(scanned: Name -> bool, d: Disk, dir: Name, id: Id) {
    exists m :: m != dir && !scanned(m) && Live(d, m, id)
  }

  predicate Cached(cache: Option<map<Id, Name>>, id: Id, n: Name) {
    cache.Some? && id in cache.value && cache.value[id] == n
  }

  datatype Claim = Claimed(renamedFrom: Option<Name>) | Mismatch | Faulted

  /** Where a claim is stopped, by a fault or by a crash. */
  datatype Luck = Luck(scan: bool, mark: bool, write: bool)

  class Parent {
    const scanned: Name -> bool
    var disk: Disk
    var cache: Option<map<Id, Name>>

    constructor (scanned: Name -> bool, disk: Disk)
      ensures this.scanned == scanned && this.disk == disk && cache == None
    {
      this.scanned, this.disk, cache := scanned, disk, None;
    }

    /** Every live owner a scan of the children sees, read once a run. */
    method OwnersUnder(l: Luck) returns (owners: Option<map<Id, Name>>)
      requires Unique(disk) && CacheOk(scanned, cache, disk)
      modifies this`cache
      ensures CacheOk(scanned, cache, disk) && (owners.Some? ==> cache == owners)
      ensures owners.None? ==> cache == old(cache)
      ensures l.scan ==> owners.Some?
      ensures old(cache).Some? ==> owners == old(cache)
      ensures old(cache).None? && owners.Some? ==> forall id | id in owners.value :: scanned(owners.value[id])
    {
      if cache.Some? {
        return cache;
      }
      if !l.scan {
        return None;
      }
      var found: map<Id, Name> := map[];
      var left := disk.Keys;
      while left != {}
        invariant left <= disk.Keys
        invariant forall n, id | n !in left && scanned(n) && Live(disk, n, id) :: id in found && found[id] == n
        invariant forall id | id in found :: found[id] !in left && scanned(found[id]) && Live(disk, found[id], id)
        decreases left
      {
        var n :| n in left;
        left := left - {n};
        if scanned(n) && disk[n].renamedTo.None? {
          assert forall m | Live(disk, m, disk[n].id) && Live(disk, n, disk[n].id) :: m == n;
          found := found[disk[n].id := n];
        }
      }
      cache := Some(found);
      owners := cache;
    }

    /** Stamps the breadcrumb on a directory whose object lives on elsewhere. */
    method MarkRenamed(prior: Name, to: Name, l: Luck) returns (ok: bool)
      modifies this`disk
      ensures ok <==> prior in old(disk) && l.mark
      ensures disk == if ok then old(disk)[prior := Ident(old(disk)[prior].id, Some(to))] else old(disk)
    {
      ok := prior in disk && l.mark;
      if ok { disk := disk[prior := disk[prior].(renamedTo := Some(to))]; }
    }

    /** Binds a directory to the object about to be archived into it.  Another
        live owner of the id is marked first, whether the directory is fresh or
        carries the breadcrumb of a rename since undone. */
    method ClaimDir(dir: Name, id: Id, l: Luck) returns (r: Claim)
      requires Unique(disk) && CacheOk(scanned, cache, disk)
      modifies this`disk, this`cache
      ensures Claims(scanned, old(disk), dir, id, r.Claimed?, disk) && CacheOk(scanned, cache, disk)
      ensures r == Mismatch <==> dir in old(disk) && old(disk)[dir].id != id
      ensures r.Mismatch? ==> disk == old(disk)
      ensures forall n, i | Live(old(disk), n, i) && !Live(disk, n, i) ::
                i == id && n != dir && n in disk && disk[n].renamedTo == Some(dir)
      ensures r.Claimed? && !Live(old(disk), dir, id) ==>
                (Unique(disk) <==> forall m | m != dir && !scanned(m) && Live(old(disk), m, id) :: Cached(old(cache), id, m))
      ensures r.Claimed? && r.renamedFrom.Some? ==> r.renamedFrom.value in disk && disk[r.renamedFrom.value].renamedTo == Some(dir)
      ensures l.scan && l.mark && l.write && (dir in old(disk) ==> old(disk)[dir].id == id) ==> r.Claimed?
    {
      SameIdsSelf(disk);
      if dir in disk && disk[dir].id != id {
        return Mismatch;
      }
      if dir in disk && disk[dir].renamedTo.None? {
        return Claimed(None);
      }
      hide CacheOk, Unique, Claims;
      r := ClaimAnew(dir, id, l);
    }

    /** The claim of a directory that is not the id's live owner yet. */
    method ClaimAnew(dir: Name, id: Id, l: Luck) returns (r: Claim)
      requires Unique(disk) && CacheOk(scanned, cache, disk)
      requires dir in disk ==> disk[dir].id == id && disk[dir].renamedTo.Some?
      modifies this`disk, this`cache
      ensures Claims(scanned, old(disk), dir, id, r.Claimed?, disk) && CacheOk(scanned, cache, disk) && !r.Mismatch?
      ensures forall n, i | Live(old(disk), n, i) && !Live(disk, n, i) ::
                i == id && n != dir && n in disk && disk[n].renamedTo == Some(dir)
      ensures r.Claimed? ==>
                (Unique(disk) <==> forall m | m != dir && !scanned(m) && Live(old(disk), m, id) :: Cached(old(cache), id, m))
      ensures r.Claimed? && r.renamedFrom.Some? ==> r.renamedFrom.value in disk && disk[r.renamedFrom.value].renamedTo == Some(dir)
      ensures l.scan && l.mark && l.write ==> r.Claimed?
    {
      hide CacheOk, SameIds, Unique;
      SameIdsSelf(disk);
      var owners := OwnersUnder(l);
      if owners.None? {
        return Faulted;
      }
      OwnerIs(disk, owners.value, id);
      var prior: Option<Name> := None;
      if id in owners.value && owners.value[id] != dir {
        prior := Some(owners.value[id]);
        Marked(disk, cache, prior.value, dir);
        var ok := MarkRenamed(prior.value, dir, l);
        if !ok {
          return Faulted;
        }
      }
      if !l.write {
        return Faulted;
      }
      Bound(old(disk), disk, owners.value, dir, id);
      disk := disk[dir := Ident(id, None)];
      cache := Some(owners.value[id := dir]);
      r := Claimed(prior);
      UniqueAfter(old(disk), disk, dir, id, old(cache), prior);
    }

    lemma SameIdsSelf(d: Disk)
      ensures SameIds(d, d)
    {
    }

    lemma OwnerIs(d: Disk, owners: map<Id, Name>, id: Id)
      requires CacheOk(scanned, Some(owners), d)
      ensures id in owners ==> owners[id] in d && d[owners[id]].id == id
      ensures forall n | scanned(n) && Live(d, n, id) :: id in owners && owners[id] == n
    {
    }

    lemma Marked(d: Disk, was: Option<map<Id, Name>>, prior: Name, to: Name)
      requires CacheOk(scanned, was, d) && prior in d
      ensures
        var d' := d[prior := Ident(d[prior].id, Some(to))];
        CacheOk(scanned, was, d') && SameIds(d, d')
    {
    }

    lemma Bound(d0: Disk, d: Disk, owners: map<Id, Name>, dir: Name, id: Id)
      requires CacheOk(scanned, Some(owners), d) && SameIds(d0, d) && (dir in d ==> d[dir].id == id)
      requires forall n | n != dir && scanned(n) :: !Live(d, n, id)
      ensures
        var d' := d[dir := Ident(id, None)];
        CacheOk(scanned, Some(owners[id := dir]), d') && SameIds(d0, d')
    {
    }

    lemma UniqueAfter(d: Disk, d': Disk, dir: Name, id: Id, was: Option<map<Id, Name>>, prior: Option<Name>)
      requires Unique(d) && CacheOk(scanned, was, d) && Live(d', dir, id) && prior != Some(dir)
      requires forall n, i | Live(d', n, i) && n != dir :: Live(d, n, i) && Some(n) != prior
      requires forall n, i | Live(d, n, i) && n != dir && Some(n) != prior :: Live(d', n, i)
      requires forall n, i | Live(d', n, i) && n == dir :: i == id
      requires was.Some? ==> prior == if id in was.value && was.value[id] != dir then Some(was.value[id]) else None
      requires was.None? && prior.Some? ==> scanned(prior.value)
      requires forall n | n != dir && scanned(n) :: !Live(d', n, id)
      ensures Unique(d') <==> forall m | m != dir && !scanned(m) && Live(d, m, id) :: Cached(was, id, m)
    {
      if forall m | m != dir && !scanned(m) && Live(d, m, id) :: Cached(was, id, m) {
        forall n, m, i | Live(d', n, i) && Live(d', m, i) ensures n == m {
          if n != dir && m == dir { assert Live(d, n, id); }
          if m != dir && n == dir { assert Live(d, m, id); }
        }
      } else {
        var m :| m != dir && !scanned(m) && Live(d, m, id) && !Cached(was, id, m);
        assert Live(d', m, id);
      }
    }
  }

  // ------------------------------------------------------------------ lemmas

  /** What a claim may have done, wherever it stopped. */
  ghost predicate Claims(scanned: Name -> bool, d: Disk, dir: Name, id: Id, ok: bool, d': Disk) {
    && SameIds(d, d')
    && (forall n, i | Live(d', n, i) :: Live(d, n, i) || (n == dir && i == id && ok))
    && (ok ==> Live(d', dir, id))
    && (ok && !Live(d, dir, id) ==> forall n | n != dir && scanned(n) :: !Live(d', n, id))
  }

  /** A stopped claim never makes a second live owner. */
  lemma StoppedClaimKeepsUnique(scanned: Name -> bool, d: Disk, dir: Name, id: Id, d': Disk)
    requires Unique(d) && Claims(scanned, d, dir, id, false, d')
    ensures Unique(d')
  {
  }

  /** A claim of a directory that did not archive the object leaves it the unique
      live owner exactly when no live owner was hidden from the scan, or the
      hidden one was marked: that is, when none stays hidden. */
  lemma ClaimIsUniqueIff(scanned: Name -> bool, d: Disk, dir: Name, id: Id, d': Disk)
    requires Unique(d) && Claims(scanned, d, dir, id, true, d') && !Live(d, dir, id)
    ensures Unique(d') <==> !Hidden(scanned, d', dir, id)
  {
    if !Hidden(scanned, d', dir, id) {
      forall n, m, i | Live(d', n, i) && Live(d', m, i) ensures n == m {
        if i == id {
          assert n != dir && scanned(n) ==> !Live(d', n, id);
          assert m != dir && scanned(m) ==> !Live(d', m, id);
        }
      }
    }
  }

  predicate AnyChild(n: Name) {
    true
  }

  predicate AllButOld(n: Name) {
    n != "old"
  }

  /** Two live owners of one id: the older one is behind a symlink, so the claim
      of a fresh directory never sees it, and nothing needs to fail. */
  method SymlinkedOwnerIsMissed(l: Luck) returns (before: Disk, after: Disk, r: Claim)
    ensures Unique(before) && before == map["old" := Ident("ws-1", None)]
    ensures l.scan && l.mark && l.write ==> r.Claimed?
    ensures r.Claimed? ==> Live(after, "old", "ws-1") && Live(after, "new", "ws-1") && !Unique(after)
  {
    before := map["old" := Ident("ws-1", None)];
    var parent := new Parent(AllButOld, before);
    r := parent.ClaimDir("new", "ws-1", l);
    after := parent.disk;
    if r.Claimed? {
      assert Live(before, "old", "ws-1") && !Cached(None, "ws-1", "old");
      assert !Live(before, "new", "ws-1");
      assert "old" in after by { assert SameIds(before, after); }
    }
  }

  datatype Step = Claiming(dir: Name, id: Id, ok: bool) | Removing

  /** A claim, stopped anywhere, or directories taken away between runs. */
  ghost predicate Steps(d: Disk, s: Step, d': Disk) {
    match s
    case Claiming(dir, id, ok) => Claims(AnyChild, d, dir, id, ok, d')
    case Removing => d'.Keys <= d.Keys && forall n | n in d' :: d'[n] == d[n]
  }

  /** Where every child is a directory, at most one of them ever names an id,
      through any claims and renames, stopped anywhere. */
  lemma {:induction false} UniqueAlways(disks: seq<Disk>, steps: seq<Step>)
    requires |disks| == |steps| + 1 && Unique(disks[0])
    requires forall i | 0 <= i < |steps| :: Steps(disks[i], steps[i], disks[i + 1])
    ensures Unique(disks[|steps|])
    decreases |steps|
  {
    if steps != [] {
      var k := |steps| - 1;
      UniqueAlways(disks[..k + 1], steps[..k]);
      StepKeepsUnique(disks[k], steps[k], disks[k + 1]);
    }
  }

  lemma StepKeepsUnique(d: Disk, s: Step, d': Disk)
    requires Unique(d) && Steps(d, s, d')
    ensures Unique(d')
  {
    if s.Claiming? {
      if s.ok && !Live(d, s.dir, s.id) { ClaimIsUniqueIff(AnyChild, d, s.dir, s.id, d'); }
    } else {
      forall n, m, i | Live(d', n, i) && Live(d', m, i) ensures n == m {
        assert Live(d, n, i) && Live(d, m, i);
      }
    }
  }
}
