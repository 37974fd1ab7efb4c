/** The sweep that mirrors an archive tree (pkg/collect/sync.go, `SyncArchive`):
    what a sweep that finishes without a failure has made of the mirror. */
module Sweeps {
  import opened Records
  import opened Renames
  import opened Custodies

  /** What the shape of an archive path says about it. */
  datatype Shapes = Shapes(zip: Path -> bool, tarball: Path -> bool, sidecar: Path -> bool, eligible: Path -> bool)

  predicate Evictable(s: Shapes, p: Path) {
    s.zip(p) || s.tarball(p)
  }

  /** Mirror keys no local file needs to back. */
  predicate Exempt(s: Shapes, p: Path) {
    Evictable(s, p) || s.sidecar(p)
  }

  /** A sidecar is its bundle's name and a suffix, so no evictable surface shares a
      sidecar's own name. */
  ghost predicate Shaped(s: Shapes, stem: Path -> Path) {
    && (forall p | s.sidecar(p) :: !Evictable(s, p) && s.zip(stem(p)))
    && (forall p, q | Evictable(s, p) && s.sidecar(q) :: p != [] && q != [] && p[|p| - 1] != q[|q| - 1])
  }

  predicate EndsIn(name: string, suffix: string) {
    |name| >= |suffix| && name[|name| - |suffix|..] == suffix
  }

  /** A zip directly in a workspace's bundles directory. */
  predicate IsBundleZip(p: Path) {
    |p| == 6 && p[0] == "projects" && p[2] == "workspaces" && p[4] == "bundles" && EndsIn(p[5], ".zip")
  }

  predicate IsConfigTarball(p: Path) {
    |p| > 1 && p[0] == "config-versions" && EndsIn(p[|p| - 1], ".tar.gz")
  }

  const SIDECAR_SUFFIX := ".sidecar.ndjson"

  function Stem(p: Path): Path {
    if p != [] && EndsIn(p[|p| - 1], SIDECAR_SUFFIX)
    then p[..|p| - 1] + [p[|p| - 1][..|p[|p| - 1]| - |SIDECAR_SUFFIX|]]
    else p
  }

  predicate IsSidecar(p: Path) {
    p != [] && EndsIn(p[|p| - 1], SIDECAR_SUFFIX) && IsBundleZip(Stem(p))
  }

  /** The archive's own shapes are so. */
  lemma ArchiveIsShaped(eligible: Path -> bool)
    ensures Shaped(Shapes(IsBundleZip, IsConfigTarball, IsSidecar, eligible), Stem)
  {
    var s := Shapes(IsBundleZip, IsConfigTarball, IsSidecar, eligible);
    hide EndsIn, SIDECAR_SUFFIX;
    forall p | s.sidecar(p) ensures !Evictable(s, p) && s.zip(Stem(p)) {
      EndsOneWay(p[|p| - 1]);
    }
    forall p, q | Evictable(s, p) && s.sidecar(q) ensures p != [] && q != [] && p[|p| - 1] != q[|q| - 1] {
      EndsOneWay(q[|q| - 1]);
    }
  }

  /** A bundle is a zip in a workspace's bundles directory, a configuration tarball
      lies anywhere beneath its directory, and a sidecar is a bundle's name with a
      suffix, which its stem drops. */
  lemma ShapesAre(p: Path)
    ensures IsBundleZip(p) <==> exists project, workspace, name :: p == BundleAt(project, workspace, name + ".zip")
    ensures IsConfigTarball(p) <==> exists dirs, name :: p == TarballAt(dirs, name + ".tar.gz")
    ensures IsSidecar(p) <==> exists project, workspace, name ::
                                p == BundleAt(project, workspace, name + ".zip" + ".sidecar.ndjson")
    ensures forall project, workspace, name | p == BundleAt(project, workspace, name + ".zip" + ".sidecar.ndjson") ::
              Stem(p) == BundleAt(project, workspace, name + ".zip")
  {
    BundleIs(p);
    TarballIs(p);
    SidecarIs(p);
  }

  lemma BundleIs(p: Path)
    ensures IsBundleZip(p) <==> exists project, workspace, name :: p == BundleAt(project, workspace, name + ".zip")
  {
    hide EndsIn;
    if IsBundleZip(p) {
      EndsMeans(p[5], ".zip");
      assert p == BundleAt(p[1], p[3], p[5][..|p[5]| - 4] + ".zip");
    }
    if project, workspace, name :| p == BundleAt(project, workspace, name + ".zip") { EndsMeans(p[5], ".zip"); }
  }

  lemma TarballIs(p: Path)
    ensures IsConfigTarball(p) <==> exists dirs, name :: p == TarballAt(dirs, name + ".tar.gz")
  {
    hide EndsIn;
    if IsConfigTarball(p) {
      var last := p[|p| - 1];
      EndsMeans(last, ".tar.gz");
      var dirs, name := p[1..|p| - 1], last[..|last| - 7];
      assert p == TarballAt(dirs, name + ".tar.gz");
    }
    if dirs, name :| p == TarballAt(dirs, name + ".tar.gz") { EndsMeans(p[|p| - 1], ".tar.gz"); }
  }

  function TarballAt(dirs: Path, name: string): Path {
    ["config-versions"] + dirs + [name]
  }

  function BundleAt(project: string, workspace: string, name: string): Path {
    ["projects", project, "workspaces", workspace, "bundles", name]
  }

  lemma EndsMeans(name: string, suffix: string)
    ensures EndsIn(name, suffix) <==> exists stem :: name == stem + suffix
    ensures EndsIn(name, suffix) ==> name == name[..|name| - |suffix|] + suffix
    ensures forall stem | name == stem + suffix :: name[..|name| - |suffix|] == stem
  {
    if EndsIn(name, suffix) { assert name == name[..|name| - |suffix|] + suffix; }
    if stem :| name == stem + suffix { assert name[|stem|..] == suffix; }
  }

  lemma SidecarIs(p: Path)
    ensures IsSidecar(p) <==> exists project, workspace, name ::
                                p == BundleAt(project, workspace, name + ".zip" + ".sidecar.ndjson")
    ensures forall project, workspace, name | p == BundleAt(project, workspace, name + ".zip" + ".sidecar.ndjson") ::
              Stem(p) == BundleAt(project, workspace, name + ".zip")
  {
    hide EndsIn;
    if IsSidecar(p) {
      var last := p[|p| - 1];
      EndsMeans(last, SIDECAR_SUFFIX);
      var base := last[..|last| - |SIDECAR_SUFFIX|];
      EndsMeans(base, ".zip");
      assert p == BundleAt(p[1], p[3], base[..|base| - 4] + ".zip" + ".sidecar.ndjson");
    }
    forall project, workspace, name | p == BundleAt(project, workspace, name + ".zip" + ".sidecar.ndjson")
      ensures Stem(p) == BundleAt(project, workspace, name + ".zip") && IsSidecar(p)
    {
      assert p[5] == (name + ".zip") + SIDECAR_SUFFIX;
      EndsMeans(p[5], SIDECAR_SUFFIX);
      EndsMeans(name + ".zip", ".zip");
    }
  }

  lemma EndsOneWay(name: string)
    requires EndsIn(name, SIDECAR_SUFFIX)
    ensures !EndsIn(name, ".zip") && !EndsIn(name, ".tar.gz")
  {
    LastLetter(name, SIDECAR_SUFFIX);
    if EndsIn(name, ".zip") { LastLetter(name, ".zip"); }
    if EndsIn(name, ".tar.gz") { LastLetter(name, ".tar.gz"); }
  }

  lemma LastLetter(name: string, suffix: string)
    requires EndsIn(name, suffix) && suffix != ""
    ensures name != "" && name[|name| - 1] == suffix[|suffix| - 1]
  {
    assert name[|name| - 1] == name[|name| - |suffix|..][|suffix| - 1];
  }

  /** One key of a listing, which may omit a digest the object carries. */
  datatype Listed = Listed(size: nat, md5: Option<Content>)

  ghost predicate ListingOf(inventory: map<Path, Listed>, store: map<Path, Object>) {
    && inventory.Keys == store.Keys
    && forall k | k in inventory ::
         && inventory[k].size == |store[k].body|
         && (inventory[k].md5.Some? ==> inventory[k].md5 == store[k].md5)
  }

  datatype Presence = Present | Absent | Unknown

  datatype Marker = NoMarker | Settled | Restoring | Unreadable

  /** What the sweep reads besides the mirror: the walked files and aliases, and
      what the ledger and the file system answer. */
  datatype Tree = Tree(
    files: seq<Path>, aliases: Aliases, sorted: seq<Path>, exists_: Path -> Presence, sealed: Path -> bool,
    known: Path -> bool, lost: Path -> bool, reshaped: Path -> bool, marker: Marker, resumed: bool)

  /** Which requests fault. */
  datatype Weather = Weather(
    stat: Path -> bool, head: Path -> bool, hash: Path -> bool, put: Path -> Upload, luck: Path -> Luck,
    heal: Path -> HealLuck, deletes: Path -> bool)

  /** How the heal of one surface goes. */
  datatype HealLuck = HealLuck(copied: Option<Object>, head: bool, rehead: bool, readBack: bool, discard: bool, release: bool)

  /** A copy that lands carries truthful digests. */
  ghost predicate HealsTruly(w: Weather) {
    forall p | w.heal(p).copied.Some? :: Truthful(w.heal(p).copied.value)
  }

  /** The aliases, each once, in the order they are tried. */
  ghost predicate InOrder(t: Tree) {
    Elements(t.sorted) == t.aliases.Keys && |t.sorted| == |t.aliases|
  }

  /** Every walked file is there. */
  ghost predicate AllLocal(t: Tree, local: map<Path, Content>) {
    forall p | p in t.files :: p in local
  }

  const PRUNE_FLOOR := 100

  datatype Action = Skip | Evict | Sync | Suspect

  // ---------------------------------------------------------- one mirrored file

  /** The mirror holds the file's content, or an object of its size that it was
      never told the digest of. */
  predicate MirrorsFile(store: map<Path, Object>, p: Path, c: Content) {
    p in store && (store[p].body == c || (store[p].md5.None? && |store[p].body| == |c|))
  }

  /** The listing tells the truth about one key. */
  ghost predicate ListedAs(inventory: map<Path, Listed>, store: map<Path, Object>, p: Path) {
    && (p in inventory <==> p in store)
    && (p in inventory ==>
          && inventory[p].size == |store[p].body|
          && (inventory[p].md5.Some? ==> inventory[p].md5 == store[p].md5))
  }

  /** What the sweep does with one walked file. */
  function Classify(s: Shapes, proof: Proof, stat: bool, p: Path, size: nat): Action {
    if s.zip(p) then if proof.Sealed? then Evict else Skip
    else if s.tarball(p) then
      if !proof.Settled? || proof.signature.None? || !proof.durable then Skip
      else if stat && proof.signature.value.size == size then Evict
      else Suspect
    else Sync
  }

  /** How the prune reads one key of the listing. */
  datatype Reading = Backed | Spared | Reshaped | Ineligible | Fresh | Unbacked | Unsure

  function Read(s: Shapes, t: Tree, k: Path): Reading {
    if k in t.files then Backed
    else if Exempt(s, k) then Spared
    else if !s.eligible(k) then Ineligible
    else match t.exists_(k)
      case Unknown => Unsure
      case Present => Spared
      case Absent => if t.known(k) && t.reshaped(k) then Reshaped else if t.lost(k) then Fresh else Unbacked
  }

  // ------------------------------------------------------------- only copies

  /** The keys that may hold a surface: its path's and its historical spellings'. */
  ghost predicate IsKey(t: Tree, o: Path, k: Path) {
    k == o || Respells(t.aliases, |t.aliases|, o, k)
  }

  /** No other surface may be held under one of this one's keys. */
  ghost predicate Alone(t: Tree, owed: iset<Path>, o: Path) {
    forall q, k | q in owed && q != o && IsKey(t, q, k) :: !IsKey(t, o, k)
  }

  /** A historical copy is where it was, or the current key holds an object of its
      size with its content or the recorded one. */
  predicate Carried(o: Path, want: Option<Content>, before: map<Path, Object>, after: map<Path, Object>, h: Path)
    requires h in before
  {
    || (h in after && after[h] == before[h])
    || (o in after && |after[o].body| == |before[h].body|
        && (after[o].body == before[h].body || want == Some(after[o].body)))
  }

  /** What becomes of the copy of a surface under one key: if its own key was
      listed, that object stays; if not, each historical one stays or is carried. */
  ghost predicate Outlives(t: Tree, o: Path, want: Option<Content>, listed: bool, before: map<Path, Object>,
                           after: map<Path, Object>, h: Path)
  {
    h in before ==>
      if listed then h == o ==> h in after && after[h] == before[h]
      else Respells(t.aliases, |t.aliases|, o, h) ==> Carried(o, want, before, after, h)
  }

  ghost predicate CopiesOutlive(t: Tree, o: Path, want: Option<Content>, listed: bool, before: map<Path, Object>,
                                after: map<Path, Object>)
  {
    forall h :: Outlives(t, o, want, listed, before, after, h)
  }

  /** Where no alias lies beneath another and no owed surface beneath any, every
      owed surface is alone. */
  lemma AloneOutsideAliases(t: Tree, owed: iset<Path>, o: Path)
    requires o in owed && (forall a, b | a in t.aliases && b in t.aliases && a <= b :: a == b)
    requires forall q, a | q in owed && a in t.aliases :: !(a < q)
    ensures Alone(t, owed, o)
  {
    forall q, k | q in owed && q != o && IsKey(t, q, k) ensures !IsKey(t, o, k) {
      if IsKey(t, o, k) {
        var i := StepsTo(t, o, k);
        var j := StepsTo(t, q, k);
        SpelledOnce(t.aliases, i, j, o, q, k);
      }
    }
  }

  lemma StepsTo(t: Tree, o: Path, k: Path) returns (n: nat)
    requires IsKey(t, o, k)
    ensures Spells(t.aliases, n, o, k)
  {
    n := 0;
    if k != o { n :| Spells(t.aliases, n, o, k); }
  }

  /** A spelling leads back one way only. */
  lemma {:induction false} SpelledOnce(aliases: Aliases, i: nat, j: nat, p: Path, q: Path, k: Path)
    requires Spells(aliases, i, p, k) && Spells(aliases, j, q, k)
    requires forall a, b | a in aliases && b in aliases && a <= b :: a == b
    requires forall a | a in aliases :: !(a < p) && !(a < q)
    ensures p == q
    decreases i
  {
    hide OneStep;
    if i == 0 && j > 0 { var a := SpelledBeneath(aliases, j, q, k); }
    if j == 0 && i > 0 { var a := SpelledBeneath(aliases, i, p, k); }
    if i > 0 && j > 0 {
      var m :| Spells(aliases, i - 1, p, m) && OneStep(aliases, m, k);
      var n :| Spells(aliases, j - 1, q, n) && OneStep(aliases, n, k);
      StepBack(aliases, m, n, k);
      SpelledOnce(aliases, i - 1, j - 1, p, q, m);
    }
  }

  lemma Comparable(a: Path, b: Path, k: Path)
    requires a <= k && b <= k
    ensures a <= b || b <= a
  {
    if |a| <= |b| { assert a == b[..|a|]; } else { assert b == a[..|b|]; }
  }

  lemma StepBack(aliases: Aliases, m: Path, n: Path, k: Path)
    requires OneStep(aliases, m, k) && OneStep(aliases, n, k)
    requires forall a, b | a in aliases && b in aliases && a <= b :: a == b
    ensures m == n
  {
    OneStepIs(aliases, m, k);
    OneStepIs(aliases, n, k);
    var a :| a in aliases && Substitute(aliases, a, m) == Some(k);
    var b :| b in aliases && Substitute(aliases, b, n) == Some(k);
    Comparable(a, b, k);
    assert m == aliases[a] + k[|a|..] && n == aliases[a] + k[|a|..];
  }

  class Sweep {
    const shapes: Shapes
    const mirror: Mirror
    var failed: nat

    constructor (shapes: Shapes, mirror: Mirror)
      ensures this.shapes == shapes && this.mirror == mirror && failed == 0
    {
      this.shapes, this.mirror, failed := shapes, mirror, 0;
    }

    /** Whether a file's mirrored copy is absent or differs, as far as the listing,
        one probe, and the digests they carry can tell. */
    method UploadNeeded(p: Path, inventory: map<Path, Listed>, w: Weather) returns (fault: bool, needed: bool)
      requires Honest(mirror.W()) && p in mirror.local && ListedAs(inventory, mirror.store, p)
      ensures !fault ==> (needed <==> !MirrorsFile(mirror.store, p, mirror.local[p]))
      ensures w.stat(p) && w.head(p) && w.hash(p) ==> !fault
    {
      fault, needed := false, false;
      if !w.stat(p) {
        return true, false;
      }
      if p !in inventory || inventory[p].size != |mirror.local[p]| {
        return false, true;
      }
      var digest := inventory[p].md5;
      if digest.None? {
        if !w.head(p) {
          return true, false;
        }
        digest := mirror.store[p].md5;
      }
      if digest.Some? {
        if !w.hash(p) {
          return true, false;
        }
        needed := digest.value != mirror.local[p];
      }
    }

    /** Nothing faults while one file is settled. */
    predicate Calm(w: Weather, p: Path) {
      w.stat(p) && w.head(p) && w.hash(p) && w.put(p).Uploaded? && w.put(p).reported
    }

    /** A sidecar the mirror holds with other content: it is left, and counted. */
    predicate Clashes(store: map<Path, Object>, p: Path, c: Content) {
      shapes.sidecar(p) && p in store && !MirrorsFile(store, p, c)
    }

    /** Settles one file: uploads it when its copy is absent or differs, except
        over a sidecar the mirror already holds. */
    method SyncFile(p: Path, inventory: map<Path, Listed>, w: Weather)
      requires Honest(mirror.W()) && p in mirror.local && ListedAs(inventory, mirror.store, p)
      modifies this`failed, mirror`store
      ensures Honest(mirror.W()) && failed >= old(failed) && Aside(old(mirror.store), mirror.store, {p})
      ensures failed == old(failed) ==> MirrorsFile(mirror.store, p, mirror.local[p])
      ensures Calm(w, p) ==> (failed == old(failed) <==> !Clashes(old(mirror.store), p, mirror.local[p]))
      ensures MirrorsFile(old(mirror.store), p, mirror.local[p]) ==> mirror.store == old(mirror.store)
      ensures At(mirror.store, p) == At(old(mirror.store), p) || (p in mirror.store && mirror.store[p].body == mirror.local[p])
      ensures shapes.sidecar(p) && p in old(mirror.store) ==> mirror.store == old(mirror.store)
    {
      var fault, needed := UploadNeeded(p, inventory, w);
      if !fault && needed && shapes.sidecar(p) && p in inventory {
        fault := true;
      }
      if !fault && needed {
        match w.put(p)
        case Uploaded(sha, md5, reported) =>
          var c := mirror.local[p];
          mirror.store := mirror.store[p := Object(c, if sha then Some(c) else None, if md5 then Some(c) else None)];
          fault := !reported;
        case NotUploaded => fault := true;
      }
      if fault { failed := failed + 1; }
    }

    /** Settles every file of the search layer. */
    method SyncFiles(files: seq<Path>, inventory: map<Path, Listed>, w: Weather)
      requires Honest(mirror.W()) && NoRepeats(files)
      requires forall p | p in files :: p in mirror.local && ListedAs(inventory, mirror.store, p)
      modifies this`failed, mirror`store
      ensures Honest(mirror.W()) && failed >= old(failed) && Aside(old(mirror.store), mirror.store, Elements(files))
      ensures failed == old(failed) ==> forall p | p in files :: MirrorsFile(mirror.store, p, mirror.local[p])
      ensures (forall p | p in files :: Calm(w, p) && !Clashes(old(mirror.store), p, mirror.local[p])) ==> failed == old(failed)
      ensures SidecarsKept(old(mirror.store), mirror.store)
      ensures old(mirror.store).Keys <= mirror.store.Keys
    {
      for i := 0 to |files|
        invariant Honest(mirror.W()) && failed >= old(failed)
        invariant (forall p | p in files :: Calm(w, p) && !Clashes(old(mirror.store), p, mirror.local[p])) ==> failed == old(failed)
        invariant failed == old(failed) ==> forall j | 0 <= j < i :: MirrorsFile(mirror.store, files[j], mirror.local[files[j]])
        invariant Aside(old(mirror.store), mirror.store, Elements(files[..i]))
        invariant SidecarsKept(old(mirror.store), mirror.store) && old(mirror.store).Keys <= mirror.store.Keys
      {
        assert files[i] !in files[..i] && Elements(files[..i + 1]) == Elements(files[..i]) + {files[i]};
        assert At(mirror.store, files[i]) == At(old(mirror.store), files[i]);
        label before:
        SyncFile(files[i], inventory, w);
        OneKey(old@before(mirror.store), mirror.store, files[i]);
        forall j | 0 <= j < i ensures At(mirror.store, files[j]) == At(old@before(mirror.store), files[j]) {
          assert files[j] != files[i];
        }
      }
      assert files[..|files|] == files;
    }

    /** A mirrored sidecar never changes its content. */
    ghost predicate SidecarsKept(before: map<Path, Object>, after: map<Path, Object>) {
      forall k | k in before && shapes.sidecar(k) :: k in after && after[k] == before[k]
    }

    lemma OneKey(before: map<Path, Object>, after: map<Path, Object>, p: Path)
      requires Aside(before, after, {p}) && (p in before ==> p in after)
      requires shapes.sidecar(p) && p in before ==> after == before
      ensures SidecarsKept(before, after) && before.Keys <= after.Keys
    {
      forall k | k in before ensures k in after && (k != p ==> after[k] == before[k]) {
        if k != p { assert At(after, k) == At(before, k); }
      }
    }

    // ------------------------------------------------------------ the evictions

    /** A proven surface moves when nothing faults and its key, if taken, holds the
        same bytes. */
    predicate Movable(was: World, w: Weather, p: Path) {
      && Lucky(w.luck(p)) && p in was.local && Recorded(mirror.surface(p), mirror.proof(p), was.local[p])
      && (p in was.store ==> was.store[p].body == was.local[p])
    }

    /** Every local file is still there, or it is one of these and its recorded bytes
        are at its key. */
    ghost predicate LocalKept(files: seq<Path>, before: World, after: World) {
      forall p | p in before.local ::
        || (p in after.local && after.local[p] == before.local[p])
        || (p in files && Recorded(mirror.surface(p), mirror.proof(p), before.local[p])
            && p in after.store && after.store[p].body == before.local[p])
    }

    /** Evicts every cold surface; a refusal counts, and costs nothing. */
    method EvictAll(files: seq<Path>, w: Weather)
      requires Honest(mirror.W()) && NoRepeats(files) && forall p | p in files :: p in mirror.local
      modifies this`failed, mirror
      ensures Honest(mirror.W()) && failed >= old(failed) && Aside(old(mirror.store), mirror.store, Elements(files))
      ensures old(mirror.store).Keys <= mirror.store.Keys
      ensures forall k | k in old(mirror.store) :: mirror.store[k] == old(mirror.store)[k]
      ensures forall p | p in old(mirror.local) && p !in files :: p in mirror.local && mirror.local[p] == old(mirror.local)[p]
      ensures failed == old(failed) ==>
                forall p | p in files :: p !in mirror.local && p in mirror.store && mirror.store[p].body == old(mirror.local)[p]
      ensures (forall p | p in files :: Movable(old(mirror.W()), w, p)) ==> failed == old(failed)
      ensures LocalKept(files, old(mirror.W()), mirror.W())
    {
      for i := 0 to |files|
        invariant Honest(mirror.W()) && failed >= old(failed)
        invariant LocalKept(files, old(mirror.W()), mirror.W())
        invariant Aside(old(mirror.store), mirror.store, Elements(files[..i]))
        invariant forall k | k in old(mirror.store) :: k in mirror.store && mirror.store[k] == old(mirror.store)[k]
        invariant forall p | p in old(mirror.local) && p !in files[..i] :: p in mirror.local && mirror.local[p] == old(mirror.local)[p]
        invariant mirror.local.Keys <= old(mirror.local).Keys
        invariant (forall p | p in files :: Movable(old(mirror.W()), w, p)) ==> failed == old(failed)
        invariant failed == old(failed) ==>
                    forall j | 0 <= j < i :: files[j] !in mirror.local && files[j] in mirror.store
                                             && mirror.store[files[j]].body == old(mirror.local)[files[j]]
      {
        assert files[i] !in files[..i] && Elements(files[..i + 1]) == Elements(files[..i]) + {files[i]};
        assert At(mirror.store, files[i]) == At(old(mirror.store), files[i]) && files[i] in files;
        ghost var now := mirror.W();
        var done := mirror.OffloadFile(files[i], w.luck(files[i]));
        KeptOn(files, old(mirror.W()), now, files[i], mirror.W());
        if !done { failed := failed + 1; }
      }
      assert files[..|files|] == files;
    }

    lemma KeptOn(files: seq<Path>, before: World, w: World, p: Path, w': World)
      requires p in files && LocalKept(files, before, w) && Attempted(mirror.surface(p), mirror.proof(p), w, p, w')
      ensures LocalKept(files, before, w')
    {
      hide Recorded;
    }

    // ------------------------------------------------------- only-copy checks

    /** The listing holds an obligation under its own key or, failing that, under
        the first of its historical spellings that is listed, at the recorded
        size if one was recorded. */
    ghost predicate Held(inventory: map<Path, Listed>, t: Tree, p: Path, size: nat) {
      exists k :: k in inventory && (size > 0 ==> inventory[k].size == size)
                  && (k == p || (p !in inventory && Respells(t.aliases, |t.aliases|, p, k)))
    }

    /** The listing holds an obligation under its own key. */
    predicate HeldHere(inventory: map<Path, Listed>, p: Path, size: nat) {
      p in inventory && (size == 0 || inventory[p].size == size)
    }

    method FirstListed(inventory: map<Path, Listed>, candidates: seq<Path>) returns (hist: Option<Path>)
      ensures hist.Some? ==> hist.value in inventory && hist.value in candidates
      ensures hist.None? ==> forall q | q in candidates :: q !in inventory
    {
      for i := 0 to |candidates|
        invariant forall j | 0 <= j < i :: candidates[j] !in inventory
      {
        if candidates[i] in inventory {
          return Some(candidates[i]);
        }
      }
      hist := None;
    }

    /** Keys that spell an obligation's path historically. */
    ghost predicate Historical(t: Tree, obligations: seq<Path>, k: Path) {
      exists o :: o in obligations && Respells(t.aliases, |t.aliases|, o, k)
    }

    /** Retries the release of historical copies behind a satisfied key. */
    method ReleaseHistorical(inventory: map<Path, Listed>, t: Tree, p: Path, w: Weather)
      requires Honest(mirror.W()) && InOrder(t)
      modifies mirror`store
      ensures Honest(mirror.W()) && mirror.store.Keys <= old(mirror.store).Keys
      ensures forall k | !Respells(t.aliases, |t.aliases|, p, k) :: At(mirror.store, k) == At(old(mirror.store), k)
      ensures forall k | Respells(t.aliases, |t.aliases|, p, k) ::
                At(mirror.store, k) == if k in inventory && w.deletes(k) then None else At(old(mirror.store), k)
    {
      hide Respells, Honest, InOrder, Released;
      assert Elements(t.sorted) == t.aliases.Keys && |t.sorted| == |t.aliases| by { Ordered(t); }
      var candidates := AliasRewrites(t.aliases, t.sorted, p);
      ghost var was := mirror.store;
      ReleasedNone(inventory, w, was);
      assert candidates[..0] == [];
      for i := 0 to |candidates|
        invariant Honest(mirror.W()) && Released(inventory, w, candidates[..i], was, mirror.store)
      {
        assert candidates[..i + 1] == candidates[..i] + [candidates[i]];
        ReleasedMore(inventory, w, candidates[..i], candidates[i], was, mirror.store);
        if candidates[i] in inventory && w.deletes(candidates[i]) {
          FewerHonest(mirror.store, mirror.store - {candidates[i]});
          mirror.store := mirror.store - {candidates[i]};
        }
      }
      assert candidates[..|candidates|] == candidates;
      ReleasedAll(inventory, w, candidates, was, mirror.store);
    }

    /** Of these keys, those the listing names and the mirror agrees to delete are
        gone. */
    ghost predicate Released(inventory: map<Path, Listed>, w: Weather, keys: seq<Path>, before: map<Path, Object>,
                             after: map<Path, Object>)
    {
      forall k :: At(after, k) == if k in keys && k in inventory && w.deletes(k) then None else At(before, k)
    }

    lemma ReleasedNone(inventory: map<Path, Listed>, w: Weather, store: map<Path, Object>)
      ensures Released(inventory, w, [], store, store)
    {
    }

    lemma ReleasedMore(inventory: map<Path, Listed>, w: Weather, keys: seq<Path>, c: Path, before: map<Path, Object>,
                       store: map<Path, Object>)
      requires Released(inventory, w, keys, before, store)
      ensures Released(inventory, w, keys + [c], before, if c in inventory && w.deletes(c) then store - {c} else store)
    {
    }

    lemma ReleasedAll(inventory: map<Path, Listed>, w: Weather, keys: seq<Path>, before: map<Path, Object>,
                      after: map<Path, Object>)
      requires Released(inventory, w, keys, before, after)
      ensures after.Keys <= before.Keys && forall k | k !in keys :: At(after, k) == At(before, k)
      ensures forall k | k in keys :: At(after, k) == if k in inventory && w.deletes(k) then None else At(before, k)
    {
      forall k | k in after ensures k in before { assert At(after, k) != None; }
    }

    lemma Ordered(t: Tree)
      requires InOrder(t)
      ensures Elements(t.sorted) == t.aliases.Keys && |t.sorted| == |t.aliases|
    {
    }

    /** A heal that nothing stops: the copy is faithful, matches what the ledger
        recorded, and something can confirm it. */
    predicate Healable(store: map<Path, Object>, h: Path, want: Option<Content>, l: HealLuck) {
      && l.head && l.rehead && l.readBack && l.release && h in store && l.copied.Some? && l.copied.value.body == store[h].body
      && (want.Some? ==> l.copied.value.body == want.value)
      && (want.Some? || (store[h].sha.Some? && l.copied.value.sha.Some?) || (store[h].md5.Some? && l.copied.value.md5.Some?))
    }

    /** A historical copy of the right size was found, and if nothing stops its heal
        it is now under the current key alone. */
    ghost predicate Healed(inventory: map<Path, Listed>, t: Tree, p: Path, size: nat, want: Option<Content>, l: HealLuck,
                           before: map<Path, Object>, after: map<Path, Object>)
    {
      exists h ::
        && Respells(t.aliases, |t.aliases|, p, h) && h in inventory && (size > 0 ==> inventory[h].size == size)
        && (Healable(before, h, want, l) ==> h !in after && p in after && Some(after[p]) == l.copied)
    }

    /** Proves the mirror still holds one surface whose only copy it is, and
        brings a copy under a historical key onto the current one. */
    method VerifyOne(inventory: map<Path, Listed>, t: Tree, p: Path, size: nat, want: Option<Content>, w: Weather)
      requires Honest(mirror.W()) && InOrder(t)
      requires w.heal(p).copied.Some? ==> Truthful(w.heal(p).copied.value)
      modifies this`failed, mirror`store
      ensures Honest(mirror.W()) && failed >= old(failed) && mirror.store.Keys <= old(mirror.store).Keys + {p}
      ensures failed == old(failed) ==> Held(inventory, t, p, size)
      ensures p in inventory ==> (failed == old(failed) <==> size == 0 || inventory[p].size == size)
      ensures p !in inventory && size == 0 ==> (failed == old(failed) <==> Held(inventory, t, p, size))
      ensures forall k | !IsKey(t, p, k) :: At(mirror.store, k) == At(old(mirror.store), k)
      ensures CopiesOutlive(t, p, want, p in inventory, old(mirror.store), mirror.store)
      ensures HeldHere(inventory, p, size) ==>
                forall k | Respells(t.aliases, |t.aliases|, p, k) && k in inventory && w.deletes(k) :: k !in mirror.store
      ensures p !in inventory && failed == old(failed) ==>
                Healed(inventory, t, p, size, want, w.heal(p), old(mirror.store), mirror.store)
    {
      hide Held, CopiesOutlive, Honest, Healed;
      if p in inventory {
        assert Held(inventory, t, p, size) <==> size == 0 || inventory[p].size == size by { HeldAtOwn(inventory, t, p, size); }
        if size > 0 && inventory[p].size != size {
          failed := failed + 1;
        } else {
          ReleaseHistorical(inventory, t, p, w);
        }
        OwnOutlives(t, p, want, old(mirror.store), mirror.store);
      } else {
        VerifyElsewhere(inventory, t, p, size, want, w);
      }
    }

    lemma HeldAtOwn(inventory: map<Path, Listed>, t: Tree, p: Path, size: nat)
      requires p in inventory
      ensures Held(inventory, t, p, size) <==> size == 0 || inventory[p].size == size
    {
      hide Respells;
    }

    lemma OwnOutlives(t: Tree, p: Path, want: Option<Content>, before: map<Path, Object>, after: map<Path, Object>)
      requires At(after, p) == At(before, p)
      ensures CopiesOutlive(t, p, want, true, before, after)
    {
      hide Respells;
    }

    /** The check of a surface whose own key is not listed. */
    method VerifyElsewhere(inventory: map<Path, Listed>, t: Tree, p: Path, size: nat, want: Option<Content>, w: Weather)
      requires Honest(mirror.W()) && InOrder(t) && p !in inventory
      requires w.heal(p).copied.Some? ==> Truthful(w.heal(p).copied.value)
      modifies this`failed, mirror`store
      ensures Honest(mirror.W()) && failed >= old(failed) && mirror.store.Keys <= old(mirror.store).Keys + {p}
      ensures failed == old(failed) ==> Held(inventory, t, p, size)
      ensures size == 0 ==> (failed == old(failed) <==> Held(inventory, t, p, size))
      ensures forall k | !IsKey(t, p, k) :: At(mirror.store, k) == At(old(mirror.store), k)
      ensures CopiesOutlive(t, p, want, false, old(mirror.store), mirror.store)
      ensures failed == old(failed) ==> Healed(inventory, t, p, size, want, w.heal(p), old(mirror.store), mirror.store)
    {
      hide Respells, Honest, Carried, Healable;
      var candidates := AliasRewrites(t.aliases, t.sorted, p);
      var hist := FirstListed(inventory, candidates);
      StillOutlives(t, p, want, mirror.store);
      if hist.None? || (size > 0 && inventory[hist.value].size != size) {
        failed := failed + 1;
      } else {
        assert hist.value in candidates && Respells(t.aliases, |t.aliases|, p, hist.value);
        NeverItself(t, p);
        HealOne(hist.value, p, want, w.heal(p));
        HealedOutlives(t, p, want, hist.value, old(mirror.store), mirror.store);
      }
    }

    lemma NeverItself(t: Tree, p: Path)
      ensures !Respells(t.aliases, |t.aliases|, p, p)
    {
    }

    lemma StillOutlives(t: Tree, p: Path, want: Option<Content>, s: map<Path, Object>)
      ensures CopiesOutlive(t, p, want, false, s, s)
    {
      hide Respells;
    }

    lemma HealedOutlives(t: Tree, p: Path, want: Option<Content>, hist: Path, before: map<Path, Object>, after: map<Path, Object>)
      requires forall k | k != p && k != hist :: At(after, k) == At(before, k)
      requires hist in before ==> Carried(p, want, before, after, hist)
      ensures CopiesOutlive(t, p, want, false, before, after)
    {
      NeverItself(t, p);
      hide Respells;
      forall h ensures Outlives(t, p, want, false, before, after, h) {
        if h != p && h != hist { assert At(after, h) == At(before, h); }
      }
    }

    /** Heals one historical copy, touching its two keys alone. */
    method HealOne(hist: Path, p: Path, want: Option<Content>, l: HealLuck)
      requires Honest(mirror.W()) && hist != p && (l.copied.Some? ==> Truthful(l.copied.value))
      modifies mirror`store
      ensures Honest(mirror.W()) && mirror.store.Keys <= old(mirror.store).Keys + {p}
      ensures forall k | k != p && k != hist :: At(mirror.store, k) == At(old(mirror.store), k)
      ensures hist in old(mirror.store) ==> Carried(p, want, old(mirror.store), mirror.store, hist)
      ensures Healable(old(mirror.store), hist, want, l) ==>
                hist !in mirror.store && p in mirror.store && Some(mirror.store[p]) == l.copied
    {
      hide Honest;
      mirror.Heal(hist, p, want, l.copied, l.head, l.rehead, l.readBack, l.discard, l.release);
      forall k | k in mirror.store && k != p ensures k in old(mirror.store) {
        if k != hist { assert At(mirror.store, k) == At(old(mirror.store), k); }
      }
    }

    /** Verifies every surface whose only copy is the mirror's; whether or not any
        is missing, none that is there is lost. */
    method VerifyEvicted(inventory: map<Path, Listed>, t: Tree, obligations: seq<Path>, sizes: Path -> nat,
                         wants: Path -> Option<Content>, w: Weather)
      requires Honest(mirror.W()) && InOrder(t)
      requires NoRepeats(obligations)
      requires HealsTruly(w)
      modifies this`failed, mirror`store
      ensures Honest(mirror.W()) && failed >= old(failed)
      ensures mirror.store.Keys <= old(mirror.store).Keys + Elements(obligations)
      ensures failed == old(failed) ==> AllHeld(inventory, t, obligations, sizes)
      ensures (forall p | p in obligations :: HeldHere(inventory, p, sizes(p))) ==> failed == old(failed)
      ensures Elsewhere(t, obligations, old(mirror.store), mirror.store)
      ensures forall o | o in obligations && Alone(t, Owing(obligations), o) ::
                CopiesOutlive(t, o, wants(o), o in inventory, old(mirror.store), mirror.store)
    {
      hide Held, Honest, Alone, CopiesOutlive, Cared, NoRepeats, AllHeld, Owing, Elsewhere, Elements, HealsTruly, InOrder;
      ghost var s0 := mirror.store;
      StartCared(t, inventory, obligations, sizes, wants, s0);
      for i := 0 to |obligations|
        invariant Honest(mirror.W()) && failed >= old(failed) && s0 == old(mirror.store)
        invariant mirror.store.Keys <= s0.Keys + Elements(obligations)
        invariant failed == old(failed) ==> AllHeld(inventory, t, obligations[..i], sizes)
        invariant (forall p | p in obligations :: HeldHere(inventory, p, sizes(p))) ==> failed == old(failed)
        invariant Elsewhere(t, obligations, s0, mirror.store)
        invariant Cared(t, inventory, obligations, wants, i, s0, mirror.store)
      {
        ghost var s := mirror.store;
        HeldMore(inventory, t, obligations, sizes, i);
        VerifyNext(inventory, t, obligations, i, sizes, wants, w);
        CaredMore(t, inventory, obligations, wants, i, s0, s, mirror.store);
        ElsewhereMore(t, obligations, i, s0, s, mirror.store);
      }
      assert obligations[..|obligations|] == obligations;
      AllCared(t, inventory, obligations, wants, s0, mirror.store);
    }

    /** The next surface in turn. */
    method VerifyNext(inventory: map<Path, Listed>, t: Tree, obligations: seq<Path>, i: nat, sizes: Path -> nat,
                      wants: Path -> Option<Content>, w: Weather)
      requires Honest(mirror.W()) && InOrder(t) && i < |obligations|
      requires HealsTruly(w)
      modifies this`failed, mirror`store
      ensures Honest(mirror.W()) && failed >= old(failed)
      ensures mirror.store.Keys <= old(mirror.store).Keys + Elements(obligations)
      ensures failed == old(failed) ==> Held(inventory, t, obligations[i], sizes(obligations[i]))
      ensures HeldHere(inventory, obligations[i], sizes(obligations[i])) ==> failed == old(failed)
      ensures Framed(t, obligations[i], old(mirror.store), mirror.store)
      ensures CopiesOutlive(t, obligations[i], wants(obligations[i]), obligations[i] in inventory, old(mirror.store), mirror.store)
    {
      hide Held, Honest, CopiesOutlive, IsKey, Truthful;
      var p := obligations[i];
      assert p in obligations;
      VerifyOne(inventory, t, p, sizes(p), wants(p), w);
    }

    /** Nothing but one surface's keys changed. */
    ghost predicate Framed(t: Tree, o: Path, before: map<Path, Object>, after: map<Path, Object>) {
      forall k | !IsKey(t, o, k) :: At(after, k) == At(before, k)
    }

    /** Nothing but the surfaces' keys changed. */
    ghost predicate Elsewhere(t: Tree, obligations: seq<Path>, before: map<Path, Object>, after: map<Path, Object>) {
      forall k | k !in obligations && !Historical(t, obligations, k) :: At(after, k) == At(before, k)
    }

    lemma ElsewhereMore(t: Tree, obligations: seq<Path>, i: nat, before: map<Path, Object>, s: map<Path, Object>,
                        after: map<Path, Object>)
      requires i < |obligations| && Elsewhere(t, obligations, before, s) && Framed(t, obligations[i], s, after)
      ensures Elsewhere(t, obligations, before, after)
    {
      NotHistorical(t, obligations, i);
      hide Historical, IsKey;
    }

    ghost function Owing(obligations: seq<Path>): iset<Path> {
      iset o | o in obligations
    }

    /** The copies of the first `i` surfaces outlive their checks, and those of the
        others are as they were. */
    ghost predicate Cared(t: Tree, inventory: map<Path, Listed>, obligations: seq<Path>, wants: Path -> Option<Content>,
                          i: nat, before: map<Path, Object>, after: map<Path, Object>)
    {
      forall j | 0 <= j < |obligations| && Alone(t, Owing(obligations), obligations[j]) ::
        if j < i then CopiesOutlive(t, obligations[j], wants(obligations[j]), obligations[j] in inventory, before, after)
        else Same(t, obligations[j], before, after)
    }

    ghost predicate Same(t: Tree, o: Path, before: map<Path, Object>, after: map<Path, Object>) {
      forall k | IsKey(t, o, k) :: At(after, k) == At(before, k)
    }

    lemma StartCared(t: Tree, inventory: map<Path, Listed>, obligations: seq<Path>, sizes: Path -> nat,
                     wants: Path -> Option<Content>, s: map<Path, Object>)
      ensures Cared(t, inventory, obligations, wants, 0, s, s) && AllHeld(inventory, t, obligations[..0], sizes)
      ensures Elsewhere(t, obligations, s, s)
    {
    }

    lemma AllCared(t: Tree, inventory: map<Path, Listed>, obligations: seq<Path>, wants: Path -> Option<Content>,
                   before: map<Path, Object>, after: map<Path, Object>)
      requires Cared(t, inventory, obligations, wants, |obligations|, before, after)
      ensures forall o | o in obligations && Alone(t, Owing(obligations), o) ::
                CopiesOutlive(t, o, wants(o), o in inventory, before, after)
    {
      hide Alone, CopiesOutlive, Owing;
      forall o | o in obligations && Alone(t, Owing(obligations), o)
        ensures CopiesOutlive(t, o, wants(o), o in inventory, before, after)
      {
        var j :| 0 <= j < |obligations| && obligations[j] == o;
      }
    }

    /** A check of one surface leaves the keys of the others alone. */
    lemma CaredMore(t: Tree, inventory: map<Path, Listed>, obligations: seq<Path>, wants: Path -> Option<Content>, i: nat,
                    before: map<Path, Object>, s: map<Path, Object>, after: map<Path, Object>)
      requires i < |obligations| && NoRepeats(obligations) && Cared(t, inventory, obligations, wants, i, before, s)
      requires Framed(t, obligations[i], s, after)
      requires CopiesOutlive(t, obligations[i], wants(obligations[i]), obligations[i] in inventory, s, after)
      ensures Cared(t, inventory, obligations, wants, i + 1, before, after)
    {
      hide CopiesOutlive, Same, IsKey, Respells;
      forall j | 0 <= j < |obligations| && Alone(t, Owing(obligations), obligations[j])
        ensures if j < i + 1 then CopiesOutlive(t, obligations[j], wants(obligations[j]), obligations[j] in inventory, before, after)
                else Same(t, obligations[j], before, after)
      {
        var o := obligations[j];
        if j == i {
          SameThenChecked(t, inventory, o, wants, before, s, after);
        } else {
          assert obligations[i] in Owing(obligations) && obligations[i] != o;
          assert forall k | IsKey(t, o, k) :: At(after, k) == At(s, k);
          assert Same(t, o, s, after) by { SameIs(t, o, s, after); }
          ThenSame(t, inventory, o, wants, before, s, after);
        }
      }
    }

    lemma SameIs(t: Tree, o: Path, s: map<Path, Object>, after: map<Path, Object>)
      requires forall k | IsKey(t, o, k) :: At(after, k) == At(s, k)
      ensures Same(t, o, s, after)
    {
    }

    lemma SameThenChecked(t: Tree, inventory: map<Path, Listed>, o: Path, wants: Path -> Option<Content>,
                          before: map<Path, Object>, s: map<Path, Object>, after: map<Path, Object>)
      requires Same(t, o, before, s) && CopiesOutlive(t, o, wants(o), o in inventory, s, after)
      ensures CopiesOutlive(t, o, wants(o), o in inventory, before, after)
    {
      hide Respells;
      forall h ensures Outlives(t, o, wants(o), o in inventory, before, after, h) {
        assert IsKey(t, o, h) ==> At(s, h) == At(before, h);
        assert Outlives(t, o, wants(o), o in inventory, s, after, h);
      }
    }

    lemma ThenSame(t: Tree, inventory: map<Path, Listed>, o: Path, wants: Path -> Option<Content>,
                   before: map<Path, Object>, s: map<Path, Object>, after: map<Path, Object>)
      requires Same(t, o, s, after)
      ensures Same(t, o, before, s) ==> Same(t, o, before, after)
      ensures CopiesOutlive(t, o, wants(o), o in inventory, before, s) ==> CopiesOutlive(t, o, wants(o), o in inventory, before, after)
    {
      hide Respells;
      if CopiesOutlive(t, o, wants(o), o in inventory, before, s) {
        assert IsKey(t, o, o);
        forall h ensures Outlives(t, o, wants(o), o in inventory, before, after, h) {
          assert IsKey(t, o, h) ==> At(after, h) == At(s, h);
          assert Outlives(t, o, wants(o), o in inventory, before, s, h);
        }
      }
    }

    ghost predicate AllHeld(inventory: map<Path, Listed>, t: Tree, obligations: seq<Path>, sizes: Path -> nat) {
      forall p | p in obligations :: Held(inventory, t, p, sizes(p))
    }

    lemma HeldMore(inventory: map<Path, Listed>, t: Tree, obligations: seq<Path>, sizes: Path -> nat, i: nat)
      requires i < |obligations|
      ensures AllHeld(inventory, t, obligations[..i + 1], sizes)
              <==> AllHeld(inventory, t, obligations[..i], sizes) && Held(inventory, t, obligations[i], sizes(obligations[i]))
    {
      assert obligations[..i + 1] == obligations[..i] + [obligations[i]];
    }

    lemma NotHistorical(t: Tree, obligations: seq<Path>, i: nat)
      requires i < |obligations|
      ensures obligations[i] in obligations
      ensures forall k | k !in obligations && !Historical(t, obligations, k) :: !IsKey(t, obligations[i], k)
    {
      hide Respells;
      assert obligations[i] in obligations;
    }

    // ---------------------------------------------------------------- the prune

    /** The listed keys the prune reads one way. */
    function ReadAs(inventory: map<Path, Listed>, t: Tree, r: Reading): set<Path> {
      set k | k in inventory && Read(shapes, t, k) == r
    }

    /** Every unbacked key may go: they are few, or the matched keys outnumber
        them. */
    predicate Proportionate(inventory: map<Path, Listed>, t: Tree) {
      var unbacked, matched := |ReadAs(inventory, t, Unbacked)|, |ReadAs(inventory, t, Backed)|;
      unbacked <= PRUNE_FLOOR || unbacked <= matched
    }

    /** The keys a prune may delete. */
    function Prunable(inventory: map<Path, Listed>, t: Tree): set<Path> {
      if !Trusted(t) then {}
      else
        ReadAs(inventory, t, Reshaped) + ReadAs(inventory, t, Ineligible)
        + if Proportionate(inventory, t) then ReadAs(inventory, t, Unbacked) else {}
    }

    /** The keys nothing local backs. */
    function Backless(inventory: map<Path, Listed>, t: Tree): set<Path> {
      ReadAs(inventory, t, Reshaped) + ReadAs(inventory, t, Ineligible) + ReadAs(inventory, t, Unbacked)
    }

    predicate Trusted(t: Tree) {
      t.marker !in {Restoring, Unreadable} && t.resumed
    }

    /** Nothing is in doubt, and either nothing is to go or everything may and
        does. */
    predicate PrunesClean(inventory: map<Path, Listed>, t: Tree, w: Weather) {
      && ReadAs(inventory, t, Unsure) == {} && ReadAs(inventory, t, Fresh) == {}
      && (Backless(inventory, t) == {}
          || (Trusted(t) && Proportionate(inventory, t) && forall k | k in Prunable(inventory, t) :: w.deletes(k)))
    }

    lemma NothingToPrune(inventory: map<Path, Listed>, t: Tree, w: Weather)
      requires Backless(inventory, t) + ReadAs(inventory, t, Fresh) == {}
      ensures Prunable(inventory, t) == {} && (PrunesClean(inventory, t, w) <==> ReadAs(inventory, t, Unsure) == {})
    {
      hide ReadAs, Proportionate;
      assert Backless(inventory, t) == {} && ReadAs(inventory, t, Fresh) == {};
    }

    lemma RefusedPrune(inventory: map<Path, Listed>, t: Tree, w: Weather)
      requires Backless(inventory, t) + ReadAs(inventory, t, Fresh) != {} && !Trusted(t)
      ensures Prunable(inventory, t) == {} && !PrunesClean(inventory, t, w)
    {
      hide ReadAs, Proportionate, Backless;
      assert ReadAs(inventory, t, Fresh) == {} ==> Backless(inventory, t) != {};
    }

    lemma AllowedPrune(inventory: map<Path, Listed>, t: Tree, w: Weather)
      requires Backless(inventory, t) + ReadAs(inventory, t, Fresh) != {} && Trusted(t)
      ensures Prunable(inventory, t) == ReadAs(inventory, t, Reshaped) + ReadAs(inventory, t, Ineligible)
                                        + if Proportionate(inventory, t) then ReadAs(inventory, t, Unbacked) else {}
      ensures PrunesClean(inventory, t, w) <==>
              ReadAs(inventory, t, Unsure) == {} && ReadAs(inventory, t, Fresh) == {} && Proportionate(inventory, t)
              && forall k | k in Prunable(inventory, t) :: w.deletes(k)
    {
      hide ReadAs, Proportionate, Backless;
      assert ReadAs(inventory, t, Fresh) == {} ==> Backless(inventory, t) != {};
    }

    /** A listed key that no walked file backs and no shape protects. */
    predicate Loose(inventory: map<Path, Listed>, t: Tree, k: Path) {
      k in inventory && k !in t.files && !shapes.zip(k) && !shapes.tarball(k) && !shapes.sidecar(k)
    }

    /** A loose key with nothing at its path: it is no path the archive mirrors, or
        none is there. */
    predicate Stale(inventory: map<Path, Listed>, t: Tree, k: Path) {
      Loose(inventory, t, k) && (!shapes.eligible(k) || t.exists_(k) == Absent)
    }

    /** The archive itself moved what was there, or was never to mirror it. */
    predicate Explained(t: Tree, k: Path) {
      !shapes.eligible(k) || (t.known(k) && t.reshaped(k))
    }

    /** A stale key nothing explains; `lost` says its whole shard is missing. */
    function Unexplained(inventory: map<Path, Listed>, t: Tree, lost: bool): set<Path> {
      set k | k in inventory && Stale(inventory, t, k) && !Explained(t, k) && t.lost(k) == lost
    }

    /** Unexplained keys are too many to go: more than the floor, and more than the
        keys walked files back. */
    predicate TooMany(inventory: map<Path, Listed>, t: Tree) {
      var n := |Unexplained(inventory, t, false)|;
      n > 100 && n > |set k | k in inventory && k in t.files|
    }

    predicate Going(inventory: map<Path, Listed>, t: Tree, k: Path) {
      Stale(inventory, t, k) && (Explained(t, k) || (!t.lost(k) && !TooMany(inventory, t)))
    }

    /** What a prune may do.  While a restore is unfinished, its marker cannot be
        read, or the ledger was not resumed, nothing is deleted, and anything that
        would have been fails the sweep.  Otherwise the stale keys go that are
        explained, or unexplained with their shard there and not too many.  It is
        clean exactly when no presence and no shard is in doubt and nothing was
        refused. */
    ghost predicate PruneMeans(inventory: map<Path, Listed>, t: Tree, w: Weather, before: map<Path, Object>,
                               after: map<Path, Object>, clean: bool)
    {
      var barred := t.marker in {Restoring, Unreadable} || !t.resumed;
      && after == (if barred then before else before - set k | k in inventory && Going(inventory, t, k) && w.deletes(k))
      && (clean <==>
            && (forall k | Loose(inventory, t, k) && shapes.eligible(k) :: t.exists_(k) != Unknown)
            && Unexplained(inventory, t, true) == {}
            && (barred ==> forall k :: !Stale(inventory, t, k))
            && (!barred ==> !TooMany(inventory, t) && forall k | Going(inventory, t, k) :: w.deletes(k)))
    }

    lemma PruneIs(inventory: map<Path, Listed>, t: Tree, w: Weather, before: map<Path, Object>)
      ensures PruneMeans(inventory, t, w, before, before - (set k | k in Prunable(inventory, t) && w.deletes(k)),
                         PrunesClean(inventory, t, w))
    {
      PrunableMeans(inventory, t);
      CleanMeans(inventory, t, w);
      hide PrunesClean, Going, Loose, Stale, TooMany, Unexplained, Prunable;
      var gone := set k | k in Prunable(inventory, t) && w.deletes(k);
      var barred := t.marker in {Restoring, Unreadable} || !t.resumed;
      GoingListed(inventory, t);
      assert if barred then gone == {} else gone == set k | k in inventory && Going(inventory, t, k) && w.deletes(k);
      assert before - {} == before;
    }

    lemma GoingListed(inventory: map<Path, Listed>, t: Tree)
      ensures forall k | Going(inventory, t, k) :: k in inventory
    {
    }

    /** How the prune reads a key says what it is. */
    lemma ReadMeans(inventory: map<Path, Listed>, t: Tree)
      ensures ReadAs(inventory, t, Unbacked) == Unexplained(inventory, t, false)
      ensures ReadAs(inventory, t, Fresh) == Unexplained(inventory, t, true)
      ensures ReadAs(inventory, t, Backed) == set k | k in inventory && k in t.files
      ensures forall k :: k in ReadAs(inventory, t, Reshaped) + ReadAs(inventory, t, Ineligible) <==>
                          Stale(inventory, t, k) && Explained(t, k)
      ensures forall k :: k in ReadAs(inventory, t, Unsure) <==>
                          Loose(inventory, t, k) && shapes.eligible(k) && t.exists_(k) == Unknown
      ensures Proportionate(inventory, t) <==> !TooMany(inventory, t)
    {
    }

    lemma PrunableMeans(inventory: map<Path, Listed>, t: Tree)
      ensures
        var barred := t.marker in {Restoring, Unreadable} || !t.resumed;
        && (barred ==> Prunable(inventory, t) == {})
        && (!barred ==> forall k :: k in Prunable(inventory, t) <==> Going(inventory, t, k))
    {
      ReadMeans(inventory, t);
      hide ReadAs, Proportionate, TooMany, Explained;
    }

    lemma CleanMeans(inventory: map<Path, Listed>, t: Tree, w: Weather)
      ensures
        var barred := t.marker in {Restoring, Unreadable} || !t.resumed;
        PrunesClean(inventory, t, w) <==>
          && (forall k | Loose(inventory, t, k) && shapes.eligible(k) :: t.exists_(k) != Unknown)
          && Unexplained(inventory, t, true) == {}
          && (barred ==> forall k :: !Stale(inventory, t, k))
          && (!barred ==> !TooMany(inventory, t) && forall k | Going(inventory, t, k) :: w.deletes(k))
    {
      ReadMeans(inventory, t);
      PrunableMeans(inventory, t);
    }

    /** Deletes the listed keys no local file backs, within its guards; what a
        clean prune leaves of the listing is walked or spared. */
    method PruneRemote(inventory: map<Path, Listed>, t: Tree, w: Weather)
      modifies this`failed, mirror`store
      ensures failed >= old(failed)
      ensures mirror.store == old(mirror.store) - set k | k in Prunable(inventory, t) && w.deletes(k)
      ensures failed == old(failed) <==> PrunesClean(inventory, t, w)
      ensures failed == old(failed) ==>
                forall k | k in inventory && k in mirror.store :: Read(shapes, t, k) in {Backed, Spared}
      ensures PruneMeans(inventory, t, w, old(mirror.store), mirror.store, failed == old(failed))
    {
      PruneIs(inventory, t, w, mirror.store);
      hide PrunesClean, Prunable, Read, PruneMeans;
      ghost var was := mirror.store;
      PruneWithin(inventory, t, w);
      if failed == old(failed) { PruneLeaves(inventory, t, w, was, mirror.store); }
    }

    lemma PruneLeaves(inventory: map<Path, Listed>, t: Tree, w: Weather, was: map<Path, Object>, now: map<Path, Object>)
      requires PrunesClean(inventory, t, w) && now == was - set k | k in Prunable(inventory, t) && w.deletes(k)
      ensures forall k | k in inventory && k in now :: Read(shapes, t, k) in {Backed, Spared}
    {
      ReadsOneWay(inventory, t);
      hide Read, ReadAs;
    }

    method PruneWithin(inventory: map<Path, Listed>, t: Tree, w: Weather)
      modifies this`failed, mirror`store
      ensures failed >= old(failed)
      ensures mirror.store == old(mirror.store) - set k | k in Prunable(inventory, t) && w.deletes(k)
      ensures failed == old(failed) <==> PrunesClean(inventory, t, w)
    {
      hide Prunable, PrunesClean, Proportionate, ReadAs, Backless, Trusted;
      CountEach(ReadAs(inventory, t, Unsure));
      if Backless(inventory, t) + ReadAs(inventory, t, Fresh) == {} {
        NothingToPrune(inventory, t, w);
        return;
      }
      if !Trusted(t) {
        RefusedPrune(inventory, t, w);
        failed := failed + 1;
        return;
      }
      PruneTrusted(inventory, t, w, failed == old(failed));
    }

    /** A lost shard's keys and a disproportionate loss are each refused and
        counted; the rest goes. */
    method PruneTrusted(inventory: map<Path, Listed>, t: Tree, w: Weather, ghost sure: bool)
      requires Trusted(t) && Backless(inventory, t) + ReadAs(inventory, t, Fresh) != {}
      requires sure <==> ReadAs(inventory, t, Unsure) == {}
      modifies this`failed, mirror`store
      ensures failed >= old(failed)
      ensures mirror.store == old(mirror.store) - set k | k in Prunable(inventory, t) && w.deletes(k)
      ensures failed == old(failed) && sure <==> PrunesClean(inventory, t, w)
    {
      hide Prunable, PrunesClean, Proportionate, ReadAs, Backless, Trusted;
      AllowedPrune(inventory, t, w);
      if ReadAs(inventory, t, Fresh) != {} { failed := failed + 1; }
      var stale := ReadAs(inventory, t, Reshaped) + ReadAs(inventory, t, Ineligible);
      if !Proportionate(inventory, t) {
        failed := failed + 1;
      } else {
        stale := stale + ReadAs(inventory, t, Unbacked);
      }
      assert stale == Prunable(inventory, t);
      var whole := Delete(stale, w);
      if !whole { failed := failed + 1; }
    }

    /** Deletes what the mirror agrees to delete. */
    method Delete(stale: set<Path>, w: Weather) returns (whole: bool)
      modifies mirror`store
      ensures mirror.store == old(mirror.store) - set k | k in stale && w.deletes(k)
      ensures whole <==> forall k | k in stale :: w.deletes(k)
    {
      var gone := set k | k in stale && w.deletes(k);
      mirror.store := mirror.store - gone;
      whole := gone == stale;
      assert forall k | k in stale && !w.deletes(k) :: k !in gone;
    }

    lemma ReadsOneWay(inventory: map<Path, Listed>, t: Tree)
      ensures forall k | k in inventory ::
                || k in ReadAs(inventory, t, Unsure) + ReadAs(inventory, t, Fresh) + ReadAs(inventory, t, Unbacked)
                        + ReadAs(inventory, t, Reshaped) + ReadAs(inventory, t, Ineligible)
                || Read(shapes, t, k) in {Backed, Spared}
    {
    }

    method CountEach(s: set<Path>)
      modifies this`failed
      ensures failed >= old(failed) && (failed == old(failed) <==> s == {})
    {
      assert |s| == 0 <==> s == {};
      failed := failed + |s|;
    }

    // ---------------------------------------------------------- the whole sweep

    /** The walk's names: each file once, none at an alias or beneath one
        (`TreeNames.NothingBeneathAliases`). */
    ghost predicate Fits(t: Tree, stem: Path -> Path, done: seq<Path>) {
      && Shaped(shapes, stem)
      && NoRepeats(t.files) && InOrder(t)
      && (forall p | p in t.files :: t.exists_(p) == Present)
      && (forall p | p in done :: shapes.tarball(p))
      && (forall a, p | a in t.aliases && p in t.files :: !(a <= p))
    }

    function ActionFor(p: Path, local: map<Path, Content>, w: Weather): Action {
      Classify(shapes, mirror.proof(p), w.stat(p), p, if p in local then |local[p]| else 0)
    }

    /** The walked files the ladder sends one way. */
    method Sort(t: Tree, a: Action, w: Weather) returns (files: seq<Path>)
      requires NoRepeats(t.files) && AllLocal(t, mirror.local)
      ensures forall p :: p in files <==> (p in t.files && ActionFor(p, mirror.local, w) == a)
      ensures NoRepeats(files)
    {
      files := [];
      for i := 0 to |t.files|
        invariant forall p :: p in files <==> (p in t.files[..i] && ActionFor(p, mirror.local, w) == a)
        invariant NoRepeats(files)
      {
        var p := t.files[i];
        assert p !in t.files[..i] && t.files[..i + 1] == t.files[..i] + [p];
        if ActionFor(p, mirror.local, w) == a { files := files + [p]; }
      }
      assert t.files[..|t.files|] == t.files;
    }

    /** A bundle whose sidecar outlived its zip, or a done tarball with no local
        file. */
    predicate Owed(t: Tree, stem: Path -> Path, done: seq<Path>, o: Path) {
      && t.exists_(o) == Absent
      && (o in done || exists p :: p in t.files && shapes.sidecar(p) && stem(p) == o)
    }

    /** Every presence the obligations turn on can be told. */
    predicate Told(t: Tree, stem: Path -> Path, done: seq<Path>) {
      && (forall p | p in t.files && shapes.sidecar(p) :: t.exists_(stem(p)) != Unknown)
      && (forall p | p in done :: t.exists_(p) != Unknown)
    }

    /** The surfaces whose only copy is already the mirror's.  A presence that
        cannot be told counts a failure. */
    method Obligations(t: Tree, stem: Path -> Path, done: seq<Path>) returns (os: seq<Path>)
      modifies this`failed
      ensures failed >= old(failed) && (failed == old(failed) <==> Told(t, stem, done))
      ensures forall o :: o in os <==> Owed(t, stem, done, o)
      ensures NoRepeats(os)
    {
      var bundles := BundlesOwed(t, stem);
      os := TarballsOwed(t, done, bundles);
    }

    /** A key of the map the surfaces are gathered in. */
    function Gathered(os: seq<Path>, o: Path): (r: seq<Path>)
      ensures NoRepeats(os) ==> NoRepeats(r)
      ensures forall q :: q in r <==> q == o || q in os
    {
      if o in os then os else os + [o]
    }

    method BundlesOwed(t: Tree, stem: Path -> Path) returns (os: seq<Path>)
      modifies this`failed
      ensures failed >= old(failed)
      ensures failed == old(failed) <==> forall p | p in t.files && shapes.sidecar(p) :: t.exists_(stem(p)) != Unknown
      ensures forall o :: o in os <==> t.exists_(o) == Absent && exists p :: p in t.files && shapes.sidecar(p) && stem(p) == o
      ensures NoRepeats(os)
    {
      hide NoRepeats;
      os := [];
      assert NoRepeats(os) by { NothingRepeats(); }
      for i := 0 to |t.files|
        invariant failed >= old(failed)
        invariant failed == old(failed) <==> forall p | p in t.files[..i] && shapes.sidecar(p) :: t.exists_(stem(p)) != Unknown
        invariant forall o :: o in os <==> t.exists_(o) == Absent && exists p :: p in t.files[..i] && shapes.sidecar(p) && stem(p) == o
        invariant NoRepeats(os)
      {
        assert t.files[..i + 1] == t.files[..i] + [t.files[i]];
        if shapes.sidecar(t.files[i]) {
          match t.exists_(stem(t.files[i]))
          case Unknown => failed := failed + 1;
          case Absent => os := Gathered(os, stem(t.files[i]));
          case Present =>
        }
      }
      assert t.files[..|t.files|] == t.files;
    }

    lemma NothingRepeats()
      ensures NoRepeats<Path>([])
    {
    }

    method TarballsOwed(t: Tree, done: seq<Path>, bundles: seq<Path>) returns (os: seq<Path>)
      requires NoRepeats(bundles)
      modifies this`failed
      ensures failed >= old(failed) && (failed == old(failed) <==> forall p | p in done :: t.exists_(p) != Unknown)
      ensures forall o :: o in os <==> o in bundles || (o in done && t.exists_(o) == Absent)
      ensures NoRepeats(os)
    {
      hide NoRepeats;
      os := bundles;
      for i := 0 to |done|
        invariant failed >= old(failed) && (failed == old(failed) <==> forall p | p in done[..i] :: t.exists_(p) != Unknown)
        invariant forall o :: o in os <==> o in bundles || (o in done[..i] && t.exists_(o) == Absent)
        invariant NoRepeats(os)
      {
        assert done[..i + 1] == done[..i] + [done[i]];
        match t.exists_(done[i])
        case Unknown => failed := failed + 1;
        case Absent => os := Gathered(os, done[i]);
        case Present =>
      }
      assert done[..|done|] == done;
    }

    /** Nothing faults, nothing is in doubt, and the mirror holds what it should. */
    ghost predicate Smooth(inventory: map<Path, Listed>, t: Tree, stem: Path -> Path, done: seq<Path>, sizes: Path -> nat,
                           w: Weather, was: World)
      requires AllLocal(t, was.local)
    {
      && Told(t, stem, done) && PrunesClean(inventory, t, w)
      && (forall p | p in t.files :: SmoothFile(w, was, p))
      && (forall o | Owed(t, stem, done, o) :: HeldHere(inventory, o, sizes(o)))
    }

    /** A bundle that is sealed moves, so does a durably done, signed tarball, of its
        signature's size, and any other file is mirrored. */
    predicate SmoothFile(w: Weather, was: World, p: Path)
      requires p in was.local
    {
      var proof := mirror.proof(p);
      if shapes.zip(p) then proof.Sealed? ==> Movable(was, w, p)
      else if shapes.tarball(p) then
        proof.Settled? && proof.signature.Some? && proof.durable ==>
          w.stat(p) && proof.signature.value.size == |was.local[p]| && Movable(was, w, p)
      else Calm(w, p) && !Clashes(was.store, p, was.local[p])
    }

    lemma SmoothAction(w: Weather, was: World, p: Path)
      requires p in was.local && SmoothFile(w, was, p)
      ensures ActionFor(p, was.local, w) != Suspect
      ensures ActionFor(p, was.local, w) == Evict ==> Movable(was, w, p)
      ensures ActionFor(p, was.local, w) == Sync ==> Calm(w, p) && !Clashes(was.store, p, was.local[p])
    {
    }

    /** Mirrors the tree.  Whatever fails, no only copy is lost.  A sweep that ends
        without a failure leaves every file it keeps local mirrored, every surface
        it evicted in the mirror alone, every older eviction accounted for, and no
        key in the mirror but walked files, eviction and sidecar shapes, and
        spellings that resolve locally. */
    method SyncArchive(inventory: map<Path, Listed>, t: Tree, stem: Path -> Path, done: seq<Path>,
                       sizes: Path -> nat, wants: Path -> Option<Content>, w: Weather)
      requires Honest(mirror.W()) && ListingOf(inventory, mirror.store) && Fits(t, stem, done)
      requires AllLocal(t, mirror.local)
      requires HealsTruly(w)
      modifies this`failed, mirror
      ensures Honest(mirror.W()) && failed >= old(failed) && SidecarsKept(old(mirror.store), mirror.store)
      ensures CopiesKept(t, stem, done, wants, old(mirror.store), mirror.store)
      ensures LocalKept(t.files, old(mirror.W()), mirror.W()) && Untransferred(t, old(mirror.W()), mirror.W())
      ensures failed == old(failed) ==> Swept(inventory, t, stem, done, sizes, w, old(mirror.local), mirror.W())
      ensures Smooth(inventory, t, stem, done, sizes, w, old(mirror.W())) ==> failed == old(failed)
    {
      FitsFiles(t, stem, done);
      hide Honest, Swept, Fits, ListingOf, SidecarsKept, NoRepeats, PrunesClean, Told, Planned, Easy, Clear, HealsTruly, InOrder,
           CopiesKept, AllHere, Smooth, LocalKept, AllLocal, Untransferred;
      ghost var was := mirror.W();
      var evict, sync, obligations := Plan(t, stem, done, w);
      SmoothMeans(inventory, t, stem, done, sizes, w, was, evict, sync, obligations);
      Complete(inventory, t, stem, done, sizes, wants, w, evict, sync, obligations);
    }

    /** A bundle with no sidecar, a tarball with no durably done, signed entry. */
    predicate Unproven(p: Path) {
      var proof := mirror.proof(p);
      if shapes.zip(p) then !proof.Sealed? else !(proof.Settled? && proof.signature.Some? && proof.durable)
    }

    /** A surface nothing proves is neither moved nor uploaded. */
    ghost predicate Untransferred(t: Tree, was: World, now: World) {
      forall p | p in t.files && p in was.local && Evictable(shapes, p) && Unproven(p) ::
        p in now.local && now.local[p] == was.local[p] && At(now.store, p) == At(was.store, p)
    }

    lemma NoneTransferred(t: Tree, stem: Path -> Path, done: seq<Path>, w: Weather, was: World, evict: seq<Path>, sync: seq<Path>,
                          obligations: seq<Path>, inventory: map<Path, Listed>, wants: Path -> Option<Content>, midway: World,
                          now: World)
      requires Planned(t, stem, done, w, was.local, evict, sync, obligations) && Fits(t, stem, done)
      requires Stood(evict, sync, was.store, midway.store) && LocalKept(evict, was, midway)
      requires Checked(t, obligations, inventory, wants, midway.store, now.store) && now.local == midway.local
      ensures Untransferred(t, was, now)
    {
      OwedEvictable(t, stem, done, obligations);
      FilesThrough(t, stem, done, obligations, inventory, wants, midway.store, now.store);
      CheckedKeys(t, obligations, inventory, wants, midway.store, now.store);
      PlannedActions(t, stem, done, w, was.local, evict, sync, obligations);
      hide Fits, Planned, Checked, Owed, ActionFor, Evictable, Unproven, Stood, LocalKept;
      forall p | p in t.files && p in was.local && Evictable(shapes, p) && Unproven(p)
        ensures p in now.local && now.local[p] == was.local[p] && At(now.store, p) == At(was.store, p)
      {
        UnprovenSkipped(p, was.local, w);
        StoodAt(evict, sync, was, midway, p);
      }
    }

    lemma UnprovenSkipped(p: Path, local: map<Path, Content>, w: Weather)
      requires Evictable(shapes, p) && Unproven(p)
      ensures ActionFor(p, local, w) == Skip
    {
    }

    lemma StoodAt(evict: seq<Path>, sync: seq<Path>, was: World, now: World, p: Path)
      requires Stood(evict, sync, was.store, now.store) && LocalKept(evict, was, now)
      requires p in was.local && p !in evict && p !in sync && Evictable(shapes, p)
      ensures p in now.local && now.local[p] == was.local[p] && At(now.store, p) == At(was.store, p)
    {
      hide Recorded;
    }

    /** What a planned sweep leaves, failed or clean. */
    ghost predicate Completed(inventory: map<Path, Listed>, t: Tree, stem: Path -> Path, done: seq<Path>, sizes: Path -> nat,
                              wants: Path -> Option<Content>, w: Weather, was: World, now: World, clean: bool)
    {
      && SidecarsKept(was.store, now.store) && CopiesKept(t, stem, done, wants, was.store, now.store)
      && LocalKept(t.files, was, now) && Untransferred(t, was, now)
      && (clean && Told(t, stem, done) && Clear(t, was.local, w) ==>
            Swept(inventory, t, stem, done, sizes, w, was.local, now))
    }

    method Complete(inventory: map<Path, Listed>, t: Tree, ghost stem: Path -> Path, ghost done: seq<Path>, sizes: Path -> nat,
                    wants: Path -> Option<Content>, w: Weather, evict: seq<Path>, sync: seq<Path>, obligations: seq<Path>)
      requires Honest(mirror.W()) && ListingOf(inventory, mirror.store) && Fits(t, stem, done) && HealsTruly(w)
      requires AllLocal(t, mirror.local) && Planned(t, stem, done, w, mirror.local, evict, sync, obligations)
      modifies this`failed, mirror
      ensures Honest(mirror.W()) && failed >= old(failed)
      ensures Completed(inventory, t, stem, done, sizes, wants, w, old(mirror.W()), mirror.W(), failed == old(failed))
      ensures Easy(evict, sync, w, old(mirror.W())) && AllHere(inventory, obligations, sizes) && PrunesClean(inventory, t, w) ==>
                failed == old(failed)
    {
      FitsFiles(t, stem, done);
      hide Honest, Fits, ListingOf, Planned, Easy, HealsTruly, InOrder, AllHere, AllLocal, Performed, Completed, PrunesClean,
           NoRepeats;
      ghost var was := mirror.W();
      ghost var midway, calm := Perform(inventory, t, stem, done, sizes, wants, w, evict, sync, obligations);
      PerformMeans(inventory, t, stem, done, sizes, wants, w, evict, sync, obligations, was, midway, mirror.W(), calm,
                   failed == old(failed));
    }

    /** The world before the transfers, between them and the checks, and after. */
    ghost predicate Performed(inventory: map<Path, Listed>, t: Tree, sizes: Path -> nat, wants: Path -> Option<Content>,
                              w: Weather, evict: seq<Path>, sync: seq<Path>, obligations: seq<Path>, was: World,
                              midway: World, now: World, calm: bool, clean: bool)
    {
      && Stood(evict, sync, was.store, midway.store) && LocalKept(evict, was, midway)
      && (calm ==> Mirrored(evict, sync, was.local, midway))
      && Checked(t, obligations, inventory, wants, midway.store, now.store)
      && now == World(midway.local, midway.stubs, now.store)
      && (clean ==> calm && Found(inventory, t, obligations, sizes, now.store))
      && (Easy(evict, sync, w, was) && AllHere(inventory, obligations, sizes) && PrunesClean(inventory, t, w) ==> clean)
    }

    /** The sweep once it is planned: `midway` is the world between the transfers and
        the checks, and `calm` whether the transfers went without a failure. */
    method Perform(inventory: map<Path, Listed>, t: Tree, ghost stem: Path -> Path, ghost done: seq<Path>, sizes: Path -> nat,
                   wants: Path -> Option<Content>, w: Weather, evict: seq<Path>, sync: seq<Path>, obligations: seq<Path>)
      returns (ghost midway: World, ghost calm: bool)
      requires Honest(mirror.W()) && ListingOf(inventory, mirror.store) && InOrder(t)
      requires AllLocal(t, mirror.local) && Planned(t, stem, done, w, mirror.local, evict, sync, obligations)
      requires HealsTruly(w)
      modifies this`failed, mirror
      ensures Honest(mirror.W()) && failed >= old(failed)
      ensures Performed(inventory, t, sizes, wants, w, evict, sync, obligations, old(mirror.W()), midway, mirror.W(), calm,
                        failed == old(failed))
    {
      PlannedOnce(t, stem, done, w, mirror.local, evict, sync, obligations);
      hide Honest, ListingOf, InOrder, AllLocal, Planned, HealsTruly, Stood, LocalKept, Mirrored, Checked, Found, Easy, AllHere,
           PrunesClean, NoRepeats;
      Settle(inventory, t, stem, done, evict, sync, obligations, w);
      midway, calm := mirror.W(), failed == old(failed);
      Check(inventory, t, obligations, sizes, wants, w);
    }

    lemma PerformMeans(inventory: map<Path, Listed>, t: Tree, stem: Path -> Path, done: seq<Path>, sizes: Path -> nat,
                       wants: Path -> Option<Content>, w: Weather, evict: seq<Path>, sync: seq<Path>, obligations: seq<Path>,
                       was: World, midway: World, now: World, calm: bool, clean: bool)
      requires ListingOf(inventory, was.store) && Fits(t, stem, done) && AllLocal(t, was.local)
      requires Planned(t, stem, done, w, was.local, evict, sync, obligations)
      requires Performed(inventory, t, sizes, wants, w, evict, sync, obligations, was, midway, now, calm, clean)
      ensures Completed(inventory, t, stem, done, sizes, wants, w, was, now, clean)
      ensures Easy(evict, sync, w, was) && AllHere(inventory, obligations, sizes) && PrunesClean(inventory, t, w) ==> clean
    {
      hide Honest, Swept, Fits, ListingOf, SidecarsKept, NoRepeats, Told, Planned, Mirrored, Stood, Clear, Checked, Found,
           CopiesKept, LocalKept, Untransferred;
      KeptThrough(t, stem, done, w, was, evict, sync, obligations, inventory, wants, midway.store, now.store);
      LocalThrough(t, stem, done, w, was, evict, sync, obligations, inventory, wants, midway, now);
      NoneTransferred(t, stem, done, w, was, evict, sync, obligations, inventory, wants, midway, now);
      if clean && Told(t, stem, done) && Clear(t, was.local, w) {
        SweptNow(inventory, t, stem, done, sizes, wants, w, evict, sync, obligations, was, midway.store, now);
      }
    }

    /** What the classification yields: what to evict, what to mirror, and the
        surfaces to be found in the mirror, each once. */
    ghost predicate Planned(t: Tree, stem: Path -> Path, done: seq<Path>, w: Weather, local: map<Path, Content>,
                            evict: seq<Path>, sync: seq<Path>, obligations: seq<Path>)
    {
      && NoRepeats(evict) && NoRepeats(sync) && NoRepeats(obligations)
      && (forall p :: p in evict <==> p in t.files && ActionFor(p, local, w) == Evict)
      && (forall p :: p in sync <==> p in t.files && ActionFor(p, local, w) == Sync)
      && (forall o :: o in obligations <==> Owed(t, stem, done, o))
    }

    /** No file contradicts the signature that settled it. */
    predicate Clear(t: Tree, local: map<Path, Content>, w: Weather) {
      forall p | p in t.files :: ActionFor(p, local, w) != Suspect
    }

    /** Classifies the walked files, counting the suspects, and gathers the
        surfaces to be found in the mirror before anything moves. */
    method Plan(t: Tree, stem: Path -> Path, done: seq<Path>, w: Weather)
      returns (evict: seq<Path>, sync: seq<Path>, obligations: seq<Path>)
      requires NoRepeats(t.files) && AllLocal(t, mirror.local)
      modifies this`failed
      ensures failed >= old(failed) && Planned(t, stem, done, w, mirror.local, evict, sync, obligations)
      ensures failed == old(failed) <==> Told(t, stem, done) && Clear(t, mirror.local, w)
    {
      hide ActionFor, NoRepeats, Owed, Told;
      var suspects := Sort(t, Suspect, w);
      evict := Sort(t, Evict, w);
      sync := Sort(t, Sync, w);
      failed := failed + |suspects|;
      NoFile(suspects);
      assert suspects == [] <==> Clear(t, mirror.local, w) by {
        if suspects != [] { assert suspects[0] in suspects; }
      }
      obligations := Obligations(t, stem, done);
    }

    lemma PlannedOnce(t: Tree, stem: Path -> Path, done: seq<Path>, w: Weather, local: map<Path, Content>,
                      evict: seq<Path>, sync: seq<Path>, obligations: seq<Path>)
      requires Planned(t, stem, done, w, local, evict, sync, obligations)
      ensures NoRepeats(obligations)
    {
    }

    /** What is owed is an evictable surface with no walked file. */
    lemma OwedEvictable(t: Tree, stem: Path -> Path, done: seq<Path>, os: seq<Path>)
      requires Fits(t, stem, done) && forall o :: o in os <==> Owed(t, stem, done, o)
      ensures forall o | o in os :: Evictable(shapes, o) && o !in t.files
      ensures Told(t, stem, done) ==>
                && (forall p | p in t.files && shapes.sidecar(p) :: t.exists_(stem(p)) == Present || stem(p) in os)
                && (forall p | p in done :: t.exists_(p) == Present || p in os)
    {
      FitsOwed(t, stem, done);
      hide Fits;
    }

    lemma FitsOwed(t: Tree, stem: Path -> Path, done: seq<Path>)
      requires Fits(t, stem, done)
      ensures forall p | p in t.files && shapes.sidecar(p) :: Evictable(shapes, stem(p))
      ensures forall p | p in done :: Evictable(shapes, p)
      ensures forall p | p in t.files :: t.exists_(p) == Present
    {
    }

    lemma FitsFiles(t: Tree, stem: Path -> Path, done: seq<Path>)
      requires Fits(t, stem, done)
      ensures NoRepeats(t.files) && InOrder(t)
    {
    }

    // ---------------------------------------------------------- evict and mirror

    /** Every file to mirror is mirrored and every surface to evict has moved. */
    ghost predicate Mirrored(evict: seq<Path>, sync: seq<Path>, local: map<Path, Content>, now: World) {
      && (forall p | p in sync && p in local :: MirrorsFile(now.store, p, local[p]))
      && (forall p | p in evict && p in local :: p !in now.local && p in now.store && now.store[p].body == local[p])
    }

    /** What no eviction and no upload touches. */
    ghost predicate Stood(evict: seq<Path>, sync: seq<Path>, before: map<Path, Object>, after: map<Path, Object>) {
      && SidecarsKept(before, after) && after.Keys <= before.Keys + Elements(evict) + Elements(sync)
      && forall k | k in before && Evictable(shapes, k) :: k in after && after[k] == before[k]
    }

    /** Nothing stands in the way of an eviction or an upload. */
    ghost predicate Easy(evict: seq<Path>, sync: seq<Path>, w: Weather, was: World) {
      && (forall p | p in evict :: Movable(was, w, p))
      && (forall p | p in sync && p in was.local :: Calm(w, p) && !Clashes(was.store, p, was.local[p]))
    }

    /** Evicts the cold surfaces, then mirrors the rest. */
    method Settle(inventory: map<Path, Listed>, ghost t: Tree, ghost stem: Path -> Path, ghost done: seq<Path>,
                  evict: seq<Path>, sync: seq<Path>, ghost obligations: seq<Path>, w: Weather)
      requires Honest(mirror.W()) && ListingOf(inventory, mirror.store) && AllLocal(t, mirror.local)
      requires Planned(t, stem, done, w, mirror.local, evict, sync, obligations)
      modifies this`failed, mirror
      ensures Honest(mirror.W()) && failed >= old(failed) && Stood(evict, sync, old(mirror.store), mirror.store)
      ensures Easy(evict, sync, w, old(mirror.W())) ==> failed == old(failed)
      ensures failed == old(failed) ==> Mirrored(evict, sync, old(mirror.local), mirror.W())
      ensures LocalKept(evict, old(mirror.W()), mirror.W())
    {
      ghost var local, s0 := mirror.local, mirror.store;
      PlannedActions(t, stem, done, w, local, evict, sync, obligations);
      hide Honest, ListingOf, MirrorsFile, ActionFor, Planned, Owed, Evictable, NoRepeats, Movable, Calm, Clashes, SidecarsKept,
           Stood, LocalKept;
      ghost var was := mirror.W();
      EvictAll(evict, w);
      ghost var s1, now := mirror.store, mirror.W();
      StillListed(inventory, evict, sync, s0, s1, local, w);
      StillCalm(evict, sync, s0, s1, local);
      SyncFiles(sync, inventory, w);
      EvictedThrough(evict, sync, s1, mirror.store, local, w);
      StoodBoth(evict, sync, local, w, s0, s1, mirror.store);
      KeptBeyond(evict, was, now, mirror.W());
    }

    lemma KeptBeyond(evict: seq<Path>, before: World, w: World, w': World)
      requires LocalKept(evict, before, w) && w'.local == w.local
      requires forall p | p in evict && p in w.store :: p in w'.store && w'.store[p] == w.store[p]
      ensures LocalKept(evict, before, w')
    {
      hide Recorded;
    }

    lemma PlannedActions(t: Tree, stem: Path -> Path, done: seq<Path>, w: Weather, local: map<Path, Content>,
                         evict: seq<Path>, sync: seq<Path>, obligations: seq<Path>)
      requires Planned(t, stem, done, w, local, evict, sync, obligations)
      ensures NoRepeats(evict) && NoRepeats(sync)
      ensures forall p | p in evict :: p in t.files && ActionFor(p, local, w) == Evict
      ensures forall p | p in sync :: p in t.files && ActionFor(p, local, w) == Sync
    {
    }

    lemma StoodBoth(evict: seq<Path>, sync: seq<Path>, local: map<Path, Content>, w: Weather, s0: map<Path, Object>,
                    s1: map<Path, Object>, s2: map<Path, Object>)
      requires forall k | k in s0 :: k in s1 && s1[k] == s0[k]
      requires Aside(s0, s1, Elements(evict)) && Aside(s1, s2, Elements(sync)) && SidecarsKept(s1, s2)
      requires forall p | p in sync :: ActionFor(p, local, w) == Sync
      ensures Stood(evict, sync, s0, s2)
    {
      AsideKeys(s0, s1, evict);
      AsideKeys(s1, s2, sync);
      forall k | k in s0 && Evictable(shapes, k) ensures k in s2 && s2[k] == s0[k] {
        assert At(s2, k) == At(s1, k);
      }
    }

    lemma AsideKeys(a: map<Path, Object>, b: map<Path, Object>, keys: seq<Path>)
      requires Aside(a, b, Elements(keys))
      ensures b.Keys <= a.Keys + Elements(keys)
    {
      forall k | k in b && k !in Elements(keys) ensures k in a { assert At(b, k) == At(a, k); }
    }

    /** The files to sync are listed as they stand, whatever was evicted. */
    lemma StillListed(inventory: map<Path, Listed>, evict: seq<Path>, sync: seq<Path>, s0: map<Path, Object>,
                      s1: map<Path, Object>, local: map<Path, Content>, w: Weather)
      requires ListingOf(inventory, s0) && Aside(s0, s1, Elements(evict))
      requires forall p | p in evict :: ActionFor(p, local, w) == Evict
      requires forall p | p in sync :: ActionFor(p, local, w) == Sync
      ensures forall p | p in sync :: p !in evict && ListedAs(inventory, s1, p)
    {
      forall p | p in sync ensures p !in evict && ListedAs(inventory, s1, p) {
        assert At(s1, p) == At(s0, p);
      }
    }

    lemma StillCalm(evict: seq<Path>, sync: seq<Path>, s0: map<Path, Object>, s1: map<Path, Object>, local: map<Path, Content>)
      requires Aside(s0, s1, Elements(evict)) && forall p | p in sync :: p !in evict && p in local
      ensures forall p | p in sync :: Clashes(s1, p, local[p]) <==> Clashes(s0, p, local[p])
    {
      forall p | p in sync ensures Clashes(s1, p, local[p]) <==> Clashes(s0, p, local[p]) {
        assert At(s1, p) == At(s0, p);
      }
    }

    lemma EvictedThrough(evict: seq<Path>, sync: seq<Path>, s1: map<Path, Object>, s2: map<Path, Object>,
                         local: map<Path, Content>, w: Weather)
      requires Aside(s1, s2, Elements(sync))
      requires forall p | p in evict :: ActionFor(p, local, w) == Evict
      requires forall p | p in sync :: ActionFor(p, local, w) == Sync
      ensures forall p | p in evict && p in s1 :: p in s2 && s2[p] == s1[p]
    {
      forall p | p in evict && p in s1 ensures p in s2 && s2[p] == s1[p] {
        assert At(s2, p) == At(s1, p);
      }
    }

    // ---------------------------------------------------------- verify and prune

    /** The mirror before the checks and after the prune: only the surfaces' keys
        changed, no copy of theirs is lost, and then what was prunable went. */
    ghost predicate Checked(t: Tree, obligations: seq<Path>, inventory: map<Path, Listed>, wants: Path -> Option<Content>,
                            s2: map<Path, Object>, s4: map<Path, Object>)
    {
      exists s3 :: CheckedVia(t, obligations, inventory, wants, s2, s3, s4)
    }

    ghost predicate CheckedVia(t: Tree, obligations: seq<Path>, inventory: map<Path, Listed>, wants: Path -> Option<Content>,
                               s2: map<Path, Object>, s3: map<Path, Object>, s4: map<Path, Object>)
    {
      && Elsewhere(t, obligations, s2, s3)
      && (forall o | o in obligations && Alone(t, Owing(obligations), o) ::
            CopiesOutlive(t, o, wants(o), o in inventory, s2, s3))
      && (forall k | k in s3 && k !in Prunable(inventory, t) :: k in s4 && s4[k] == s3[k])
      && s4.Keys <= s2.Keys + Elements(obligations)
    }

    /** Every surface was found, and the listing's keys that are left are walked or
        spared. */
    ghost predicate Found(inventory: map<Path, Listed>, t: Tree, obligations: seq<Path>, sizes: Path -> nat,
                          s4: map<Path, Object>)
    {
      && AllHeld(inventory, t, obligations, sizes)
      && forall k | k in inventory && k in s4 :: Read(shapes, t, k) in {Backed, Spared}
    }

    predicate AllHere(inventory: map<Path, Listed>, obligations: seq<Path>, sizes: Path -> nat) {
      forall p | p in obligations :: HeldHere(inventory, p, sizes(p))
    }

    /** Verifies the only copies, then prunes. */
    method Check(inventory: map<Path, Listed>, t: Tree, obligations: seq<Path>, sizes: Path -> nat,
                 wants: Path -> Option<Content>, w: Weather)
      requires Honest(mirror.W()) && InOrder(t)
      requires NoRepeats(obligations)
      requires HealsTruly(w)
      modifies this`failed, mirror`store
      ensures Honest(mirror.W()) && failed >= old(failed)
      ensures Checked(t, obligations, inventory, wants, old(mirror.store), mirror.store)
      ensures AllHere(inventory, obligations, sizes) && PrunesClean(inventory, t, w) ==> failed == old(failed)
      ensures failed == old(failed) ==> Found(inventory, t, obligations, sizes, mirror.store)
    {
      hide AllHeld, Elsewhere, Prunable, Read, PrunesClean, Honest, NoRepeats, Alone, CopiesOutlive, Owing, HeldHere, PruneMeans,
           Checked, HealsTruly, InOrder;
      VerifyEvicted(inventory, t, obligations, sizes, wants, w);
      ghost var s3 := mirror.store;
      PruneRemote(inventory, t, w);
      PrunedChecked(inventory, t, obligations, wants, w, old(mirror.store), s3, mirror.store);
    }

    lemma PrunedChecked(inventory: map<Path, Listed>, t: Tree, obligations: seq<Path>, wants: Path -> Option<Content>, w: Weather,
                        s2: map<Path, Object>, s3: map<Path, Object>, s4: map<Path, Object>)
      requires Elsewhere(t, obligations, s2, s3) && s3.Keys <= s2.Keys + Elements(obligations)
      requires forall o | o in obligations && Alone(t, Owing(obligations), o) ::
                 CopiesOutlive(t, o, wants(o), o in inventory, s2, s3)
      requires s4 == s3 - set k | k in Prunable(inventory, t) && w.deletes(k)
      ensures Checked(t, obligations, inventory, wants, s2, s4)
      ensures forall local, stubs :: Honest(World(local, stubs, s3)) ==> Honest(World(local, stubs, s4))
    {
      hide Prunable, Elsewhere, CopiesOutlive, Alone, Owing;
      FewerHonest(s3, s4);
      assert CheckedVia(t, obligations, inventory, wants, s2, s3, s4);
    }

    lemma FewerHonest(a: map<Path, Object>, b: map<Path, Object>)
      requires forall k | k in b :: k in a && b[k] == a[k]
      ensures forall local, stubs :: Honest(World(local, stubs, a)) ==> Honest(World(local, stubs, b))
    {
    }

    lemma NoFile(s: seq<Path>)
      ensures |s| == 0 ==> forall p :: p !in s
    {
    }

    /** Nothing after the sync touches a walked file's key or a sidecar's. */
    lemma Untouched(t: Tree, stem: Path -> Path, done: seq<Path>, obligations: seq<Path>, inventory: map<Path, Listed>, k: Path)
      requires Fits(t, stem, done) && (k in t.files || shapes.sidecar(k))
      requires forall o | o in obligations :: Evictable(shapes, o) && o !in t.files
      ensures k !in obligations && !Historical(t, obligations, k) && k !in Prunable(inventory, t)
    {
      NotPrunable(t, inventory, k);
      hide Respells, Prunable;
      forall o | o in obligations ensures !Respells(t.aliases, |t.aliases|, o, k) {
        if Respells(t.aliases, |t.aliases|, o, k) {
          var a := RespelledBeneath(t.aliases, |t.aliases|, o, k);
          assert false;
        }
      }
    }

    /** The prune reads a walked file as backed, and a sidecar or an evictable
        surface as spared. */
    lemma NotPrunable(t: Tree, inventory: map<Path, Listed>, k: Path)
      requires k in t.files || Exempt(shapes, k)
      ensures k !in Prunable(inventory, t)
    {
      assert Read(shapes, t, k) in {Backed, Spared};
      hide Read, Exempt, Trusted, Proportionate;
    }

    lemma FilesThrough(t: Tree, stem: Path -> Path, done: seq<Path>, obligations: seq<Path>, inventory: map<Path, Listed>,
                       wants: Path -> Option<Content>, s2: map<Path, Object>, s4: map<Path, Object>)
      requires Fits(t, stem, done) && forall o | o in obligations :: Evictable(shapes, o) && o !in t.files
      requires Checked(t, obligations, inventory, wants, s2, s4)
      ensures (forall p | p in t.files && p in s2 :: p in s4 && s4[p] == s2[p]) && SidecarsKept(s2, s4)
    {
      hide Fits, Historical, Prunable, CopiesOutlive, Alone, Owing;
      var s3 :| CheckedVia(t, obligations, inventory, wants, s2, s3, s4);
      forall p | (p in t.files || shapes.sidecar(p)) && p in s2 ensures p in s4 && s4[p] == s2[p] {
        Untouched(t, stem, done, obligations, inventory, p);
        assert At(s3, p) == At(s2, p);
      }
    }

    // ------------------------------------------------- what the whole sweep keeps

    /** The keys of the surfaces whose only copy is the mirror's. */
    ghost predicate OwedKey(t: Tree, stem: Path -> Path, done: seq<Path>, k: Path) {
      exists o :: Owed(t, stem, done, o) && IsKey(t, o, k)
    }

    ghost function OwedSet(t: Tree, stem: Path -> Path, done: seq<Path>): iset<Path> {
      iset o | Owed(t, stem, done, o)
    }

    /** No only copy is lost: a mirrored surface that is no older eviction's is as
        it was, and of one that is, the copy under its own key is as it was, or
        each copy under an old name is, or is carried to its own key. */
    ghost predicate CopiesKept(t: Tree, stem: Path -> Path, done: seq<Path>, wants: Path -> Option<Content>,
                               before: map<Path, Object>, after: map<Path, Object>)
    {
      && (forall k | k in before && Evictable(shapes, k) && !OwedKey(t, stem, done, k) :: k in after && after[k] == before[k])
      && (forall o, h | Owed(t, stem, done, o) && Alone(t, OwedSet(t, stem, done), o) && Evictable(shapes, h) ::
            Outlives(t, o, wants(o), o in before, before, after, h))
    }

    lemma KeptThrough(t: Tree, stem: Path -> Path, done: seq<Path>, w: Weather, was: World, evict: seq<Path>, sync: seq<Path>,
                      obligations: seq<Path>, inventory: map<Path, Listed>, wants: Path -> Option<Content>,
                      s2: map<Path, Object>, s4: map<Path, Object>)
      requires Planned(t, stem, done, w, was.local, evict, sync, obligations) && Fits(t, stem, done)
      requires ListingOf(inventory, was.store) && Stood(evict, sync, was.store, s2)
      requires Checked(t, obligations, inventory, wants, s2, s4)
      ensures SidecarsKept(was.store, s4) && CopiesKept(t, stem, done, wants, was.store, s4)
    {
      OwedEvictable(t, stem, done, obligations);
      FilesThrough(t, stem, done, obligations, inventory, wants, s2, s4);
      CopiesThrough(t, stem, done, obligations, inventory, wants, was.store, s2, s4);
    }

    lemma LocalThrough(t: Tree, stem: Path -> Path, done: seq<Path>, w: Weather, was: World, evict: seq<Path>, sync: seq<Path>,
                       obligations: seq<Path>, inventory: map<Path, Listed>, wants: Path -> Option<Content>, midway: World,
                       now: World)
      requires Planned(t, stem, done, w, was.local, evict, sync, obligations) && Fits(t, stem, done)
      requires Checked(t, obligations, inventory, wants, midway.store, now.store) && now.local == midway.local
      requires LocalKept(evict, was, midway)
      ensures LocalKept(t.files, was, now)
    {
      OwedEvictable(t, stem, done, obligations);
      FilesThrough(t, stem, done, obligations, inventory, wants, midway.store, now.store);
      PlannedActions(t, stem, done, w, was.local, evict, sync, obligations);
      hide Recorded, Fits, Planned, Checked, ActionFor, Owed, Evictable;
    }

    lemma CopiesThrough(t: Tree, stem: Path -> Path, done: seq<Path>, obligations: seq<Path>, inventory: map<Path, Listed>,
                        wants: Path -> Option<Content>, s0: map<Path, Object>, s2: map<Path, Object>, s4: map<Path, Object>)
      requires forall o :: o in obligations <==> Owed(t, stem, done, o)
      requires forall o | o in obligations :: Evictable(shapes, o)
      requires inventory.Keys == s0.Keys && forall k | k in s0 && Evictable(shapes, k) :: k in s2 && s2[k] == s0[k]
      requires Checked(t, obligations, inventory, wants, s2, s4)
      ensures CopiesKept(t, stem, done, wants, s0, s4)
    {
      hide Alone, Respells, Prunable, Owed, Evictable, Carried;
      var s3 :| CheckedVia(t, obligations, inventory, wants, s2, s3, s4);
      forall k | Evictable(shapes, k) && k in s3 ensures k in s4 && s4[k] == s3[k] {
        NotPrunable(t, inventory, k);
      }
      forall k | k in s0 && Evictable(shapes, k) && !OwedKey(t, stem, done, k) ensures k in s4 && s4[k] == s0[k] {
        assert forall o | o in obligations :: !IsKey(t, o, k);
        assert At(s3, k) == At(s2, k);
      }
      assert Owing(obligations) == OwedSet(t, stem, done);
      forall o, h | o in obligations && Alone(t, Owing(obligations), o) && Evictable(shapes, h)
        ensures Outlives(t, o, wants(o), o in s0, s0, s4, h)
      {
        assert Outlives(t, o, wants(o), o in inventory, s2, s3, h);
        CarriedOn(o, wants(o), s0, s2, s3, s4, h);
      }
    }

    lemma CarriedOn(o: Path, want: Option<Content>, s0: map<Path, Object>, s2: map<Path, Object>, s3: map<Path, Object>,
                    s4: map<Path, Object>, h: Path)
      requires h in s0 ==> h in s2 && s2[h] == s0[h]
      requires forall k | k in {o, h} && k in s3 :: k in s4 && s4[k] == s3[k]
      ensures h in s0 && Carried(o, want, s2, s3, h) ==> Carried(o, want, s0, s4, h)
    {
    }

    /** So an older eviction that the listing held is in the mirror after the sweep,
        at its recorded size, under its own key or an old name's. */
    lemma StillHeld(inventory: map<Path, Listed>, t: Tree, stem: Path -> Path, done: seq<Path>, wants: Path -> Option<Content>,
                    before: map<Path, Object>, after: map<Path, Object>, o: Path, size: nat)
      requires ListingOf(inventory, before) && CopiesKept(t, stem, done, wants, before, after)
      requires Owed(t, stem, done, o) && Alone(t, OwedSet(t, stem, done), o) && Held(inventory, t, o, size)
      requires forall h | h in before && IsKey(t, o, h) :: Evictable(shapes, h)
      ensures exists k :: k in after && IsKey(t, o, k) && (size > 0 ==> |after[k].body| == size)
    {
      var k :| k in inventory && (size > 0 ==> inventory[k].size == size)
               && (k == o || (o !in inventory && Respells(t.aliases, |t.aliases|, o, k)));
      assert IsKey(t, o, k) && IsKey(t, o, o);
      hide Alone, Respells, Owed, IsKey;
      assert Outlives(t, o, wants(o), o in before, before, after, k);
      assert if k in after && after[k] == before[k] then k in after else o in after;
    }

    // ------------------------------------------------------ what a clean sweep means

    lemma SmoothMeans(inventory: map<Path, Listed>, t: Tree, stem: Path -> Path, done: seq<Path>, sizes: Path -> nat,
                      w: Weather, was: World, evict: seq<Path>, sync: seq<Path>, obligations: seq<Path>)
      requires AllLocal(t, was.local) && Planned(t, stem, done, w, was.local, evict, sync, obligations)
      ensures Smooth(inventory, t, stem, done, sizes, w, was) ==>
                Told(t, stem, done) && Clear(t, was.local, w) && Easy(evict, sync, w, was)
                && AllHere(inventory, obligations, sizes) && PrunesClean(inventory, t, w)
    {
      hide Told, PrunesClean, ActionFor, Movable, Calm, Clashes, Owed, HeldHere, NoRepeats, SmoothFile;
      forall p | p in t.files && SmoothFile(w, was, p)
        ensures ActionFor(p, was.local, w) != Suspect
        ensures ActionFor(p, was.local, w) == Evict ==> Movable(was, w, p)
        ensures ActionFor(p, was.local, w) == Sync ==> Calm(w, p) && !Clashes(was.store, p, was.local[p])
      {
        SmoothAction(w, was, p);
      }
    }

    lemma SweptNow(inventory: map<Path, Listed>, t: Tree, stem: Path -> Path, done: seq<Path>, sizes: Path -> nat,
                   wants: Path -> Option<Content>, w: Weather, evict: seq<Path>, sync: seq<Path>, obligations: seq<Path>,
                   was: World, s2: map<Path, Object>, now: World)
      requires Fits(t, stem, done) && ListingOf(inventory, was.store) && AllLocal(t, was.local)
      requires Planned(t, stem, done, w, was.local, evict, sync, obligations) && Told(t, stem, done) && Clear(t, was.local, w)
      requires Stood(evict, sync, was.store, s2) && Mirrored(evict, sync, was.local, World(now.local, now.stubs, s2))
      requires Checked(t, obligations, inventory, wants, s2, now.store) && Found(inventory, t, obligations, sizes, now.store)
      ensures Swept(inventory, t, stem, done, sizes, w, was.local, now)
    {
      hide Fits, ListingOf, Planned, Told, Clear, Stood, Mirrored, Checked, Found, Evictable, Exempt, MirrorsFile, ActionFor, Held,
           SidecarsKept;
      SweptFiles(inventory, t, stem, done, wants, w, evict, sync, obligations, was, s2, now);
      SweptOld(inventory, t, stem, done, sizes, w, evict, sync, obligations, was.local, now.store);
      SweptKeys(inventory, t, stem, done, sizes, wants, w, evict, sync, obligations, was, s2, now.store);
    }

    lemma SweptFiles(inventory: map<Path, Listed>, t: Tree, stem: Path -> Path, done: seq<Path>, wants: Path -> Option<Content>,
                     w: Weather, evict: seq<Path>, sync: seq<Path>, obligations: seq<Path>, was: World, s2: map<Path, Object>,
                     now: World)
      requires Fits(t, stem, done) && Planned(t, stem, done, w, was.local, evict, sync, obligations) && Clear(t, was.local, w)
      requires Mirrored(evict, sync, was.local, World(now.local, now.stubs, s2))
      requires Checked(t, obligations, inventory, wants, s2, now.store)
      ensures FilesSwept(t, w, was.local, now)
    {
      OwedEvictable(t, stem, done, obligations);
      FilesThrough(t, stem, done, obligations, inventory, wants, s2, now.store);
      hide Fits, Checked, Owed, ActionFor, Evictable, NoRepeats, SidecarsKept, MirrorsFile;
      AllSwept(t, evict, sync, was.local, w, s2, now);
    }

    lemma SweptOld(inventory: map<Path, Listed>, t: Tree, stem: Path -> Path, done: seq<Path>, sizes: Path -> nat, w: Weather,
                   evict: seq<Path>, sync: seq<Path>, obligations: seq<Path>, local: map<Path, Content>, s4: map<Path, Object>)
      requires Fits(t, stem, done) && Planned(t, stem, done, w, local, evict, sync, obligations) && Told(t, stem, done)
      requires Found(inventory, t, obligations, sizes, s4)
      ensures forall p | p in t.files && shapes.sidecar(p) ::
                t.exists_(stem(p)) == Present || Held(inventory, t, stem(p), sizes(stem(p)))
      ensures forall p | p in done :: t.exists_(p) == Present || Held(inventory, t, p, sizes(p))
    {
      OwedEvictable(t, stem, done, obligations);
      hide Fits, Planned, Told, Owed, Held, Read, Evictable;
      OldHeld(inventory, t, stem, done, sizes, obligations);
    }

    lemma SweptKeys(inventory: map<Path, Listed>, t: Tree, stem: Path -> Path, done: seq<Path>, sizes: Path -> nat,
                    wants: Path -> Option<Content>, w: Weather, evict: seq<Path>, sync: seq<Path>, obligations: seq<Path>,
                    was: World, s2: map<Path, Object>, s4: map<Path, Object>)
      requires Fits(t, stem, done) && ListingOf(inventory, was.store)
      requires Planned(t, stem, done, w, was.local, evict, sync, obligations) && Stood(evict, sync, was.store, s2)
      requires Checked(t, obligations, inventory, wants, s2, s4) && Found(inventory, t, obligations, sizes, s4)
      ensures forall k | k in s4 :: k in t.files || Exempt(shapes, k) || t.exists_(k) == Present
    {
      OwedEvictable(t, stem, done, obligations);
      CheckedKeys(t, obligations, inventory, wants, s2, s4);
      ListedKeys(inventory, was.store);
      PlannedActions(t, stem, done, w, was.local, evict, sync, obligations);
      hide Fits, ListingOf, Planned, Checked, Owed, ActionFor, Told, AllHeld, SidecarsKept, NoRepeats, Read;
      forall k | k in s4 ensures k in t.files || Exempt(shapes, k) || t.exists_(k) == Present {
        if k !in obligations && k !in evict && k !in sync {
          assert k in inventory;
          KeyRead(t, k);
        }
      }
    }

    lemma KeyRead(t: Tree, k: Path)
      requires Read(shapes, t, k) in {Backed, Spared}
      ensures k in t.files || Exempt(shapes, k) || t.exists_(k) == Present
    {
    }

    lemma OldHeld(inventory: map<Path, Listed>, t: Tree, stem: Path -> Path, done: seq<Path>, sizes: Path -> nat,
                  obligations: seq<Path>)
      requires AllHeld(inventory, t, obligations, sizes)
      requires forall p | p in t.files && shapes.sidecar(p) :: t.exists_(stem(p)) == Present || stem(p) in obligations
      requires forall p | p in done :: t.exists_(p) == Present || p in obligations
      ensures forall p | p in t.files && shapes.sidecar(p) ::
                t.exists_(stem(p)) == Present || Held(inventory, t, stem(p), sizes(stem(p)))
      ensures forall p | p in done :: t.exists_(p) == Present || Held(inventory, t, p, sizes(p))
    {
      hide Held;
    }

    lemma AllSwept(t: Tree, evict: seq<Path>, sync: seq<Path>, local: map<Path, Content>, w: Weather, s2: map<Path, Object>,
                   now: World)
      requires Clear(t, local, w) && Mirrored(evict, sync, local, World(now.local, now.stubs, s2))
      requires forall p | p in t.files && ActionFor(p, local, w) == Evict :: p in evict
      requires forall p | p in t.files && ActionFor(p, local, w) == Sync :: p in sync
      requires forall p | p in t.files && p in s2 :: p in now.store && now.store[p] == s2[p]
      ensures FilesSwept(t, w, local, now)
    {
      forall p | p in t.files && p in local
        ensures
          match ActionFor(p, local, w)
          case Suspect => false
          case Sync => MirrorsFile(now.store, p, local[p])
          case Evict => InMirrorAlone(p, local[p], now)
          case Skip => true
      {
        hide ActionFor;
      }
      hide MirrorsFile, InMirrorAlone, Mirrored;
    }

    lemma CheckedKeys(t: Tree, obligations: seq<Path>, inventory: map<Path, Listed>, wants: Path -> Option<Content>,
                      s2: map<Path, Object>, s4: map<Path, Object>)
      requires Checked(t, obligations, inventory, wants, s2, s4)
      ensures s4.Keys <= s2.Keys + Elements(obligations)
    {
      hide Alone, Elsewhere, CopiesOutlive, Prunable, Owing;
    }

    lemma ListedKeys(inventory: map<Path, Listed>, s0: map<Path, Object>)
      requires ListingOf(inventory, s0)
      ensures inventory.Keys == s0.Keys
    {
    }

    /** Every walked file is where its shape and its proof send it: a sealed bundle
        and a durably done, signed tarball of the signature's size in the mirror
        alone, any other file mirrored. */
    ghost predicate FilesSwept(t: Tree, w: Weather, local: map<Path, Content>, after: World) {
      forall p | p in t.files && p in local ::
        var proof := mirror.proof(p);
        if shapes.zip(p) then proof.Sealed? ==> InMirrorAlone(p, local[p], after)
        else if shapes.tarball(p) then
          proof.Settled? && proof.signature.Some? && proof.durable ==>
            w.stat(p) && proof.signature.value.size == |local[p]| && InMirrorAlone(p, local[p], after)
        else MirrorsFile(after.store, p, local[p])
    }

    predicate InMirrorAlone(p: Path, c: Content, after: World) {
      p !in after.local && p in after.store && after.store[p].body == c
    }

    ghost predicate Swept(inventory: map<Path, Listed>, t: Tree, stem: Path -> Path, done: seq<Path>, sizes: Path -> nat,
                          w: Weather, local: map<Path, Content>, after: World)
    {
      && FilesSwept(t, w, local, after)
      && (forall p | p in t.files && shapes.sidecar(p) ::
            t.exists_(stem(p)) == Present || Held(inventory, t, stem(p), sizes(stem(p))))
      && (forall p | p in done :: t.exists_(p) == Present || Held(inventory, t, p, sizes(p)))
      && (forall k | k in after.store :: k in t.files || Exempt(shapes, k) || t.exists_(k) == Present)
    }
  }
}
