/** Directories and the files appended to beneath them, as a running process sees
    them and as stable storage holds them (pkg/atomicfile/atomicfile.go): what a
    reported success promises of a crash. */
module Directories {
  import opened Records

  /** What exists while the process runs, each file with the bytes flushed to it,
      and the entries whose parent directory was flushed since they were made. */
  datatype Fs = Fs(dirs: set<Path>, files: map<Path, nat>, linked: set<Path>)

  /** Which requests fault; `made` is how many levels a failing creation leaves. */
  datatype Faults = Faults(
    stat: Path -> bool, make: bool, made: nat, chmod: Path -> bool, sync: Path -> bool, open: bool, write: bool)

  function Parent(p: Path): Path
    requires p != []
  {
    p[..|p| - 1]
  }

  predicate Exists(fs: Fs, p: Path) {
    p in fs.dirs || p in fs.files
  }

  /** Every entry is in a directory, no path is both, and only entries are
      linked. */
  ghost predicate Valid(fs: Fs) {
    && [] in fs.dirs
    && (forall p | p in fs.dirs && p != [] :: Parent(p) in fs.dirs)
    && (forall p | p in fs.files :: p !in fs.dirs && p != [] && Parent(p) in fs.dirs)
    && (forall p | p in fs.linked :: Exists(fs, p))
  }

  /** A crash keeps an entry exactly when it and everything above it is linked. */
  predicate Survives(linked: set<Path>, p: Path) {
    forall k | 0 < k <= |p| :: p[..k] in linked
  }

  /** What a restart finds. */
  function Crashed(fs: Fs): Fs {
    Fs(set p | p in fs.dirs && Survives(fs.linked, p), map p | p in fs.files && Survives(fs.linked, p) :: fs.files[p],
       set p | p in fs.linked && Survives(fs.linked, p))
  }

  /** Everything there would survive a crash. */
  ghost predicate Settled(fs: Fs) {
    forall p | p in fs.dirs :: Survives(fs.linked, p)
  }

  /** The nearest directory at or above a path that is already there. */
  function Base(fs: Fs, p: Path): (b: Path)
    requires [] in fs.dirs
    ensures b <= p && b in fs.dirs
    ensures forall k | |b| < k <= |p| :: p[..k] !in fs.dirs
  {
    if p in fs.dirs then p
    else
      var b := Base(fs, Parent(p));
      assert forall k | |b| < k <= |p| :: p[..k] == if k == |p| then p else Parent(p)[..k];
      b
  }

  /** Flushing a directory links every entry in it. */
  function Flushed(fs: Fs, d: Path): Fs {
    fs.(linked := fs.linked + (set p | p in fs.dirs && p != [] && Parent(p) == d)
                            + (set p | p in fs.files && p != [] && Parent(p) == d))
  }

  /** The levels of `dir` below its first `n` names, down to its first `m`. */
  function Levels(dir: Path, n: nat, m: nat): set<Path>
    requires n <= m <= |dir|
  {
    set k | n < k <= m :: dir[..k]
  }

  /** A file stands where a directory is asked for, or above it. */
  predicate Blocked(fs: Fs, dir: Path) {
    exists k | 0 <= k <= |dir| :: dir[..k] in fs.files
  }

  /** The created levels below the first `i` names are given their mode and their
      parents flushed, shallowest first, and the deepest is flushed itself. */
  function Sealed(fs: Fs, dir: Path, i: nat, w: Faults): (Fs, bool)
    requires i <= |dir|
    decreases |dir| - i
  {
    if i == |dir| then if w.sync(dir) then (Flushed(fs, dir), true) else (fs, false)
    else if !w.chmod(dir[..i + 1]) || !w.sync(dir[..i]) then (fs, false)
    else Sealed(Flushed(fs, dir[..i]), dir, i + 1, w)
  }

  /** Creating a directory and whatever is missing above it. */
  function MadeAll(fs: Fs, dir: Path, w: Faults): (Fs, bool)
    requires [] in fs.dirs
  {
    var n := |Base(fs, dir)|;
    if !w.stat(dir) then (fs, false)
    else if dir in fs.dirs then (fs, true)
    else if Blocked(fs, dir) || exists k | n <= k < |dir| :: !w.stat(dir[..k]) then (fs, false)
    else if !w.make then
      (fs.(dirs := fs.dirs + Levels(dir, n, if n + w.made <= |dir| then n + w.made else |dir|)), false)
    else Sealed(fs.(dirs := fs.dirs + Levels(dir, n, |dir|)), dir, n, w)
  }

  /** Appending `n` bytes to a file, creating it and its directory if need be: an
      empty file's entry is flushed before its first bytes are.  Which bytes a
      failed write leaves is not the concern here; it flushes none. */
  function AppendedTo(fs: Fs, name: Path, n: nat, w: Faults): (Fs, bool)
    requires [] in fs.dirs && name != []
  {
    var (made, ok) := MadeAll(fs, Parent(name), w);
    if !ok || !w.open || name in made.dirs then (made, false)
    else
      var size := if name in made.files then made.files[name] else 0;
      var entered := made.(files := made.files[name := size]);
      if size == 0 && (!w.chmod(name) || !w.sync(Parent(name))) then (entered, false)
      else
        var ready := if size == 0 then Flushed(entered, Parent(name)) else entered;
        if w.write then (ready.(files := ready.files[name := size + n]), true) else (ready, false)
  }

  class FileSystem {
    var dirs: set<Path>
    var files: map<Path, nat>
    var linked: set<Path>

    constructor ()
      ensures F() == Fs({[]}, map[], {})
    {
      dirs, files, linked := {[]}, map[], {};
    }

    function F(): Fs
      reads this
    {
      Fs(dirs, files, linked)
    }

    /** The levels that are not there yet, deepest first, unless a stat faults. */
    method Missing(dir: Path, w: Faults) returns (fault: bool, missing: seq<Path>)
      requires Valid(F()) && dir !in dirs && !Blocked(F(), dir) && w.stat(dir)
      ensures
        var n := |Base(F(), dir)|;
        && (fault <==> exists k | n <= k < |dir| :: !w.stat(dir[..k]))
        && (!fault ==> |missing| == |dir| - n && forall j | 0 <= j < |missing| :: missing[j] == dir[..|dir| - j])
    {
      missing, fault := [], false;
      var level := dir;
      assert dir[..|dir|] == dir;
      while level !in dirs
        invariant |missing| <= |dir| && level == dir[..|dir| - |missing|]
        invariant forall j | 0 <= j < |missing| :: missing[j] == dir[..|dir| - j] && missing[j] !in dirs
        invariant forall k | |level| <= k <= |dir| :: w.stat(dir[..k])
        decreases |level|
      {
        missing := missing + [level];
        level := Parent(level);
        assert level == dir[..|dir| - |missing|];
        if !w.stat(level) {
          Above(dir, missing);
          fault := true;
          return;
        }
      }
      Above(dir, missing);
      BaseIs(F(), dir, |level|);
    }

    /** Levels known to be missing lie below the base. */
    lemma Above(dir: Path, missing: seq<Path>)
      requires [] in dirs && |missing| <= |dir|
      requires forall j | 0 <= j < |missing| :: missing[j] == dir[..|dir| - j] && missing[j] !in dirs
      ensures |Base(F(), dir)| <= |dir| - |missing|
      ensures forall k | |dir| - |missing| < k <= |dir| :: dir[..k] !in dirs
    {
      forall k | |dir| - |missing| < k <= |dir| ensures dir[..k] !in dirs {
        assert missing[|dir| - k] == dir[..k];
      }
      var b := Base(F(), dir);
      assert b == dir[..|b|];
    }

    /** Creates a directory with whatever is missing above it, then links each
        level it created, shallowest first.  A directory that is already there
        costs one stat and no flush. */
    method MkdirAll(dir: Path, w: Faults) returns (ok: bool)
      requires Valid(F())
      modifies this
      ensures (F(), ok) == MadeAll(old(F()), dir, w)
    {
      hide Valid, Levels;
      if !w.stat(dir) { return false; }
      if dir in dirs { return true; }
      if Blocked(F(), dir) { return false; }
      var fault, missing := Missing(dir, w);
      if fault { return false; }
      var n := |dir| - |missing|;
      if !w.make {
        dirs := dirs + Levels(dir, n, if n + w.made <= |dir| then n + w.made else |dir|);
        return false;
      }
      dirs := dirs + Levels(dir, n, |dir|);
      ok := Seal(dir, missing, w);
    }

    /** Gives each created level its mode and links it, shallowest first. */
    method Seal(dir: Path, missing: seq<Path>, w: Faults) returns (ok: bool)
      requires |missing| <= |dir| && forall j | 0 <= j < |missing| :: missing[j] == dir[..|dir| - j]
      modifies this`linked
      ensures (F(), ok) == Sealed(old(F()), dir, |dir| - |missing|, w)
    {
      hide Flushed;
      ghost var made, n := F(), |dir| - |missing|;
      for j := |missing| downto 0
        invariant files == made.files && dirs == made.dirs
        invariant Sealed(made, dir, n, w) == Sealed(F(), dir, |dir| - j, w)
      {
        var level := missing[j];
        assert level == dir[..|dir| - j] && Parent(level) == dir[..|dir| - j - 1];
        if !w.chmod(level) || !w.sync(Parent(level)) { return false; }
        assert Sealed(F(), dir, |dir| - j - 1, w) == Sealed(Flushed(F(), Parent(level)), dir, |dir| - j, w);
        Flush(Parent(level));
      }
      if !w.sync(dir) { return false; }
      Flush(dir);
      ok := true;
    }

    /** Appends to a file.  Only the first append flushes the file's entry: one
        that finds bytes there trusts an earlier one to have. */
    method Append(name: Path, n: nat, w: Faults) returns (ok: bool)
      requires Valid(F()) && name != []
      modifies this
      ensures (F(), ok) == AppendedTo(old(F()), name, n, w)
    {
      hide Valid, MadeAll, Flushed;
      ok := MkdirAll(Parent(name), w);
      ghost var made := F();
      if !ok || !w.open || name in dirs { return false; }
      if name !in files { files := files[name := 0]; }
      var size := files[name];
      assert F() == made.(files := made.files[name := size]);
      if size == 0 {
        if !w.chmod(name) || !w.sync(Parent(name)) { return false; }
        Flush(Parent(name));
      }
      if !w.write { return false; }
      files := files[name := size + n];
    }

    method Flush(d: Path)
      modifies this`linked
      ensures F() == Flushed(old(F()), d)
    {
      linked := linked + (set p | p in dirs && p != [] && Parent(p) == d)
                       + (set p | p in files && p != [] && Parent(p) == d);
    }
  }

  lemma {:induction false} BaseIs(fs: Fs, dir: Path, k: nat)
    requires [] in fs.dirs && k <= |dir| && dir[..k] in fs.dirs && forall m | k < m <= |dir| :: dir[..m] !in fs.dirs
    ensures Base(fs, dir) == dir[..k]
  {
    var b := Base(fs, dir);
    assert b == dir[..|b|];
  }

  // -------------------------------------------------- what a success promises

  lemma FlushedValid(fs: Fs, d: Path)
    requires Valid(fs)
    ensures Valid(Flushed(fs, d)) && fs.linked <= Flushed(fs, d).linked
    ensures Flushed(fs, d).dirs == fs.dirs && Flushed(fs, d).files == fs.files
    ensures forall p | p in Flushed(fs, d).linked && p !in fs.linked :: p != [] && Parent(p) == d
    ensures forall p | Exists(fs, p) && p != [] && Parent(p) == d :: p in Flushed(fs, d).linked
  {
  }

  /** Sealing links the levels below and nothing that is not inside one. */
  lemma {:induction false} SealedLinks(fs: Fs, dir: Path, i: nat, w: Faults)
    requires Valid(fs) && i <= |dir| && forall k | i <= k <= |dir| :: dir[..k] in fs.dirs
    ensures
      var (fs', ok) := Sealed(fs, dir, i, w);
      && Valid(fs') && fs'.dirs == fs.dirs && fs'.files == fs.files && fs.linked <= fs'.linked
      && (forall p | p in fs'.linked && p !in fs.linked :: |p| > i)
      && (ok ==> forall k | i < k <= |dir| :: dir[..k] in fs'.linked)
    decreases |dir| - i
  {
    hide Valid, Flushed;
    if i == |dir| {
      FlushedValid(fs, dir);
    } else if w.chmod(dir[..i + 1]) && w.sync(dir[..i]) {
      FlushedValid(fs, dir[..i]);
      SealedLinks(Flushed(fs, dir[..i]), dir, i + 1, w);
      assert Parent(dir[..i + 1]) == dir[..i] && dir[..i + 1] in Flushed(fs, dir[..i]).linked;
    }
  }

  lemma LevelsValid(fs: Fs, dir: Path, m: nat)
    requires Valid(fs) && !Blocked(fs, dir) && |Base(fs, dir)| <= m <= |dir|
    ensures Valid(fs.(dirs := fs.dirs + Levels(dir, |Base(fs, dir)|, m)))
  {
    var n := |Base(fs, dir)|;
    assert dir[..n] == Base(fs, dir);
    forall k | n < k <= m ensures Parent(dir[..k]) in fs.dirs + Levels(dir, n, m) && dir[..k] !in fs.files {
      assert Parent(dir[..k]) == dir[..k - 1];
    }
  }

  lemma SurvivesAcross(linked: set<Path>, linked': set<Path>, dir: Path, n: nat)
    requires linked <= linked' && n <= |dir| && forall k | n < k <= |dir| :: dir[..k] in linked'
    requires forall p | p in linked' && p !in linked :: |p| > n
    ensures Survives(linked', dir) <==> Survives(linked, dir[..n])
  {
    forall k | 0 < k <= n ensures dir[..n][..k] == dir[..k] && (dir[..k] in linked' <==> dir[..k] in linked) {
    }
  }

  /** What `MadeAll` leaves: valid, grown, and on success durable down from its
      base. */
  ghost predicate Grown(fs: Fs, dir: Path, fs': Fs, ok: bool)
    requires [] in fs.dirs
  {
    && Valid(fs') && fs'.files == fs.files && fs.dirs <= fs'.dirs && fs.linked <= fs'.linked
    && (ok ==> fs'.dirs == fs.dirs + Levels(dir, 0, |dir|))
    && (ok ==> dir in fs'.dirs && (Survives(fs'.linked, dir) <==> Survives(fs.linked, Base(fs, dir))))
  }

  /** Everything at or above the base is there already. */
  lemma LevelsFill(fs: Fs, dir: Path)
    requires Valid(fs)
    ensures fs.dirs + Levels(dir, |Base(fs, dir)|, |dir|) == fs.dirs + Levels(dir, 0, |dir|)
  {
    forall k | 0 < k <= |Base(fs, dir)| ensures dir[..k] in fs.dirs {
      assert dir[..k] == Base(fs, dir)[..k];
      AboveIsThere(fs, Base(fs, dir), k);
    }
  }

  lemma {:induction false} AboveIsThere(fs: Fs, p: Path, k: nat)
    requires Valid(fs) && p in fs.dirs && k <= |p|
    ensures p[..k] in fs.dirs
    decreases |p|
  {
    if k == |p| {
      assert p[..k] == p;
    } else {
      assert p[..k] == Parent(p)[..k];
      AboveIsThere(fs, Parent(p), k);
    }
  }

  lemma SealedGrown(fs: Fs, dir: Path, w: Faults)
    requires Valid(fs) && !Blocked(fs, dir)
    ensures
      var n := |Base(fs, dir)|;
      var (fs', ok) := Sealed(fs.(dirs := fs.dirs + Levels(dir, n, |dir|)), dir, n, w);
      Grown(fs, dir, fs', ok)
  {
    var n := |Base(fs, dir)|;
    var made := fs.(dirs := fs.dirs + Levels(dir, n, |dir|));
    var (fs', ok) := Sealed(made, dir, n, w);
    LevelsValid(fs, dir, |dir|);
    LevelsFill(fs, dir);
    assert dir[..n] == Base(fs, dir) && dir[..|dir|] == dir;
    assert n < |dir| ==> dir in Levels(dir, n, |dir|);
    hide Valid, Blocked, Survives;
    SealedLinks(made, dir, n, w);
    if ok { SurvivesAcross(fs.linked, fs'.linked, dir, n); }
  }

  /** A directory reported made survives a crash exactly when the nearest one that
      was there before it does. */
  lemma MadeSurvives(fs: Fs, dir: Path, w: Faults)
    requires Valid(fs)
    ensures
      var (fs', ok) := MadeAll(fs, dir, w);
      Grown(fs, dir, fs', ok)
  {
    assert [] in fs.dirs;
    hide Sealed, Levels, Grown, Valid, Blocked;
    var n := |Base(fs, dir)|;
    NothingMade(fs, dir);
    if dir !in fs.dirs && !Blocked(fs, dir) {
      PartlyMade(fs, dir, if n + w.made <= |dir| then n + w.made else |dir|);
      SealedGrown(fs, dir, w);
    }
  }

  lemma NothingMade(fs: Fs, dir: Path)
    requires Valid(fs)
    ensures Grown(fs, dir, fs, false) && (dir in fs.dirs ==> Grown(fs, dir, fs, true))
  {
    LevelsFill(fs, dir);
  }

  lemma PartlyMade(fs: Fs, dir: Path, m: nat)
    requires Valid(fs) && !Blocked(fs, dir) && |Base(fs, dir)| <= m <= |dir|
    ensures Grown(fs, dir, fs.(dirs := fs.dirs + Levels(dir, |Base(fs, dir)|, m)), false)
  {
    LevelsValid(fs, dir, m);
  }

  /** Sealing succeeds exactly when every mode and every flush below does. */
  lemma {:induction false} SealedIff(fs: Fs, dir: Path, i: nat, w: Faults)
    requires i <= |dir|
    ensures Sealed(fs, dir, i, w).1
            <==> (forall k | i < k <= |dir| :: w.chmod(dir[..k])) && (forall k | i <= k <= |dir| :: w.sync(dir[..k]))
    ensures Sealed(fs, dir, i, w).0.dirs == fs.dirs
    decreases |dir| - i
  {
    if i == |dir| {
      assert dir[..i] == dir;
    } else if w.chmod(dir[..i + 1]) && w.sync(dir[..i]) {
      SealedIff(Flushed(fs, dir[..i]), dir, i + 1, w);
    }
  }

  /** Nothing faults while the levels of `dir` below its first `n` names are created:
      the stats up from it, the creation, and each level's mode and flushes. */
  predicate Faultless(dir: Path, n: nat, w: Faults) {
    && w.make && (forall k | n <= k <= |dir| :: w.stat(dir[..k]) && w.sync(dir[..k]))
    && (forall k | n < k <= |dir| :: w.chmod(dir[..k]))
  }

  /** A creation succeeds exactly when the directory is there, or no file is in the
      way and nothing faults. */
  lemma MadeIff(fs: Fs, dir: Path, w: Faults)
    requires Valid(fs)
    ensures MadeAll(fs, dir, w).1
            <==> w.stat(dir) && (dir in fs.dirs ||
                   ((forall k | 0 <= k <= |dir| :: dir[..k] !in fs.files) && Faultless(dir, |Base(fs, dir)|, w)))
  {
    MadeFresh(fs, dir, w);
    SealedIff(fs.(dirs := fs.dirs + Levels(dir, |Base(fs, dir)|, |dir|)), dir, |Base(fs, dir)|, w);
    FaultlessMeans(dir, |Base(fs, dir)|, w);
    assert Blocked(fs, dir) <==> !forall k | 0 <= k <= |dir| :: dir[..k] !in fs.files;
    hide Sealed, Valid, Base, Levels, Blocked, MadeAll, Faultless;
  }

  lemma MadeFresh(fs: Fs, dir: Path, w: Faults)
    requires [] in fs.dirs
    ensures
      var n := |Base(fs, dir)|;
      MadeAll(fs, dir, w).1
      <==> w.stat(dir) && (dir in fs.dirs ||
             (!Blocked(fs, dir) && !(exists k | n <= k < |dir| :: !w.stat(dir[..k])) && w.make
              && Sealed(fs.(dirs := fs.dirs + Levels(dir, n, |dir|)), dir, n, w).1))
  {
    hide Sealed, Base, Levels, Blocked;
  }

  lemma FaultlessMeans(dir: Path, n: nat, w: Faults)
    requires n <= |dir|
    ensures Faultless(dir, n, w)
            <==> w.stat(dir) && !(exists k | n <= k < |dir| :: !w.stat(dir[..k])) && w.make
                 && (forall k | n < k <= |dir| :: w.chmod(dir[..k])) && (forall k | n <= k <= |dir| :: w.sync(dir[..k]))
  {
    assert dir[..|dir|] == dir;
  }

  /** One of a directory that is there changes nothing, and no other creates
      anything but the levels of its own path. */
  lemma MadeOnly(fs: Fs, dir: Path, w: Faults)
    requires Valid(fs)
    ensures dir in fs.dirs || !w.stat(dir) ==> MadeAll(fs, dir, w).0 == fs
    ensures forall p | p in MadeAll(fs, dir, w).0.dirs && p !in fs.dirs :: p <= dir
  {
    var n := |Base(fs, dir)|;
    SealedIff(fs.(dirs := fs.dirs + Levels(dir, n, |dir|)), dir, n, w);
    hide Sealed, Valid, Base, Blocked;
  }

  /** The levels a creation reached are there whether or not it succeeded. */
  lemma MadeDown(fs: Fs, dir: Path, w: Faults, k: nat)
    requires Valid(fs) && forall m | 0 <= m <= |dir| :: w.stat(dir[..m]) && dir[..m] !in fs.files
    requires k <= |dir| && (w.make || k <= |Base(fs, dir)| + w.made)
    ensures dir[..k] in MadeAll(fs, dir, w).0.dirs
  {
    var n := |Base(fs, dir)|;
    assert dir[..|dir|] == dir && dir[..n] == Base(fs, dir);
    if k <= n {
      assert dir[..k] == Base(fs, dir)[..k];
      AboveIsThere(fs, Base(fs, dir), k);
      MadeGrows(fs, dir, w);
    } else {
      SealedIff(fs.(dirs := fs.dirs + Levels(dir, n, |dir|)), dir, n, w);
      hide Sealed, Valid, Base;
    }
  }

  // ------------------------------------------------ when a success is durable

  /** Every directory reported made would survive a crash. */
  ghost predicate Honoured(fs: Fs)
    requires [] in fs.dirs
  {
    forall dir, w :: MadeAll(fs, dir, w).1 ==> Survives(MadeAll(fs, dir, w).0.linked, dir)
  }

  const CALM := Faults(_ => true, true, 0, _ => true, _ => true, true, true)

  /** That is so exactly when everything already there would. */
  lemma HonouredIff(fs: Fs)
    requires Valid(fs)
    ensures Honoured(fs) <==> Settled(fs)
  {
    if Settled(fs) {
      forall dir, w ensures MadeAll(fs, dir, w).1 ==> Survives(MadeAll(fs, dir, w).0.linked, dir) {
        MadeSurvives(fs, dir, w);
      }
    } else {
      var p :| p in fs.dirs && !Survives(fs.linked, p);
      assert MadeAll(fs, p, CALM) == (fs, true);
    }
  }

  /** A crash settles what it keeps. */
  lemma CrashSettles(fs: Fs)
    requires Valid(fs)
    ensures Valid(Crashed(fs)) && Settled(Crashed(fs))
  {
    var c := Crashed(fs);
    forall p | Exists(c, p) && p != [] ensures Parent(p) in c.dirs {
      forall k | 0 < k <= |Parent(p)| ensures Parent(p)[..k] in fs.linked { assert Parent(p)[..k] == p[..k]; }
    }
    forall p | p in c.dirs ensures Survives(c.linked, p) {
      forall k | 0 < k <= |p| ensures p[..k] in c.linked {
        forall m | 0 < m <= k ensures p[..k][..m] in fs.linked { assert p[..k][..m] == p[..m]; }
      }
    }
  }

  /** A success keeps what was settled settled. */
  lemma MadeSettles(fs: Fs, dir: Path, w: Faults)
    requires Valid(fs) && Settled(fs) && MadeAll(fs, dir, w).1
    ensures Settled(MadeAll(fs, dir, w).0)
  {
    MadeSurvives(fs, dir, w);
    var fs' := MadeAll(fs, dir, w).0;
    forall p | p in fs'.dirs ensures Survives(fs'.linked, p) {
      if p in fs.dirs {
        assert Survives(fs.linked, p);
      } else {
        assert p in Levels(dir, 0, |dir|);
        forall k | 0 < k <= |p| ensures p[..k] in fs'.linked { assert p[..k] == dir[..k]; }
      }
    }
  }

  const BLANK := Fs({[]}, map[], {})
  const UNFLUSHED := CALM.(sync := _ => false)

  /** A directory whose flush failed is there for the next call, which reports it
      made, and a crash takes it. */
  lemma RetryForgets()
    ensures
      var (first, ok) := MadeAll(BLANK, ["a"], UNFLUSHED);
      var (second, again) := MadeAll(first, ["a"], CALM);
      && Valid(BLANK) && Settled(BLANK) && !ok && again
      && ["a"] in second.dirs && !Survives(second.linked, ["a"]) && ["a"] !in Crashed(second).dirs
  {
    var dir: Path := ["a"];
    assert dir[..0] == [] && dir[..1] == dir && Parent(dir) == [];
    assert Base(BLANK, dir) == [];
    var (first, ok) := MadeAll(BLANK, dir, UNFLUSHED);
    assert !Blocked(BLANK, dir);
    assert first == BLANK.(dirs := BLANK.dirs + Levels(dir, 0, 1)) && !ok;
    assert dir in Levels(dir, 0, 1);
    assert MadeAll(first, dir, CALM) == (first, true);
    assert dir[..1] !in first.linked;
  }

  // ------------------------------------------------------- appended bytes

  /** A file that holds bytes is linked. */
  ghost predicate Held(fs: Fs) {
    forall f | f in fs.files && fs.files[f] > 0 :: f in fs.linked
  }

  /** Appended bytes survive a crash exactly when the nearest directory that was
      there before the append does. */
  lemma AppendSurvives(fs: Fs, name: Path, n: nat, w: Faults)
    requires Valid(fs) && Held(fs) && name != []
    ensures
      var (fs', ok) := AppendedTo(fs, name, n, w);
      Valid(fs') && Held(fs') && (ok ==> Landed(fs, name, n, fs'))
  {
    AppendHolds(fs, name, n, w);
    hide Valid, Held, Landed;
    if AppendedTo(fs, name, n, w).1 { AppendLands(fs, name, n, w); }
  }

  /** An append succeeds exactly when its directory is made and nothing faults: the
      open and the write, and for a file without bytes its mode and the flush of its
      entry.  One that fails adds no byte. */
  lemma AppendIff(fs: Fs, name: Path, n: nat, w: Faults)
    requires Valid(fs) && name != []
    ensures
      var (fs', ok) := AppendedTo(fs, name, n, w);
      && (ok <==> MadeAll(fs, Parent(name), w).1 && w.open && w.write && name !in fs.dirs
                  && (name !in fs.files || fs.files[name] == 0 ==> w.chmod(name) && w.sync(Parent(name))))
      && (!ok ==> fs'.files == fs.files || (name !in fs.files && fs'.files == fs.files[name := 0]))
  {
    assert [] in fs.dirs;
    MadeOnly(fs, Parent(name), w);
    MadeKeeps(fs, Parent(name), w);
    assert !(name <= Parent(name));
    hide MadeAll, Valid;
    var made := MadeAll(fs, Parent(name), w).0;
    assert name in fs.files ==> fs.files[name := fs.files[name]] == fs.files;
    assert fs.dirs <= made.dirs by { MadeGrows(fs, Parent(name), w); }
  }

  lemma MadeGrows(fs: Fs, dir: Path, w: Faults)
    requires Valid(fs)
    ensures fs.dirs <= MadeAll(fs, dir, w).0.dirs
  {
    MadeSurvives(fs, dir, w);
  }

  lemma AppendHolds(fs: Fs, name: Path, n: nat, w: Faults)
    requires Valid(fs) && Held(fs) && name != []
    ensures Valid(AppendedTo(fs, name, n, w).0) && Held(AppendedTo(fs, name, n, w).0)
  {
    assert [] in fs.dirs;
    hide MadeAll, Valid, Held, Flushed;
    MadeKeeps(fs, Parent(name), w);
    var (made, ok) := MadeAll(fs, Parent(name), w);
    MadeHeld(fs, made);
    if ok && w.open && name !in made.dirs {
      EntryHolds(made, name, n);
    }
  }

  /** The entry of an empty file is flushed, and then its bytes land. */
  lemma EntryHolds(made: Fs, name: Path, n: nat)
    requires Valid(made) && Held(made) && name != [] && name !in made.dirs && Parent(name) in made.dirs
    ensures
      var size := if name in made.files then made.files[name] else 0;
      var entered := made.(files := made.files[name := size]);
      var ready := if size == 0 then Flushed(entered, Parent(name)) else entered;
      && Valid(entered) && Held(entered) && Valid(ready) && Held(ready)
      && Valid(ready.(files := ready.files[name := size + n])) && Held(ready.(files := ready.files[name := size + n]))
  {
    hide Valid, Flushed;
    var size := if name in made.files then made.files[name] else 0;
    var entered := made.(files := made.files[name := size]);
    Entered(made, name, size);
    FlushedValid(entered, Parent(name));
    FlushedHeld(entered, name);
    var ready := if size == 0 then Flushed(entered, Parent(name)) else entered;
    Entered(ready, name, size + n);
  }

  lemma MadeKeeps(fs: Fs, dir: Path, w: Faults)
    requires Valid(fs)
    ensures
      var (fs', ok) := MadeAll(fs, dir, w);
      Valid(fs') && fs'.files == fs.files && fs.linked <= fs'.linked && (ok ==> dir in fs'.dirs)
  {
    assert [] in fs.dirs;
    hide MadeAll, Valid, Survives;
    MadeSurvives(fs, dir, w);
  }

  lemma AppendLands(fs: Fs, name: Path, n: nat, w: Faults)
    requires Valid(fs) && Held(fs) && name != [] && AppendedTo(fs, name, n, w).1
    ensures Landed(fs, name, n, AppendedTo(fs, name, n, w).0)
  {
    assert [] in fs.dirs;
    hide MadeAll, Survives, Valid, Held, Flushed, Levels;
    var dir := Parent(name);
    MadeSurvives(fs, dir, w);
    var (made, ok) := MadeAll(fs, dir, w);
    MadeHeld(fs, made);
    var size := if name in made.files then made.files[name] else 0;
    var entered := made.(files := made.files[name := size]);
    Entered(made, name, size);
    FlushedValid(entered, dir);
    FlushedHeld(entered, name);
    var ready := if size == 0 then Flushed(entered, dir) else entered;
    assert fs.files[name := size][name := size + n] == fs.files[name := size + n];
    EntrySurvives(made.linked, ready.linked, name);
  }

  /** The bytes are there, and as safe as the directory they went to. */
  ghost predicate Landed(fs: Fs, name: Path, n: nat, fs': Fs)
    requires [] in fs.dirs && name != []
  {
    && fs'.files == fs.files[name := (if name in fs.files then fs.files[name] else 0) + n]
    && (Survives(fs'.linked, name) <==> Survives(fs.linked, Base(fs, Parent(name))))
  }

  lemma Entered(fs: Fs, name: Path, size: nat)
    requires Valid(fs) && name != [] && name !in fs.dirs && Parent(name) in fs.dirs
    ensures Valid(fs.(files := fs.files[name := size]))
    ensures Held(fs) && (size > 0 ==> name in fs.linked) ==> Held(fs.(files := fs.files[name := size]))
  {
  }

  lemma FlushedHeld(fs: Fs, name: Path)
    requires Valid(fs) && Held(fs) && name != [] && name in fs.files
    ensures Held(Flushed(fs, Parent(name))) && name in Flushed(fs, Parent(name)).linked
    ensures fs.files[name] > 0 ==> name in fs.linked
  {
  }

  lemma MadeHeld(fs: Fs, made: Fs)
    requires Held(fs) && made.files == fs.files && fs.linked <= made.linked
    ensures Held(made)
  {
  }

  lemma EntrySurvives(linked: set<Path>, linked': set<Path>, name: Path)
    requires name != [] && linked <= linked' && name in linked'
    requires forall p | p in linked' && p !in linked :: p != [] && Parent(p) == Parent(name)
    ensures Survives(linked', name) <==> Survives(linked, Parent(name))
  {
    assert Parent(name) == name[..|name| - 1] && name[..|name|] == name;
    SurvivesAcross(linked, linked', name, |name| - 1);
  }

  // ------------------------------------------------------------- whole runs

  datatype Step = Make(dir: Path, w: Faults) | Append(name: Path, n: nat, w: Faults) | Crash

  function Next(fs: Fs, step: Step): Fs
    requires [] in fs.dirs && (step.Append? ==> step.name != [])
  {
    match step
    case Make(dir, w) => MadeAll(fs, dir, w).0
    case Append(name, n, w) => AppendedTo(fs, name, n, w).0
    case Crash => Crashed(fs)
  }

  /** A creation that failed after making a level. */
  predicate CutShort(fs: Fs, step: Step)
    requires [] in fs.dirs && (step.Append? ==> step.name != [])
  {
    match step
    case Make(dir, w) => !MadeAll(fs, dir, w).1 && MadeAll(fs, dir, w).0 != fs
    case Append(name, n, w) => !MadeAll(fs, Parent(name), w).1 && MadeAll(fs, Parent(name), w).0 != fs
    case Crash => false
  }

  ghost predicate IsRun(states: seq<Fs>, steps: seq<Step>) {
    && |states| == |steps| + 1
    && forall i | 0 <= i < |steps| ::
         && [] in states[i].dirs && (steps[i].Append? ==> steps[i].name != [])
         && !CutShort(states[i], steps[i]) && states[i + 1] == Next(states[i], steps[i])
  }

  ghost predicate Safe(fs: Fs) {
    Valid(fs) && Held(fs) && Settled(fs)
  }

  lemma StepSafe(fs: Fs, step: Step)
    requires Safe(fs) && (step.Append? ==> step.name != []) && !CutShort(fs, step)
    ensures Safe(Next(fs, step))
  {
    assert [] in fs.dirs;
    hide Valid, Held, Settled, MadeAll, Crashed;
    match step
    case Make(dir, w) =>
      MadeKeeps(fs, dir, w);
      MadeHeld(fs, MadeAll(fs, dir, w).0);
      if MadeAll(fs, dir, w).1 { MadeSettles(fs, dir, w); }
    case Append(name, n, w) =>
      AppendHolds(fs, name, n, w);
      AppendSettles(fs, name, n, w);
    case Crash =>
      CrashSettles(fs);
      CrashHolds(fs);
  }

  lemma AppendSettles(fs: Fs, name: Path, n: nat, w: Faults)
    requires Safe(fs) && name != [] && !CutShort(fs, Append(name, n, w))
    ensures Settled(AppendedTo(fs, name, n, w).0)
  {
    var (made, ok) := MadeAll(fs, Parent(name), w);
    if ok { MadeSettles(fs, Parent(name), w); }
    hide MadeAll, Valid, Held;
    var fs' := AppendedTo(fs, name, n, w).0;
    assert fs'.dirs == made.dirs && made.linked <= fs'.linked;
    forall p | p in fs'.dirs ensures Survives(fs'.linked, p) { assert Survives(made.linked, p); }
  }

  lemma CrashHolds(fs: Fs)
    requires Valid(fs) && Held(fs)
    ensures Held(Crashed(fs))
  {
  }

  lemma {:induction false} RunSafe(states: seq<Fs>, steps: seq<Step>)
    requires IsRun(states, steps) && states[0] == BLANK
    ensures Safe(states[|steps|])
    decreases |steps|
  {
    if steps != [] {
      var n := |steps| - 1;
      RunSafe(states[..n + 1], steps[..n]);
      StepSafe(states[n], steps[n]);
    }
  }

  /** Over any run in which no creation was cut short, a crash at its end keeps
      every directory and every appended byte. */
  lemma NothingForgotten(states: seq<Fs>, steps: seq<Step>)
    requires IsRun(states, steps) && states[0] == BLANK
    ensures
      var fs := states[|steps|];
      && Crashed(fs).dirs == fs.dirs
      && forall f | f in fs.files && fs.files[f] > 0 :: f in Crashed(fs).files && Crashed(fs).files[f] == fs.files[f]
  {
    var fs := states[|steps|];
    RunSafe(states, steps);
    forall f | f in fs.files && fs.files[f] > 0 ensures Survives(fs.linked, f) {
      assert Survives(fs.linked, Parent(f));
      EntrySurvives(fs.linked, fs.linked, f);
    }
  }
}
