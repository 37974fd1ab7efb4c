/** The walk of a tree of directories and symbolic links (pkg/fsid/fsid.go,
    `WalkFiles`): every reachable directory once, whatever links lead back into
    what is already walked. */
module TreeWalks {
  import opened Records

  /** A physical path from the file system's root, split at its separators; a
      logical path is relative to the root the walk was asked for. */
  datatype Kind =
    | Dir(names: seq<string>)
    | File
    | LinkToFile
    | LinkToDir(target: Path)
    | Other

  type Tree = map<Path, Kind>

  predicate IsDir(t: Tree, p: Path) {
    p in t && t[p].Dir?
  }

  function Parent(p: Path): Path
    requires p != []
  {
    p[..|p| - 1]
  }

  /** Directories list their entries once each, every entry is in a directory
      that lists it, and links resolve to directories that are there. */
  ghost predicate WellFormed(t: Tree) {
    && (forall p, i | IsDir(t, p) && 0 <= i < |t[p].names| :: p + [t[p].names[i]] in t)
    && (forall p, i, j | IsDir(t, p) && 0 <= i < j < |t[p].names| :: t[p].names[i] != t[p].names[j])
    && (forall p {:trigger Parent(p)} | p in t && p != [] :: IsDir(t, Parent(p)) && p[|p| - 1] in t[Parent(p)].names)
    && (forall p | p in t && t[p].LinkToDir? :: IsDir(t, t[p].target))
  }

  /** The entry a logical path denotes, links followed. */
  function Denotes(t: Tree, start: Path, rel: Path): Option<Path> {
    if rel == [] then Some(start)
    else
      var q := Denotes(t, start, Parent(rel));
      if q.None? || !IsDir(t, q.value) then None
      else
        var e := q.value + [rel[|rel| - 1]];
        if e !in t then None else if t[e].LinkToDir? then Some(t[e].target) else Some(e)
  }

  // ---------------------------------------------------------- the walk's roots

  datatype Root = Root(phys: Path, logical: Path)

  /** Whether a walked subtree contains a resolved directory, as the walk tests
      it: the same path, or one behind the root's path and a separator. */
  predicate Owns(root: Path, p: Path) {
    p == root || (root != [] && root <= p)
  }

  /** The test is containment exactly when the root is not the file system's own:
      behind its path a second separator never follows. */
  lemma OwnsIsContainment(root: Path)
    ensures (forall p :: Owns(root, p) <==> root <= p) <==> root != []
  {
    if root == [] {
      assert root <= ["a"] && !Owns(root, ["a"]);
    }
  }

  /** The first root that owns a directory. */
  function Owner(roots: seq<Root>, p: Path): (o: int)
    ensures -1 <= o < |roots|
    ensures o >= 0 ==> Owns(roots[o].phys, p)
    ensures forall i | 0 <= i < (if o >= 0 then o else |roots|) :: !Owns(roots[i].phys, p)
  {
    if roots == [] then -1
    else
      var o := Owner(roots[..|roots| - 1], p);
      if o >= 0 then o else if Owns(roots[|roots| - 1].phys, p) then |roots| - 1 else -1
  }

  /** So a walk rooted at the file system's own root takes every link for one
      that leads out of it, and walks the target again. */
  lemma SlashOwnsNothing(logical: Path, p: Path)
    requires p != []
    ensures [] <= p && Owner([Root([], logical)], p) == -1
  {
  }

  /** A later root never changes who owns a directory first. */
  lemma OwnerGrows(a: seq<Root>, b: seq<Root>, p: Path)
    requires a <= b
    ensures Owner(a, p) >= 0 ==> Owner(b, p) == Owner(a, p)
    ensures Owner(b, p) < |a| ==> Owner(a, p) == Owner(b, p)
  {
    assert forall i | 0 <= i < |a| :: a[i] == b[i];
  }

  /** Where a directory is reported by the walk that owns it. */
  function LogicalOf(roots: seq<Root>, p: Path): Path
    requires Owner(roots, p) >= 0
  {
    var r := roots[Owner(roots, p)];
    r.logical + p[|r.phys|..]
  }

  /** No root lies inside an earlier one, and each is where its name leads. */
  ghost predicate RootsOk(t: Tree, start: Path, roots: seq<Root>) {
    && (forall i | 0 <= i < |roots| ::
          roots[i].phys != [] && IsDir(t, roots[i].phys) && Denotes(t, start, roots[i].logical) == Some(roots[i].phys))
    && (forall i, j | 0 <= i < j < |roots| :: !(roots[i].phys <= roots[j].phys))
  }

  lemma OwnerOfRoot(t: Tree, start: Path, roots: seq<Root>, i: nat)
    requires RootsOk(t, start, roots) && i < |roots|
    ensures Owner(roots, roots[i].phys) == i && LogicalOf(roots, roots[i].phys) == roots[i].logical
  {
    var o := Owner(roots, roots[i].phys);
    assert Owns(roots[i].phys, roots[i].phys);
  }

  /** An entry of a directory is owned with it, unless it is itself a root. */
  lemma OwnerOfChild(t: Tree, start: Path, roots: seq<Root>, d: Path, name: string)
    requires RootsOk(t, start, roots) && Owner(roots, d) >= 0
    requires forall i | 0 <= i < |roots| :: roots[i].phys != d + [name]
    ensures Owner(roots, d + [name]) == Owner(roots, d)
    ensures LogicalOf(roots, d + [name]) == LogicalOf(roots, d) + [name]
  {
    var c, o := d + [name], Owner(roots, d);
    forall i | 0 <= i < |roots| ensures Owns(roots[i].phys, c) <==> Owns(roots[i].phys, d) {
      PrefixStep(roots[i].phys, d, name);
    }
    var r := roots[o];
    assert c[|r.phys|..] == d[|r.phys|..] + [name];
  }

  lemma PrefixStep(r: Path, d: Path, name: string)
    ensures r <= d + [name] <==> r <= d || r == d + [name]
  {
    if |r| <= |d| { assert (d + [name])[..|r|] == d[..|r|]; }
  }

  lemma {:induction false} AncestorsAreDirs(t: Tree, p: Path, k: nat)
    requires WellFormed(t) && IsDir(t, p) && k <= |p|
    ensures IsDir(t, p[..k])
    decreases |p|
  {
    if k == |p| {
      assert p[..k] == p;
    } else {
      AncestorsAreDirs(t, Parent(p), k);
      assert Parent(p)[..k] == p[..k];
    }
  }

  lemma DenotesStep(t: Tree, start: Path, rel: Path, q: Path, name: string)
    requires Denotes(t, start, rel) == Some(q) && IsDir(t, q) && q + [name] in t
    ensures Denotes(t, start, rel + [name])
            == Some(if t[q + [name]].LinkToDir? then t[q + [name]].target else q + [name])
  {
    assert Parent(rel + [name]) == rel;
  }

  lemma ParentLists(t: Tree, p: Path)
    requires WellFormed(t) && p in t && p != []
    ensures IsDir(t, Parent(p)) && p == Parent(p) + [p[|p| - 1]] && p[|p| - 1] in t[Parent(p)].names
  {
    LastName(p);
    assert IsDir(t, Parent(p)) && p[|p| - 1] in t[Parent(p)].names;
    hide WellFormed;
  }

  lemma LastName(p: Path)
    requires p != []
    ensures p == Parent(p) + [p[|p| - 1]]
  {
  }

  lemma TailStep(a: Path, r: nat, q: Path, name: string)
    requires r <= |q|
    ensures a + (q + [name])[r..] == a + q[r..] + [name]
  {
    assert (q + [name])[r..] == q[r..] + [name];
  }

  /** Beneath a root, a directory's name leads to it. */
  lemma {:induction false} DenotesDown(t: Tree, start: Path, root: Root, p: Path)
    requires WellFormed(t) && Denotes(t, start, root.logical) == Some(root.phys)
    requires IsDir(t, p) && root.phys <= p
    ensures Denotes(t, start, root.logical + p[|root.phys|..]) == Some(p)
    decreases |p|
  {
    hide Denotes, WellFormed;
    if p == root.phys {
      assert root.logical + p[|root.phys|..] == root.logical;
    } else {
      ParentLists(t, p);
      var q, name := Parent(p), p[|p| - 1];
      PrefixStep(root.phys, q, name);
      DenotesDown(t, start, root, q);
      DenotesStep(t, start, root.logical + q[|root.phys|..], q, name);
      TailStep(root.logical, |root.phys|, q, name);
    }
  }

  lemma LogicalLeads(t: Tree, start: Path, roots: seq<Root>, p: Path)
    requires WellFormed(t) && RootsOk(t, start, roots) && IsDir(t, p) && Owner(roots, p) >= 0
    ensures Denotes(t, start, LogicalOf(roots, p)) == Some(p)
  {
    DenotesDown(t, start, roots[Owner(roots, p)], p);
  }
}
