/** What the walk of a tree does (pkg/fsid/fsid.go), as a function of the tree and
    of what was walked before: the registered subtrees, the aliases declined, the
    reports, and the directories visited, in order. */
module TreeTours {
  import opened Records
  import opened TreeWalks
  import opened TreeSteps

  /** The first walk rooted exactly at a directory. */
  function RootOf(roots: seq<Root>, p: Path): (o: int)
    ensures -1 <= o < |roots|
    ensures o >= 0 ==> roots[o].phys == p
    ensures forall i | 0 <= i < (if o >= 0 then o else |roots|) :: roots[i].phys != p
  {
    if roots == [] then -1
    else
      var o := RootOf(roots[..|roots| - 1], p);
      if o >= 0 then o else if roots[|roots| - 1].phys == p then |roots| - 1 else -1
  }

  /** A subtree is registered, then traversed. */
  ghost function Toured(t: Tree, w: Tour, r: Root): (y: Tour)
    requires WellFormed(t) && IsDir(t, r.phys) && Owner(w.roots, r.phys) < 0
    ensures w.roots + [r] <= y.roots && w.visits <= y.visits
    decreases |Unrooted(t, w.roots)|, 0, 0, 0
  {
    UnrootedDrops(t, w.roots, r);
    DirToured(t, w.(roots := w.roots + [r]), r, r.phys)
  }

  ghost function DirToured(t: Tree, w: Tour, r: Root, d: Path): (y: Tour)
    requires WellFormed(t) && IsDir(t, d) && r.phys <= d
    ensures w.roots <= y.roots && w.visits <= y.visits
    decreases |Unrooted(t, w.roots)|, |Beneath(t, d)|, 3, 0
  {
    EntriesToured(t, w.(visits := w.visits + [d]), r, d, |t[d].names|)
  }

  /** The first `n` entries of a directory, in listing order. */
  ghost function EntriesToured(t: Tree, w: Tour, r: Root, d: Path, n: nat): (y: Tour)
    requires WellFormed(t) && IsDir(t, d) && r.phys <= d && n <= |t[d].names|
    ensures w.roots <= y.roots && w.visits <= y.visits
    decreases |Unrooted(t, w.roots)|, |Beneath(t, d)|, 2, n
  {
    if n == 0 then w
    else
      var x := EntriesToured(t, w, r, d, n - 1);
      UnrootedShrinks(t, w.roots, x.roots);
      EntryToured(t, x, r, d, t[d].names[n - 1])
  }

  /** One entry: a file is reported, a directory walked unless another walk is
      rooted at it, a link to a directory followed unless its target is already
      walked. */
  ghost function EntryToured(t: Tree, w: Tour, r: Root, d: Path, name: string): (y: Tour)
    requires WellFormed(t) && IsDir(t, d) && r.phys <= d && d + [name] in t
    ensures w.roots <= y.roots && w.visits <= y.visits
    decreases |Unrooted(t, w.roots)|, |Beneath(t, d)|, 1, 0
  {
    hide WellFormed, Unrooted, Beneath, Owner;
    var c := d + [name];
    var lp := r.logical + c[|r.phys|..];
    BeneathDrops(t, d, name);
    match t[c]
    case Dir(_) =>
      var o := RootOf(w.roots, c);
      if o >= 0 then w.(aliases := w.aliases[lp := w.roots[o].logical]) else DirToured(t, w, r, c)
    case LinkToDir(target) =>
      LinkIsDir(t, c);
      if Owner(w.roots, target) >= 0 then w.(aliases := w.aliases[lp := LogicalOf(w.roots, target)])
      else Toured(t, w, Root(target, lp))
    case File => w.(reports := w.reports + [Report(lp, c)])
    case LinkToFile => w.(reports := w.reports + [Report(lp, c)])
    case Other => w
  }

  /** Walking a tree from a directory. */
  ghost function TourOf(t: Tree, start: Path): Tour
    requires WellFormed(t) && IsDir(t, start)
  {
    Toured(t, Tour([], map[], [], []), Root(start, []))
  }
}
