/** The walker itself (pkg/fsid/fsid.go): a recursive traversal that registers
    the subtrees it walks and declines links, and plain directories, that would
    walk one twice. */
module TreeWalkers {
  import opened Records
  import opened TreeWalks
  import opened TreeSteps
  import opened TreeTours
  import opened TreeSafety

  class Walker {
    const t: Tree
    var roots: seq<Root>
    var aliases: map<Path, Path>
    var reports: seq<Report>
    ghost var visits: seq<Path>

    constructor (t: Tree)
      ensures this.t == t && T() == Tour([], map[], [], [])
    {
      this.t := t;
      roots, aliases, reports, visits := [], map[], [], [];
    }

    ghost function T(): Tour
      reads this
    {
      Tour(roots, aliases, reports, visits)
    }

    /** The logical path the traversal reports a resolved directory under, when a
        registered subtree contains it. */
    method OwnerOf(resolved: Path) returns (owner: Option<Path>)
      ensures owner == if Owner(roots, resolved) >= 0 then Some(LogicalOf(roots, resolved)) else None
    {
      for i := 0 to |roots|
        invariant forall k | 0 <= k < i :: !Owns(roots[k].phys, resolved)
      {
        if resolved == roots[i].phys {
          assert Owner(roots, resolved) == i && roots[i].logical + resolved[|resolved|..] == roots[i].logical;
          return Some(roots[i].logical);
        }
        if roots[i].phys != [] && roots[i].phys <= resolved {
          assert Owner(roots, resolved) == i;
          return Some(roots[i].logical + resolved[|roots[i].phys|..]);
        }
      }
      owner := None;
    }

    /** The logical root of the walk a plain directory is the root of. */
    method RootAt(p: Path) returns (owner: Option<Path>)
      ensures owner == if RootOf(roots, p) >= 0 then Some(roots[RootOf(roots, p)].logical) else None
    {
      for i := 0 to |roots|
        invariant forall k | 0 <= k < i :: roots[k].phys != p
      {
        if p == roots[i].phys {
          assert RootOf(roots, p) == i;
          return Some(roots[i].logical);
        }
      }
      owner := None;
    }

    /** Registers a subtree and traverses it. */
    method Walk(physical: Path, logical: Path)
      requires WellFormed(t) && IsDir(t, physical) && Owner(roots, physical) < 0
      modifies this
      ensures T() == Toured(t, old(T()), Root(physical, logical))
      decreases |Unrooted(t, roots)|, 0, 0, 0
    {
      hide WellFormed, Owner, DirToured;
      UnrootedDrops(t, roots, Root(physical, logical));
      roots := roots + [Root(physical, logical)];
      WalkDir(physical, logical, physical);
    }

    /** Traverses one directory of the subtree at `physical`, its entries in the
        order they are listed. */
    method WalkDir(physical: Path, logical: Path, d: Path)
      requires WellFormed(t) && IsDir(t, d) && physical <= d
      modifies this
      ensures T() == DirToured(t, old(T()), Root(physical, logical), d)
      decreases |Unrooted(t, roots)|, |Beneath(t, d)|, 3, 0
    {
      hide WellFormed, EntryToured, Unrooted, Beneath;
      visits := visits + [d];
      ghost var w := T();
      var names := t[d].names;
      for n := 0 to |names|
        invariant T() == EntriesToured(t, w, Root(physical, logical), d, n)
      {
        UnrootedShrinks(t, w.roots, roots);
        NamesApart(t, d, n);
        VisitEntry(physical, logical, d, names[n]);
      }
    }

    /** One entry of a directory: a file is reported, a directory walked unless
        another walk is rooted at it, a link to a directory followed unless its
        target is already walked. */
    method VisitEntry(physical: Path, logical: Path, d: Path, name: string)
      requires WellFormed(t) && IsDir(t, d) && physical <= d && d + [name] in t
      modifies this
      ensures T() == EntryToured(t, old(T()), Root(physical, logical), d, name)
      decreases |Unrooted(t, roots)|, |Beneath(t, d)|, 1, 1
    {
      hide WellFormed, Owner, DirToured, Toured, Unrooted, Beneath;
      var c := d + [name];
      var lp := logical + c[|physical|..];
      if t[c].Dir? {
        var owner := RootAt(c);
        if owner.Some? {
          aliases := aliases[lp := owner.value];
        } else {
          BeneathDrops(t, d, name);
          WalkDir(physical, logical, c);
        }
      } else if t[c].LinkToDir? {
        VisitLink(lp, t[c].target, d, name);
      } else if Reported(t[c]) {
        reports := reports + [Report(lp, c)];
      }
    }

    /** A link to a directory is followed unless its target is already walked. */
    method VisitLink(logical: Path, target: Path, ghost d: Path, ghost name: string)
      requires WellFormed(t) && d in t && d + [name] in t && t[d + [name]] == LinkToDir(target)
      modifies this
      ensures T() == if Owner(old(roots), target) >= 0
                     then old(T()).(aliases := old(aliases)[logical := LogicalOf(old(roots), target)])
                     else Toured(t, old(T()), Root(target, logical))
      decreases |Unrooted(t, roots)|, |Beneath(t, d)|, 1, 0
    {
      hide Owner, Toured, Unrooted, Beneath;
      BeneathDrops(t, d, name);
      var owner := OwnerOf(target);
      if owner.Some? {
        aliases := aliases[logical := owner.value];
      } else {
        Walk(target, logical);
      }
    }
  }

  /** Walks a tree from a directory, handing over each file's logical name and
      the aliases it declined to follow. */
  method WalkFiles(t: Tree, start: Path) returns (w: Walker)
    requires WellFormed(t) && IsDir(t, start)
    ensures w.T() == TourOf(t, start)
    ensures start != [] && NoRootLinks(t) ==> Done(t, start, w.T())
  {
    hide WellFormed, Toured, Done, NoRootLinks;
    w := new Walker(t);
    w.Walk(start, []);
    if start != [] && NoRootLinks(t) { TourDone(t, start); }
  }
}
