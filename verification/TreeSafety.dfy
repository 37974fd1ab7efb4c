/** Why the walk of a tree visits each reachable directory once (pkg/fsid/fsid.go):
    what every step of it keeps, and what a finished walk amounts to. */
module TreeSafety {
  import opened Records
  import opened TreeWalks
  import opened TreeSteps
  import opened TreeTours

  /** No link leads to the file system's own root. */
  predicate NoRootLinks(t: Tree) {
    forall p | p in t && t[p].LinkToDir? :: t[p].target != []
  }

  /** Everything beneath one entry of a directory. */
  ghost predicate InEntry(d: Path, names: seq<string>, p: Path) {
    d < p && p[|d|] in names
  }

  /** New reports are of entries of directories visited since, or of the named
      entries of `d`. */
  ghost predicate NewReports(w: Tour, w': Tour, d: Path, names: seq<string>) {
    forall k | |w.reports| <= k < |w'.reports| ::
      var e := w'.reports[k].entry;
      e != [] && (Parent(e) !in w.visits || (Parent(e) == d && e[|e| - 1] in names))
  }

  ghost predicate Adds(t: Tree, w: Tour, w': Tour, i: nat, d: Path, names: seq<string>) {
    Extends(t, w, w', i, p => InEntry(d, names, p)) && NewReports(w, w', d, names)
  }

  /** What root `i` owns beneath some entries of `d` is visited. */
  ghost predicate EntriesDone(t: Tree, w: Tour, i: nat, d: Path, names: seq<string>) {
    forall p | IsDir(t, p) && InEntry(d, names, p) && Owner(w.roots, p) == i :: p in w.visits
  }

  ghost predicate NothingOf(w: Tour, i: nat, d: Path, names: seq<string>) {
    forall p | p in w.visits && Owner(w.roots, p) == i :: !InEntry(d, names, p)
  }

  lemma CoveredStays(t: Tree, w: Tour, w': Tour, k: nat)
    requires w.roots <= w'.roots && w.visits <= w'.visits && k < |w.roots| && Covered(t, w, k)
    ensures Covered(t, w', k)
  {
    forall p | IsDir(t, p) && Owner(w'.roots, p) == k ensures p in w'.visits {
      OwnerGrows(w.roots, w'.roots, p);
      InPrefix(w.visits, w'.visits, p);
    }
  }

  lemma InPrefix<T>(a: seq<T>, b: seq<T>, x: T)
    requires a <= b && x in a
    ensures x in b
  {
    var k :| 0 <= k < |a| && a[k] == x;
    assert b[k] == x;
  }

  lemma NamedStays(t: Tree, w: Tour, w': Tour, e: Path)
    requires w.roots <= w'.roots && w.aliases.Keys <= w'.aliases.Keys && e in t && Named(t, w, e)
    ensures Named(t, w', e)
  {
    var p := if t[e].LinkToDir? then t[e].target else e;
    LogicalGrows(w.roots, w'.roots, Parent(e));
    if Owner(w.roots, p) >= 0 { LogicalGrows(w.roots, w'.roots, p); }
  }

  lemma HandledStays(t: Tree, w: Tour, w': Tour, e: Path)
    requires w.reports <= w'.reports && w.roots <= w'.roots && w.aliases.Keys <= w'.aliases.Keys && e in t && Handled(t, w, e)
    ensures Handled(t, w', e)
  {
    if t[e].Dir? || t[e].LinkToDir? { NamedStays(t, w, w', e); }
    if Reported(t[e]) {
      var r :| r in w.reports && r.entry == e;
      InPrefix(w.reports, w'.reports, r);
    }
    if t[e].LinkToDir? { OwnerGrows(w.roots, w'.roots, t[e].target); }
  }

  lemma AllHandledStays(t: Tree, w: Tour, w': Tour, p: Path)
    requires w.reports <= w'.reports && w.roots <= w'.roots && w.aliases.Keys <= w'.aliases.Keys && AllHandled(t, w, p)
    ensures AllHandled(t, w', p)
  {
    hide Handled;
    forall e | e in t && e != [] && Parent(e) == p ensures Handled(t, w', e) {
      HandledStays(t, w, w', e);
    }
  }

  lemma ExtendsAgain(t: Tree, a: Tour, b: Tour, c: Tour, i: nat, z: Path -> bool, y: Path -> bool, x: Path -> bool)
    requires Extends(t, a, b, i, z) && Extends(t, b, c, i, y) && VisitsOk(t, b)
    requires forall p | z(p) || y(p) :: x(p)
    ensures Extends(t, a, c, i, x)
  {
    hide Covered, AllHandled, Owner;
    forall k | |a.visits| <= k < |c.visits|
      ensures Owner(c.roots, c.visits[k]) >= |a.roots| || (Owner(c.roots, c.visits[k]) == i && x(c.visits[k]))
      ensures AllHandled(t, c, c.visits[k])
    {
      if k < |b.visits| {
        assert c.visits[k] == b.visits[k];
        LogicalGrows(b.roots, c.roots, b.visits[k]);
        AllHandledStays(t, b, c, b.visits[k]);
      }
    }
    forall k | |a.roots| <= k < |c.roots| ensures Covered(t, c, k) {
      if k < |b.roots| { CoveredStays(t, b, c, k); }
    }
  }

  lemma EntriesMore(t: Tree, b: Tour, c: Tour, i: nat, d: Path, names: seq<string>, name: string)
    requires b.roots <= c.roots && b.visits <= c.visits && i < |b.roots|
    requires EntriesDone(t, b, i, d, names) && EntriesDone(t, c, i, d, [name])
    ensures EntriesDone(t, c, i, d, names + [name])
  {
    forall p | IsDir(t, p) && InEntry(d, names + [name], p) && Owner(c.roots, p) == i ensures p in c.visits {
      OwnerGrows(b.roots, c.roots, p);
      if InEntry(d, names, p) { InPrefix(b.visits, c.visits, p); }
    }
  }

  /** Nothing visited so far belongs to a root just registered. */
  lemma Fresh(w: Tour, r: Root)
    requires forall k | 0 <= k < |w.visits| :: Owner(w.roots + [r], w.visits[k]) < |w.roots|
    ensures forall p | p in w.visits && Owner(w.roots + [r], p) == |w.roots| :: !(r.phys <= p)
  {
    forall p | p in w.visits ensures Owner(w.roots + [r], p) < |w.roots| {
      var k :| 0 <= k < |w.visits| && w.visits[k] == p;
    }
  }

  lemma RootWalked(t: Tree, a: Tour, b: Tour, c: Tour, r: Root)
    requires b == a.(roots := a.roots + [r])
    requires Extends(t, b, c, |a.roots|, p => r.phys <= p) && NewReports(b, c, [], [])
    requires forall p | IsDir(t, p) && r.phys <= p && Owner(c.roots, p) == |a.roots| :: p in c.visits
    ensures Extends(t, a, c, 0, _ => false) && NewReports(a, c, [], [])
    ensures |c.roots| > |a.roots| && c.roots[|a.roots|] == r
  {
    assert c.roots[|a.roots|] == b.roots[|a.roots|];
    assert Covered(t, c, |a.roots|);
  }

  lemma OneOf(w: Tour, i: nat, d: Path, names: seq<string>, n: nat)
    requires NothingOf(w, i, d, names) && n < |names|
    ensures NothingOf(w, i, d, [names[n]])
  {
  }

  lemma KeptRoot(x: Tour, y: Tour, i: nat, d: Path)
    requires x.roots <= y.roots && x.visits <= y.visits && i < |x.roots| && Owner(x.roots, d) == i && d in x.visits
    ensures y.roots[i] == x.roots[i] && Owner(y.roots, d) == i && d in y.visits
  {
    OwnerGrows(x.roots, y.roots, d);
    InPrefix(x.visits, y.visits, d);
  }

  ghost predicate EntriesHandled(t: Tree, w: Tour, d: Path, names: seq<string>) {
    forall name | name in names && d + [name] in t :: Handled(t, w, d + [name])
  }

  /** Nothing of `d` is reported. */
  ghost predicate Unreported(w: Tour, d: Path) {
    forall r | r in w.reports :: r.entry != [] && Parent(r.entry) != d
  }

  lemma EntriesStart(t: Tree, start: Path, before: Tour, w: Tour, i: nat, d: Path)
    requires Sound(t, start, before) && IsDir(t, d) && w == before.(visits := before.visits + [d])
    requires d !in before.visits && Owner(before.roots, d) == i
    requires forall p | p in before.visits && Owner(before.roots, p) == i :: !(d <= p)
    ensures Adds(t, w, w, i, d, t[d].names[..0]) && EntriesDone(t, w, i, d, t[d].names[..0])
    ensures EntriesHandled(t, w, d, t[d].names[..0]) && d in w.visits
    ensures NothingOf(w, i, d, t[d].names) && Unreported(w, d)
  {
  }

  lemma NamesApart(t: Tree, d: Path, n: nat)
    requires WellFormed(t) && IsDir(t, d) && n < |t[d].names|
    ensures t[d].names[n] !in t[d].names[..n] && t[d].names[..n + 1] == t[d].names[..n] + [t[d].names[n]]
    ensures d + [t[d].names[n]] in t
  {
    hide WellFormed;
    ListedOnce(t, d, n);
    TakeOne(t[d].names, n);
  }

  lemma TakeOne<T>(s: seq<T>, n: nat)
    requires n < |s| && forall k | 0 <= k < n :: s[k] != s[n]
    ensures s[n] !in s[..n] && s[..n + 1] == s[..n] + [s[n]]
  {
  }

  lemma ListedOnce(t: Tree, d: Path, n: nat)
    requires WellFormed(t) && IsDir(t, d) && n < |t[d].names|
    ensures forall k | 0 <= k < n :: t[d].names[k] != t[d].names[n]
    ensures d + [t[d].names[n]] in t
  {
  }

  /** An entry not yet handled is neither visited nor reported. */
  lemma EntryFree(t: Tree, start: Path, w: Tour, x: Tour, i: nat, d: Path, names: seq<string>, name: string)
    requires Sound(t, start, w) && d in w.visits && Adds(t, w, x, i, d, names) && name !in names && i < |w.roots|
    requires NothingOf(w, i, d, [name]) && Unreported(w, d)
    ensures NothingOf(x, i, d, [name])
    ensures forall r | r in x.reports :: r.entry != d + [name]
  {
    hide Covered, AllHandled, Owner, RootsOk, AliasOk, ReportsOk;
    forall p | p in x.visits && Owner(x.roots, p) == i ensures !InEntry(d, [name], p) {
      var k :| 0 <= k < |x.visits| && x.visits[k] == p;
      if k < |w.visits| {
        assert w.visits[k] == p;
        LogicalGrows(w.roots, x.roots, p);
      }
    }
    forall r | r in x.reports ensures r.entry != d + [name] {
      var k :| 0 <= k < |x.reports| && x.reports[k] == r;
      if k < |w.reports| { assert w.reports[k] == r; }
      assert Parent(d + [name]) == d;
    }
  }

  /** One entry more. */
  lemma EntryWalked(t: Tree, start: Path, w: Tour, x: Tour, y: Tour, i: nat, d: Path, names: seq<string>, name: string)
    requires Sound(t, start, w) && Sound(t, start, x) && i < |x.roots|
    requires Adds(t, w, x, i, d, names) && EntriesDone(t, x, i, d, names) && EntriesHandled(t, x, d, names)
    requires Adds(t, x, y, i, d, [name]) && EntriesDone(t, y, i, d, [name]) && EntriesHandled(t, y, d, [name])
    ensures Adds(t, w, y, i, d, names + [name]) && EntriesDone(t, y, i, d, names + [name])
    ensures EntriesHandled(t, y, d, names + [name]) && |Unrooted(t, y.roots)| <= |Unrooted(t, x.roots)|
  {
    ExtendsAgain(t, w, x, y, i, p => InEntry(d, names, p), p => InEntry(d, [name], p), p => InEntry(d, names + [name], p));
    EntriesMore(t, x, y, i, d, names, name);
    UnrootedShrinks(t, x.roots, y.roots);
    ReportsMore(t, w, x, y, d, names, name);
  }

  lemma ReportsMore(t: Tree, w: Tour, x: Tour, y: Tour, d: Path, names: seq<string>, name: string)
    requires w.visits <= x.visits && x.reports <= y.reports && x.roots <= y.roots && x.aliases.Keys <= y.aliases.Keys
    requires NewReports(w, x, d, names) && EntriesHandled(t, x, d, names)
    requires NewReports(x, y, d, [name]) && EntriesHandled(t, y, d, [name])
    ensures NewReports(w, y, d, names + [name]) && EntriesHandled(t, y, d, names + [name])
  {
    forall k | |w.reports| <= k < |y.reports|
      ensures
        var e := y.reports[k].entry;
        e != [] && (Parent(e) !in w.visits || (Parent(e) == d && e[|e| - 1] in names + [name]))
    {
      if k < |x.reports| { assert y.reports[k] == x.reports[k]; }
      var e := y.reports[k].entry;
      if Parent(e) in w.visits { InPrefix(w.visits, x.visits, Parent(e)); }
    }
    hide Handled;
    forall m | m in names && d + [m] in t ensures Handled(t, y, d + [m]) {
      HandledStays(t, x, y, d + [m]);
    }
  }

  /** A directory whose entries are all handled is done. */
  lemma DirWalked(t: Tree, start: Path, before: Tour, w: Tour, y: Tour, i: nat, d: Path)
    requires WellFormed(t) && IsDir(t, d) && w == before.(visits := before.visits + [d]) && Owner(y.roots, d) == i
    requires Adds(t, w, y, i, d, t[d].names) && EntriesDone(t, y, i, d, t[d].names) && EntriesHandled(t, y, d, t[d].names)
    requires d !in before.visits && Sound(t, start, before)
    ensures Extends(t, before, y, i, p => d <= p) && NewReports(before, y, [], [])
    ensures forall p | IsDir(t, p) && d <= p && Owner(y.roots, p) == i :: p in y.visits
  {
    DirFiles(t, y, d);
    DirExtends(t, before, w, y, i, d);
    DirReports(t, before, w, y, d);
    hide WellFormed, Covered, AllHandled, Owner, EntriesHandled, Sound, Extends, NewReports;
    InPrefix(w.visits, y.visits, d);
    DirCovered(t, y, i, d);
  }

  lemma DirExtends(t: Tree, before: Tour, w: Tour, y: Tour, i: nat, d: Path)
    requires IsDir(t, d) && w == before.(visits := before.visits + [d]) && Owner(y.roots, d) == i
    requires Extends(t, w, y, i, p => InEntry(d, t[d].names, p)) && AllHandled(t, y, d)
    ensures Extends(t, before, y, i, p => d <= p) && d in w.visits && w.visits <= y.visits
  {
    hide Covered, AllHandled, Owner;
    assert w.visits[|before.visits|] == d && y.visits[|before.visits|] == d;
  }

  lemma DirFiles(t: Tree, y: Tour, d: Path)
    requires WellFormed(t) && IsDir(t, d) && EntriesHandled(t, y, d, t[d].names)
    ensures AllHandled(t, y, d)
  {
    hide WellFormed, Handled;
    forall e | e in t && e != [] && Parent(e) == d ensures Handled(t, y, e) {
      ParentLists(t, e);
      assert Handled(t, y, d + [e[|e| - 1]]);
    }
  }

  lemma DirCovered(t: Tree, y: Tour, i: nat, d: Path)
    requires WellFormed(t) && IsDir(t, d) && EntriesDone(t, y, i, d, t[d].names) && d in y.visits
    ensures forall p | IsDir(t, p) && d <= p && Owner(y.roots, p) == i :: p in y.visits
  {
    hide WellFormed, Owner;
    forall p | IsDir(t, p) && d <= p && Owner(y.roots, p) == i ensures p in y.visits {
      if p != d { EntryListed(t, d, p); }
    }
  }

  lemma DirReports(t: Tree, before: Tour, w: Tour, y: Tour, d: Path)
    requires IsDir(t, d) && w == before.(visits := before.visits + [d]) && NewReports(w, y, d, t[d].names)
    requires d !in before.visits
    ensures NewReports(before, y, [], [])
  {
    forall k | |before.reports| <= k < |y.reports| ensures y.reports[k].entry != [] && Parent(y.reports[k].entry) !in before.visits {
      var e := y.reports[k].entry;
      if Parent(e) in before.visits { InPrefix(before.visits, w.visits, Parent(e)); }
    }
  }

  lemma EntryListed(t: Tree, d: Path, p: Path)
    requires WellFormed(t) && IsDir(t, p) && d < p
    ensures IsDir(t, d) && InEntry(d, t[d].names, p)
  {
    hide WellFormed;
    AncestorsAreDirs(t, p, |d| + 1);
    EntryPrefix(d, p);
    ParentLists(t, d + [p[|d|]]);
    assert Parent(d + [p[|d|]]) == d;
  }

  lemma EntryPrefix(d: Path, p: Path)
    requires d < p
    ensures p[..|d| + 1] == d + [p[|d|]] && d + [p[|d|]] <= p
  {
  }

  lemma LogicalEntry(t: Tree, start: Path, w: Tour, i: nat, d: Path, name: string)
    requires WellFormed(t) && Sound(t, start, w) && IsDir(t, d) && d + [name] in t && Owner(w.roots, d) == i
    ensures
      var lp := LogicalOf(w.roots, d) + [name];
      && |w.roots[i].phys| <= |d| && lp == w.roots[i].logical + (d + [name])[|w.roots[i].phys|..]
      && Denotes(t, start, lp) == Some(if t[d + [name]].LinkToDir? then t[d + [name]].target else d + [name])
  {
    LogicalLeads(t, start, w.roots, d);
    DenotesStep(t, start, LogicalOf(w.roots, d), d, name);
    TailStep(w.roots[i].logical, |w.roots[i].phys|, d, name);
  }

  lemma NoDirsBeneath(t: Tree, d: Path, name: string)
    requires WellFormed(t) && d + [name] in t && !t[d + [name]].Dir?
    ensures forall p | IsDir(t, p) :: !InEntry(d, [name], p)
  {
    hide WellFormed;
    forall p | IsDir(t, p) ensures !InEntry(d, [name], p) {
      if InEntry(d, [name], p) {
        AncestorsAreDirs(t, p, |d| + 1);
        EntryPrefix(d, p);
      }
    }
  }

  /** Nothing changes but the aliases, and no directory beneath is left over. */
  lemma NothingAdded(t: Tree, w: Tour, w': Tour, i: nat, d: Path, name: string)
    requires w' == w.(aliases := w'.aliases) && w.aliases.Keys <= w'.aliases.Keys
    requires forall p | IsDir(t, p) && Owner(w.roots, p) == i :: !InEntry(d, [name], p)
    requires d + [name] in t && Handled(t, w', d + [name])
    ensures Adds(t, w, w', i, d, [name]) && EntriesDone(t, w', i, d, [name]) && EntriesHandled(t, w', d, [name])
  {
  }

  lemma DeclinedDir(t: Tree, start: Path, w: Tour, i: nat, d: Path, name: string, lp: Path, j: nat)
    requires WellFormed(t) && Sound(t, start, w) && Owner(w.roots, d) == i && IsDir(t, d + [name])
    requires j < |w.roots| && w.roots[j].phys == d + [name] && Owner(w.roots, d + [name]) == j
    requires Denotes(t, start, lp) == Some(d + [name]) && lp == LogicalOf(w.roots, d) + [name]
    ensures
      var w' := w.(aliases := w.aliases[lp := LogicalOf(w.roots, d + [name])]);
      && Sound(t, start, w') && Adds(t, w, w', i, d, [name])
      && EntriesDone(t, w', i, d, [name]) && EntriesHandled(t, w', d, [name])
  {
    hide Owner, WellFormed, Adds, EntriesDone, EntriesHandled, Denotes, RootsOk;
    var c := d + [name];
    NoneBeneath(t, start, w, i, d, name, j);
    hide Sound;
    AliasAdded(t, start, w, lp, c);
    AliasNames(t, w.(aliases := w.aliases[lp := LogicalOf(w.roots, c)]), d, name);
    NothingAdded(t, w, w.(aliases := w.aliases[lp := LogicalOf(w.roots, c)]), i, d, name);
  }

  lemma AliasNames(t: Tree, w: Tour, d: Path, name: string)
    requires d + [name] in t && Owner(w.roots, d) >= 0 && LogicalOf(w.roots, d) + [name] in w.aliases
    ensures Named(t, w, d + [name])
  {
    assert Parent(d + [name]) == d;
  }

  /** An entry walked under its own name. */
  lemma WalkNames(t: Tree, w: Tour, y: Tour, d: Path, name: string, p: Path)
    requires d + [name] in t && p == (if t[d + [name]].LinkToDir? then t[d + [name]].target else d + [name])
    requires w.roots <= y.roots && Owner(w.roots, d) >= 0
    requires Owner(y.roots, p) >= 0 && LogicalOf(y.roots, p) == LogicalOf(w.roots, d) + [name]
    ensures Named(t, y, d + [name])
  {
    LogicalGrows(w.roots, y.roots, d);
    assert Parent(d + [name]) == d;
  }

  lemma NoneBeneath(t: Tree, start: Path, w: Tour, i: nat, d: Path, name: string, j: nat)
    requires RootsOk(t, start, w.roots) && Owner(w.roots, d) == i && j < |w.roots| && w.roots[j].phys == d + [name]
    ensures forall p | IsDir(t, p) && Owner(w.roots, p) == i :: !InEntry(d, [name], p)
  {
    PrefixStep(w.roots[i].phys, d, name);
    hide RootsOk;
    forall p | Owner(w.roots, p) == i ensures !InEntry(d, [name], p) {
      if InEntry(d, [name], p) {
        EntryPrefix(d, p);
        BeneathRoot(t, start, w.roots, i, j, p);
      }
    }
  }

  lemma DeclinedLink(t: Tree, start: Path, w: Tour, i: nat, d: Path, name: string, lp: Path, target: Path)
    requires Sound(t, start, w) && d + [name] in t && t[d + [name]] == LinkToDir(target) && WellFormed(t)
    requires Denotes(t, start, lp) == Some(target) && Owner(w.roots, target) >= 0
    requires Owner(w.roots, d) >= 0 && lp == LogicalOf(w.roots, d) + [name]
    requires forall p | IsDir(t, p) :: !InEntry(d, [name], p)
    ensures
      var w' := w.(aliases := w.aliases[lp := LogicalOf(w.roots, target)]);
      && Sound(t, start, w') && Adds(t, w, w', i, d, [name])
      && EntriesDone(t, w', i, d, [name]) && EntriesHandled(t, w', d, [name])
  {
    hide Sound, Denotes, Adds, EntriesDone, EntriesHandled;
    LinkIsDir(t, d + [name]);
    hide WellFormed;
    AliasAdded(t, start, w, lp, target);
    AliasNames(t, w.(aliases := w.aliases[lp := LogicalOf(w.roots, target)]), d, name);
    NothingAdded(t, w, w.(aliases := w.aliases[lp := LogicalOf(w.roots, target)]), i, d, name);
  }

  /** A directory no walk is rooted at belongs to the walk that reached it. */
  lemma EntryOwned(t: Tree, start: Path, w: Tour, i: nat, d: Path, name: string)
    requires Sound(t, start, w) && Owner(w.roots, d) == i && NothingOf(w, i, d, [name])
    requires forall k | 0 <= k < |w.roots| :: w.roots[k].phys != d + [name]
    ensures Owner(w.roots, d + [name]) == i && LogicalOf(w.roots, d + [name]) == LogicalOf(w.roots, d) + [name]
    ensures forall p | p in w.visits && Owner(w.roots, p) == i :: !(d + [name] <= p)
  {
    OwnerOfChild(t, start, w.roots, d, name);
  }

  lemma EntryDirWalked(t: Tree, w: Tour, y: Tour, i: nat, d: Path, name: string)
    requires Extends(t, w, y, i, p => d + [name] <= p) && NewReports(w, y, [], [])
    requires forall p | IsDir(t, p) && d + [name] <= p && Owner(y.roots, p) == i :: p in y.visits
    requires IsDir(t, d + [name]) && Named(t, y, d + [name])
    ensures Adds(t, w, y, i, d, [name]) && EntriesDone(t, y, i, d, [name]) && EntriesHandled(t, y, d, [name])
  {
    hide Covered, AllHandled, Owner;
    forall p: Path ensures d + [name] <= p <==> InEntry(d, [name], p) {
      if InEntry(d, [name], p) { assert p[..|d| + 1] == d + [name]; }
    }
  }

  lemma LinkTarget(t: Tree, c: Path)
    requires WellFormed(t) && NoRootLinks(t) && c in t && t[c].LinkToDir?
    ensures IsDir(t, t[c].target) && t[c].target != []
  {
  }

  lemma EntryLinkWalked(t: Tree, w: Tour, y: Tour, i: nat, d: Path, name: string)
    requires Extends(t, w, y, 0, _ => false) && NewReports(w, y, [], [])
    requires forall p | IsDir(t, p) :: !InEntry(d, [name], p)
    requires d + [name] in t && Handled(t, y, d + [name])
    ensures Adds(t, w, y, i, d, [name]) && EntriesDone(t, y, i, d, [name]) && EntriesHandled(t, y, d, [name])
  {
    hide Covered, AllHandled, Owner;
  }

  lemma EntryReported(t: Tree, start: Path, w: Tour, i: nat, d: Path, name: string, lp: Path)
    requires Sound(t, start, w) && Owner(w.roots, d) == i && lp == LogicalOf(w.roots, d) + [name] && d in w.visits
    requires d + [name] in t && Reported(t[d + [name]]) && forall r | r in w.reports :: r.entry != d + [name]
    requires forall p | IsDir(t, p) :: !InEntry(d, [name], p)
    ensures
      var w' := w.(reports := w.reports + [Report(lp, d + [name])]);
      && Sound(t, start, w') && Adds(t, w, w', i, d, [name])
      && EntriesDone(t, w', i, d, [name]) && EntriesHandled(t, w', d, [name])
  {
    var w' := w.(reports := w.reports + [Report(lp, d + [name])]);
    ReportAdded(t, start, w, d, name);
    assert w'.reports[|w.reports|].entry == d + [name] && Parent(d + [name]) == d;
    assert Report(lp, d + [name]) in w'.reports;
  }

  // ------------------------------------------------------------- each step

  /** Registering a subtree no earlier walk contains, and traversing it. */
  lemma TouredSound(t: Tree, start: Path, w: Tour, r: Root)
    requires WellFormed(t) && NoRootLinks(t) && Sound(t, start, w) && r.phys != [] && IsDir(t, r.phys)
    requires Owner(w.roots, r.phys) < 0 && Denotes(t, start, r.logical) == Some(r.phys)
    ensures
      var y := Toured(t, w, r);
      && Sound(t, start, y) && Extends(t, w, y, 0, _ => false) && NewReports(w, y, [], [])
      && |y.roots| > |w.roots| && y.roots[|w.roots|] == r
    decreases |Unrooted(t, w.roots)|, 0, 0, 0
  {
    RootAdded(t, start, w, r);
    UnrootedDrops(t, w.roots, r);
    Fresh(w, r);
    hide Sound, Owner, Extends, WellFormed, NewReports, Denotes, DirToured;
    var added := w.(roots := w.roots + [r]);
    DirTouredSound(t, start, added, |w.roots|, r, r.phys);
    RootWalked(t, w, added, DirToured(t, added, r, r.phys), r);
  }

  /** One directory of the subtree registered as root `i`. */
  lemma DirTouredSound(t: Tree, start: Path, w: Tour, i: nat, r: Root, d: Path)
    requires WellFormed(t) && NoRootLinks(t) && Sound(t, start, w) && IsDir(t, d) && r.phys <= d
    requires i < |w.roots| && w.roots[i] == r && Owner(w.roots, d) == i
    requires forall p | p in w.visits && Owner(w.roots, p) == i :: !(d <= p)
    ensures
      var y := DirToured(t, w, r, d);
      && Sound(t, start, y) && Extends(t, w, y, i, p => d <= p) && NewReports(w, y, [], [])
      && forall p | IsDir(t, p) && d <= p && Owner(y.roots, p) == i :: p in y.visits
    decreases |Unrooted(t, w.roots)|, |Beneath(t, d)|, 3, 0
  {
    hide Sound, Owner, Extends, NewReports, EntriesDone, NothingOf, WellFormed, Denotes, EntriesToured;
    hide Adds, EntriesHandled, Unreported, NoRootLinks, Unrooted, Beneath;
    VisitAdded(t, start, w, d);
    var v, names := w.(visits := w.visits + [d]), t[d].names;
    EntriesStart(t, start, w, v, i, d);
    EntriesTouredSound(t, start, v, i, r, d, |names|);
    assert names[..|names|] == names;
    DirWalked(t, start, w, v, EntriesToured(t, v, r, d, |names|), i, d);
  }

  lemma EntriesTouredSound(t: Tree, start: Path, w: Tour, i: nat, r: Root, d: Path, n: nat)
    requires WellFormed(t) && NoRootLinks(t) && Sound(t, start, w) && IsDir(t, d) && r.phys <= d && n <= |t[d].names|
    requires i < |w.roots| && w.roots[i] == r && Owner(w.roots, d) == i && d in w.visits
    requires NothingOf(w, i, d, t[d].names) && Unreported(w, d)
    requires Adds(t, w, w, i, d, t[d].names[..0]) && EntriesDone(t, w, i, d, t[d].names[..0])
    requires EntriesHandled(t, w, d, t[d].names[..0])
    ensures
      var y, names := EntriesToured(t, w, r, d, n), t[d].names[..n];
      && Sound(t, start, y) && Adds(t, w, y, i, d, names) && EntriesDone(t, y, i, d, names)
      && EntriesHandled(t, y, d, names) && y.roots[i] == r && Owner(y.roots, d) == i && d in y.visits
    decreases |Unrooted(t, w.roots)|, |Beneath(t, d)|, 2, n
  {
    hide Sound, Owner, Extends, NewReports, EntriesDone, NothingOf, WellFormed, Denotes, EntriesHandled, EntryToured;
    hide Adds, Unreported, NoRootLinks, Beneath, Unrooted;
    if n > 0 {
      var x, names, name := EntriesToured(t, w, r, d, n - 1), t[d].names, t[d].names[n - 1];
      EntriesTouredSound(t, start, w, i, r, d, n - 1);
      UnrootedShrinks(t, w.roots, x.roots);
      NamesApart(t, d, n - 1);
      OneOf(w, i, d, names, n - 1);
      assert name !in names[..n - 1] && names[..n] == names[..n - 1] + [name];
      EntryFree(t, start, w, x, i, d, names[..n - 1], name);
      EntryTouredSound(t, start, x, i, r, d, name);
      EntryWalked(t, start, w, x, EntryToured(t, x, r, d, name), i, d, names[..n - 1], name);
      AddsGrows(t, x, EntryToured(t, x, r, d, name), i, d, [name]);
      KeptRoot(x, EntryToured(t, x, r, d, name), i, d);
    }
  }

  lemma AddsGrows(t: Tree, w: Tour, y: Tour, i: nat, d: Path, names: seq<string>)
    requires Adds(t, w, y, i, d, names)
    ensures w.roots <= y.roots && w.visits <= y.visits
  {
  }

  lemma EntryTouredSound(t: Tree, start: Path, w: Tour, i: nat, r: Root, d: Path, name: string)
    requires WellFormed(t) && NoRootLinks(t) && Sound(t, start, w) && IsDir(t, d) && d + [name] in t && r.phys <= d
    requires i < |w.roots| && w.roots[i] == r && Owner(w.roots, d) == i && d in w.visits
    requires NothingOf(w, i, d, [name]) && forall r | r in w.reports :: r.entry != d + [name]
    ensures
      var y := EntryToured(t, w, r, d, name);
      && Sound(t, start, y) && Adds(t, w, y, i, d, [name])
      && EntriesDone(t, y, i, d, [name]) && EntriesHandled(t, y, d, [name])
    decreases |Unrooted(t, w.roots)|, |Beneath(t, d)|, 1, 1
  {
    hide Sound, Owner, Extends, NewReports, EntriesDone, NothingOf, WellFormed, Denotes, Adds, EntriesHandled, Unrooted;
    hide NoRootLinks, Beneath, DirToured, Toured;
    var c := d + [name];
    LogicalEntry(t, start, w, i, d, name);
    var lp := r.logical + c[|r.phys|..];
    if t[c].Dir? {
      SubdirSound(t, start, w, i, r, d, name, lp);
    } else {
      NoDirsBeneath(t, d, name);
      if t[c].LinkToDir? {
        LinkSound(t, start, w, i, r, d, name, lp, t[c].target);
      } else if Reported(t[c]) {
        EntryReported(t, start, w, i, d, name, lp);
      } else {
        NothingAdded(t, w, w, i, d, name);
      }
    }
  }

  /** A subdirectory is walked here unless another walk is rooted at it. */
  lemma SubdirSound(t: Tree, start: Path, w: Tour, i: nat, r: Root, d: Path, name: string, lp: Path)
    requires WellFormed(t) && NoRootLinks(t) && Sound(t, start, w) && IsDir(t, d) && IsDir(t, d + [name]) && r.phys <= d
    requires i < |w.roots| && w.roots[i] == r && Owner(w.roots, d) == i && lp == r.logical + (d + [name])[|r.phys|..]
    requires NothingOf(w, i, d, [name]) && Denotes(t, start, lp) == Some(d + [name]) && lp == LogicalOf(w.roots, d) + [name]
    ensures
      var y := EntryToured(t, w, r, d, name);
      && Sound(t, start, y) && Adds(t, w, y, i, d, [name])
      && EntriesDone(t, y, i, d, [name]) && EntriesHandled(t, y, d, [name])
    decreases |Unrooted(t, w.roots)|, |Beneath(t, d)|, 1, 0
  {
    hide Sound, Owner, Extends, NewReports, EntriesDone, NothingOf, WellFormed, Denotes, Adds, EntriesHandled, Unrooted;
    hide NoRootLinks, Beneath, DirToured;
    var c := d + [name];
    var j := RootOf(w.roots, c);
    BeneathDrops(t, d, name);
    if j >= 0 {
      RootIsOwner(t, start, w, j);
      DeclinedDir(t, start, w, i, d, name, lp, j);
    } else {
      EntryOwned(t, start, w, i, d, name);
      DirTouredSound(t, start, w, i, r, c);
      LogicalGrows(w.roots, DirToured(t, w, r, c).roots, c);
      WalkNames(t, w, DirToured(t, w, r, c), d, name, c);
      EntryDirWalked(t, w, DirToured(t, w, r, c), i, d, name);
    }
  }

  /** A link to a directory is followed unless its target is already walked. */
  lemma LinkSound(t: Tree, start: Path, w: Tour, i: nat, r: Root, d: Path, name: string, lp: Path, target: Path)
    requires WellFormed(t) && NoRootLinks(t) && Sound(t, start, w) && IsDir(t, d) && d + [name] in t && r.phys <= d
    requires t[d + [name]] == LinkToDir(target) && Denotes(t, start, lp) == Some(target)
    requires lp == r.logical + (d + [name])[|r.phys|..] && forall p | IsDir(t, p) :: !InEntry(d, [name], p)
    requires Owner(w.roots, d) >= 0 && lp == LogicalOf(w.roots, d) + [name]
    ensures
      var y := EntryToured(t, w, r, d, name);
      && Sound(t, start, y) && Adds(t, w, y, i, d, [name])
      && EntriesDone(t, y, i, d, [name]) && EntriesHandled(t, y, d, [name])
    decreases |Unrooted(t, w.roots)|, |Beneath(t, d)|, 1, 0
  {
    hide Sound, Extends, NewReports, EntriesDone, WellFormed, Denotes, Adds, EntriesHandled, Unrooted, Beneath, NoRootLinks;
    hide Toured;
    BeneathDrops(t, d, name);
    if Owner(w.roots, target) >= 0 {
      DeclinedLink(t, start, w, i, d, name, lp, target);
    } else {
      LinkTarget(t, d + [name]);
      TouredSound(t, start, w, Root(target, lp));
      var y := Toured(t, w, Root(target, lp));
      RootIsOwner(t, start, y, |w.roots|);
      WalkNames(t, w, y, d, name, target);
      EntryLinkWalked(t, w, y, i, d, name);
    }
  }

  lemma RootIsOwner(t: Tree, start: Path, w: Tour, j: nat)
    requires Sound(t, start, w) && j < |w.roots|
    ensures Owner(w.roots, w.roots[j].phys) == j && LogicalOf(w.roots, w.roots[j].phys) == w.roots[j].logical
  {
    OwnerOfRoot(t, start, w.roots, j);
  }

  // ------------------------------------------------------------- whole walks

  /** A directory the root leads to, down directories and through links. */
  ghost predicate Reachable(t: Tree, start: Path, d: Path) {
    IsDir(t, d) && exists rel :: Denotes(t, start, rel) == Some(d)
  }

  /** Everything a walk of `start` registered is done. */
  ghost predicate Done(t: Tree, start: Path, w: Tour) {
    && WellFormed(t) && Sound(t, start, w) && IsDir(t, start) && Owner(w.roots, start) >= 0
    && w.roots != [] && w.roots[0] == Root(start, [])
    && (forall k | 0 <= k < |w.roots| :: Covered(t, w, k))
    && (forall d | d in w.visits :: AllHandled(t, w, d))
  }

  lemma DoneOwned(t: Tree, start: Path, w: Tour, d: Path)
    requires Done(t, start, w) && IsDir(t, d) && Owner(w.roots, d) >= 0
    ensures d in w.visits
  {
    assert Covered(t, w, Owner(w.roots, d));
  }

  /** What is beneath a visited directory, or linked from it, is visited. */
  lemma DoneStep(t: Tree, start: Path, w: Tour, d: Path, name: string)
    requires Done(t, start, w) && d in w.visits && IsDir(t, d) && d + [name] in t
    ensures t[d + [name]].Dir? ==> d + [name] in w.visits
    ensures t[d + [name]].LinkToDir? ==> t[d + [name]].target in w.visits
  {
    var c := d + [name];
    VisitOwned(t, w, d);
    assert Parent(c) == d && Handled(t, w, c);
    if t[c].Dir? {
      OwnedBelow(t, start, w.roots, d, name);
      DoneOwned(t, start, w, c);
    } else if t[c].LinkToDir? {
      LinkIsDir(t, c);
      DoneOwned(t, start, w, t[c].target);
    }
  }

  lemma VisitOwned(t: Tree, w: Tour, d: Path)
    requires VisitsOk(t, w) && d in w.visits
    ensures Owner(w.roots, d) >= 0 && IsDir(t, d)
  {
    var k :| 0 <= k < |w.visits| && w.visits[k] == d;
  }

  lemma OwnedBelow(t: Tree, start: Path, roots: seq<Root>, d: Path, name: string)
    requires RootsOk(t, start, roots) && Owner(roots, d) >= 0
    ensures Owner(roots, d + [name]) >= 0
  {
    if k :| 0 <= k < |roots| && roots[k].phys == d + [name] {
      OwnerOfRoot(t, start, roots, k);
    } else {
      OwnerOfChild(t, start, roots, d, name);
    }
  }

  lemma {:induction false} ReachedIsVisited(t: Tree, start: Path, w: Tour, rel: Path)
    requires Done(t, start, w) && Denotes(t, start, rel).Some? && IsDir(t, Denotes(t, start, rel).value)
    ensures Denotes(t, start, rel).value in w.visits
    decreases |rel|
  {
    hide Done;
    if rel == [] {
      DoneStart(t, start, w);
    } else {
      var q := Denotes(t, start, Parent(rel)).value;
      ReachedIsVisited(t, start, w, Parent(rel));
      DoneStep(t, start, w, q, rel[|rel| - 1]);
    }
  }

  lemma DoneStart(t: Tree, start: Path, w: Tour)
    requires Done(t, start, w)
    ensures start in w.visits
  {
    DoneOwned(t, start, w, start);
  }

  /** A finished walk visited each reachable directory, and no directory twice. */
  lemma VisitsExactly(t: Tree, start: Path, w: Tour)
    requires Done(t, start, w)
    ensures forall d :: d in w.visits <==> Reachable(t, start, d)
    ensures forall i, j | 0 <= i < j < |w.visits| :: w.visits[i] != w.visits[j]
  {
    forall d | d in w.visits ensures Reachable(t, start, d) {
      VisitOwned(t, w, d);
      LogicalLeads(t, start, w.roots, d);
    }
    forall d | Reachable(t, start, d) ensures d in w.visits {
      var rel :| Denotes(t, start, rel) == Some(d);
      ReachedIsVisited(t, start, w, rel);
    }
  }

  /** Each reported name leads to the file reported under it, and no name is
      reported twice. */
  lemma NamesExactly(t: Tree, start: Path, w: Tour)
    requires WellFormed(t) && Sound(t, start, w)
    ensures forall i | 0 <= i < |w.reports| :: Denotes(t, start, w.reports[i].logical) == Some(w.reports[i].entry)
    ensures forall i, j | 0 <= i < j < |w.reports| :: w.reports[i].logical != w.reports[j].logical
  {
    hide WellFormed, Denotes;
    forall i | 0 <= i < |w.reports| ensures Denotes(t, start, w.reports[i].logical) == Some(w.reports[i].entry) {
      ReportLeads(t, start, w, w.reports[i]);
    }
  }

  lemma ReportLeads(t: Tree, start: Path, w: Tour, r: Report)
    requires WellFormed(t) && Sound(t, start, w) && r in w.reports
    ensures Denotes(t, start, r.logical) == Some(r.entry)
  {
    hide WellFormed, Denotes;
    var d, name := Parent(r.entry), r.entry[|r.entry| - 1];
    VisitOwned(t, w, d);
    LogicalLeads(t, start, w.roots, d);
    assert d + [name] == r.entry;
    DenotesStep(t, start, LogicalOf(w.roots, d), d, name);
  }

  /** Each alias leads to a visited directory, and answers with the name that
      directory is reported under, which leads there too. */
  lemma AliasesAnswer(t: Tree, start: Path, w: Tour, a: Path)
    requires Done(t, start, w) && a in w.aliases
    ensures
      var d := Denotes(t, start, a);
      && d.Some? && d.value in w.visits && Denotes(t, start, w.aliases[a]) == d
      && Owner(w.roots, d.value) >= 0 && w.aliases[a] == LogicalOf(w.roots, d.value)
  {
    var d :| Denotes(t, start, a) == Some(d) && IsDir(t, d) && Owner(w.roots, d) >= 0
             && w.aliases[a] == LogicalOf(w.roots, d);
    DoneOwned(t, start, w, d);
    LogicalLeads(t, start, w.roots, d);
  }

  /** Every name that leads to a directory is the one it is reported under, or is
      at or beneath an alias. */
  lemma {:induction false} EveryNameAnswers(t: Tree, start: Path, w: Tour, rel: Path)
    requires Done(t, start, w)
    requires Denotes(t, start, rel).Some? && IsDir(t, Denotes(t, start, rel).value)
    ensures
      var d := Denotes(t, start, rel).value;
      || (Owner(w.roots, d) >= 0 && LogicalOf(w.roots, d) == rel)
      || exists a :: a in w.aliases && a <= rel
    decreases |rel|
  {
    hide Done, Owner;
    if rel == [] {
      DoneRoot(t, start, w);
    } else {
      var up, name := Parent(rel), rel[|rel| - 1];
      assert up + [name] == rel;
      var q := Denotes(t, start, up).value;
      EveryNameAnswers(t, start, w, up);
      if a :| a in w.aliases && a <= up {
        assert a <= rel;
      } else {
        ReachedIsVisited(t, start, w, up);
        DoneNames(t, start, w, q, name);
      }
    }
  }

  /** And every name that leads to a file is the one it is reported under, or is
      beneath an alias. */
  lemma EveryFileAnswers(t: Tree, start: Path, w: Tour, rel: Path)
    requires Done(t, start, w) && rel != [] && Denotes(t, start, rel).Some?
    requires Denotes(t, start, rel).value in t
    requires t[Denotes(t, start, rel).value].File? || t[Denotes(t, start, rel).value].LinkToFile?
    ensures Report(rel, Denotes(t, start, rel).value) in w.reports || exists a :: a in w.aliases && a < rel
  {
    var up, name, e := Parent(rel), rel[|rel| - 1], Denotes(t, start, rel).value;
    assert up + [name] == rel;
    var q := Denotes(t, start, up).value;
    LinkIsEntry(t, start, rel, q, name);
    EveryNameAnswers(t, start, w, up);
    if a :| a in w.aliases && a <= up {
      assert a < rel;
    } else {
      ReachedIsVisited(t, start, w, up);
      assert Parent(e) == q && AllHandled(t, w, q) && Handled(t, w, e);
      var r :| r in w.reports && r.entry == e;
      ReportsSitUnder(t, start, w, r);
    }
  }

  lemma LinkIsEntry(t: Tree, start: Path, rel: Path, q: Path, name: string)
    requires WellFormed(t) && rel != [] && name == rel[|rel| - 1] && Denotes(t, start, Parent(rel)) == Some(q)
    requires Denotes(t, start, rel).Some? && Denotes(t, start, rel).value in t && Reported(t[Denotes(t, start, rel).value])
    ensures IsDir(t, q) && Denotes(t, start, rel).value == q + [name]
  {
  }

  lemma DoneRoot(t: Tree, start: Path, w: Tour)
    requires Done(t, start, w)
    ensures Owner(w.roots, start) >= 0 && LogicalOf(w.roots, start) == []
  {
    RootIsOwner(t, start, w, 0);
  }

  lemma DoneNames(t: Tree, start: Path, w: Tour, d: Path, name: string)
    requires Done(t, start, w) && d in w.visits && d + [name] in t && (t[d + [name]].Dir? || t[d + [name]].LinkToDir?)
    ensures Owner(w.roots, d) >= 0
    ensures
      var lp, p := LogicalOf(w.roots, d) + [name], if t[d + [name]].LinkToDir? then t[d + [name]].target else d + [name];
      lp in w.aliases || (Owner(w.roots, p) >= 0 && LogicalOf(w.roots, p) == lp)
  {
    assert Parent(d + [name]) == d && AllHandled(t, w, d) && Handled(t, w, d + [name]);
  }

  /** A report's name is its directory's name and then its own. */
  lemma ReportsSitUnder(t: Tree, start: Path, w: Tour, r: Report)
    requires Done(t, start, w) && r in w.reports
    ensures Parent(r.entry) in w.visits && Owner(w.roots, Parent(r.entry)) >= 0
    ensures r.logical == LogicalOf(w.roots, Parent(r.entry)) + [r.entry[|r.entry| - 1]]
  {
  }

  /** A walk from a directory other than the file system's own root, over a tree
      no link of which leads there, is done when it ends. */
  lemma TourDone(t: Tree, start: Path)
    requires WellFormed(t) && NoRootLinks(t) && IsDir(t, start) && start != []
    ensures Done(t, start, TourOf(t, start))
  {
    hide WellFormed, Toured;
    var blank, r := Tour([], map[], [], []), Root(start, []);
    TouredSound(t, start, blank, r);
    RootIsOwner(t, start, Toured(t, blank, r), 0);
    WalkedAll(t, start, blank, Toured(t, blank, r));
  }

  lemma WalkedAll(t: Tree, start: Path, blank: Tour, w: Tour)
    requires blank == Tour([], map[], [], []) && Extends(t, blank, w, 0, _ => false)
    ensures forall k | 0 <= k < |w.roots| :: Covered(t, w, k)
    ensures forall d | d in w.visits :: AllHandled(t, w, d)
  {
    hide Covered, AllHandled;
    forall d | d in w.visits ensures AllHandled(t, w, d) {
      var k :| 0 <= k < |w.visits| && w.visits[k] == d;
    }
  }
}
