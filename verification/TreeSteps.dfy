/** What a walk has done so far, and how each of its steps extends it. */
module TreeSteps {
  import opened Records
  import opened TreeWalks

  datatype Report = Report(logical: Path, entry: Path)

  /** The walk's own state, with the directories it visited in order. */
  datatype Tour = Tour(roots: seq<Root>, aliases: map<Path, Path>, reports: seq<Report>, visits: seq<Path>)

  predicate Reported(k: Kind) {
    k.File? || k.LinkToFile?
  }

  ghost predicate VisitsOk(t: Tree, w: Tour) {
    && (forall i | 0 <= i < |w.visits| :: IsDir(t, w.visits[i]) && Owner(w.roots, w.visits[i]) >= 0)
    && (forall i, j | 0 <= i < j < |w.visits| :: w.visits[i] != w.visits[j])
  }

  ghost predicate ReportsOk(t: Tree, w: Tour) {
    && (forall i | 0 <= i < |w.reports| ::
          var r := w.reports[i];
          && r.entry != [] && r.entry in t && Reported(t[r.entry]) && Parent(r.entry) in w.visits
          && Owner(w.roots, Parent(r.entry)) >= 0
          && r.logical == LogicalOf(w.roots, Parent(r.entry)) + [r.entry[|r.entry| - 1]])
    && (forall i, j | 0 <= i < j < |w.reports| :: w.reports[i].entry != w.reports[j].entry)
  }

  ghost predicate AliasOk(t: Tree, start: Path, roots: seq<Root>, alias: Path, owner: Path) {
    exists d :: Denotes(t, start, alias) == Some(d) && IsDir(t, d) && Owner(roots, d) >= 0 && owner == LogicalOf(roots, d)
  }

  ghost predicate Sound(t: Tree, start: Path, w: Tour) {
    && RootsOk(t, start, w.roots) && VisitsOk(t, w) && ReportsOk(t, w)
    && (forall a | a in w.aliases :: AliasOk(t, start, w.roots, a, w.aliases[a]))
  }

  /** Every directory a root owns is visited. */
  ghost predicate Covered(t: Tree, w: Tour, i: nat) {
    forall p | IsDir(t, p) && Owner(w.roots, p) == i :: p in w.visits
  }

  /** The directory an entry leads to is reported under the entry's own name, or
      that name is an alias. */
  ghost predicate Named(t: Tree, w: Tour, e: Path)
    requires e in t
  {
    && e != [] && Owner(w.roots, Parent(e)) >= 0
    && var name, p := LogicalOf(w.roots, Parent(e)) + [e[|e| - 1]], if t[e].LinkToDir? then t[e].target else e;
       name in w.aliases || (Owner(w.roots, p) >= 0 && LogicalOf(w.roots, p) == name)
  }

  /** A file is reported; a link to a directory leads into a walked subtree; and a
      directory's or a link's name is accounted for. */
  ghost predicate Handled(t: Tree, w: Tour, e: Path)
    requires e in t
  {
    && (Reported(t[e]) ==> exists r :: r in w.reports && r.entry == e)
    && (t[e].LinkToDir? ==> Owner(w.roots, t[e].target) >= 0)
    && (t[e].Dir? || t[e].LinkToDir? ==> Named(t, w, e))
  }

  ghost predicate AllHandled(t: Tree, w: Tour, p: Path) {
    forall e {:trigger Parent(e)} | e in t && e != [] && Parent(e) == p :: Handled(t, w, e)
  }

  /** A later state of the walk: it only adds, directories newly visited either
      lie in a zone of root `i` or belong to roots registered since, and those
      roots are done. */
  ghost predicate Extends(t: Tree, w: Tour, w': Tour, i: int, zone: Path -> bool) {
    && w.roots <= w'.roots && w.visits <= w'.visits && w.reports <= w'.reports && w.aliases.Keys <= w'.aliases.Keys
    && (forall k | |w.visits| <= k < |w'.visits| ::
          Owner(w'.roots, w'.visits[k]) >= |w.roots| || (Owner(w'.roots, w'.visits[k]) == i && zone(w'.visits[k])))
    && (forall k | |w.roots| <= k < |w'.roots| :: Covered(t, w', k))
    && (forall k | |w.visits| <= k < |w'.visits| :: AllHandled(t, w', w'.visits[k]))
  }

  // -------------------------------------------------------------- more roots

  lemma LogicalGrows(a: seq<Root>, b: seq<Root>, p: Path)
    requires a <= b && Owner(a, p) >= 0
    ensures Owner(b, p) == Owner(a, p) && LogicalOf(b, p) == LogicalOf(a, p)
  {
    OwnerGrows(a, b, p);
  }

  lemma SoundGrows(t: Tree, start: Path, w: Tour, roots: seq<Root>)
    requires Sound(t, start, w) && w.roots <= roots && RootsOk(t, start, roots)
    ensures Sound(t, start, w.(roots := roots))
  {
    hide Owner, RootsOk;
    forall p | Owner(w.roots, p) >= 0 ensures Owner(roots, p) == Owner(w.roots, p) && LogicalOf(roots, p) == LogicalOf(w.roots, p) {
      LogicalGrows(w.roots, roots, p);
    }
    forall a | a in w.aliases ensures AliasOk(t, start, roots, a, w.aliases[a]) {
      var d :| Denotes(t, start, a) == Some(d) && IsDir(t, d) && Owner(w.roots, d) >= 0 && w.aliases[a] == LogicalOf(w.roots, d);
      assert Owner(roots, d) >= 0;
    }
  }

  // ---------------------------------------------------------- the walk's steps

  lemma RootsMore(t: Tree, start: Path, roots: seq<Root>, r: Root)
    requires RootsOk(t, start, roots) && Owner(roots, r.phys) < 0
    requires r.phys != [] && IsDir(t, r.phys) && Denotes(t, start, r.logical) == Some(r.phys)
    ensures RootsOk(t, start, roots + [r])
  {
    hide Denotes, IsDir;
    forall i | 0 <= i < |roots| ensures !(roots[i].phys <= r.phys) {
      assert !Owns(roots[i].phys, r.phys);
    }
  }

  /** A root no earlier root contains is registered. */
  lemma RootAdded(t: Tree, start: Path, w: Tour, r: Root)
    requires WellFormed(t) && Sound(t, start, w) && Owner(w.roots, r.phys) < 0
    requires r.phys != [] && IsDir(t, r.phys) && Denotes(t, start, r.logical) == Some(r.phys)
    ensures Sound(t, start, w.(roots := w.roots + [r])) && Owner(w.roots + [r], r.phys) == |w.roots|
    ensures forall k | 0 <= k < |w.visits| :: Owner(w.roots + [r], w.visits[k]) < |w.roots|
  {
    var roots := w.roots + [r];
    RootsMore(t, start, w.roots, r);
    hide RootsOk, ReportsOk, AliasOk, Denotes;
    SoundGrows(t, start, w, roots);
    OwnerOfRoot(t, start, roots, |w.roots|);
    forall k | 0 <= k < |w.visits| ensures Owner(roots, w.visits[k]) < |w.roots| {
      OwnerGrows(w.roots, roots, w.visits[k]);
    }
  }

  lemma VisitAdded(t: Tree, start: Path, w: Tour, d: Path)
    requires Sound(t, start, w) && IsDir(t, d) && Owner(w.roots, d) >= 0 && d !in w.visits
    ensures Sound(t, start, w.(visits := w.visits + [d]))
  {
    hide Owner, RootsOk, AliasOk;
    var w' := w.(visits := w.visits + [d]);
    assert forall p | p in w.visits :: p in w'.visits;
  }

  lemma ReportAdded(t: Tree, start: Path, w: Tour, d: Path, name: string)
    requires Sound(t, start, w) && d in w.visits && Owner(w.roots, d) >= 0
    requires d + [name] in t && Reported(t[d + [name]]) && forall r | r in w.reports :: r.entry != d + [name]
    ensures Sound(t, start, w.(reports := w.reports + [Report(LogicalOf(w.roots, d) + [name], d + [name])]))
  {
    hide Owner, RootsOk, AliasOk;
    assert Parent(d + [name]) == d;
  }

  lemma AliasAdded(t: Tree, start: Path, w: Tour, alias: Path, d: Path)
    requires Sound(t, start, w) && Denotes(t, start, alias) == Some(d) && IsDir(t, d) && Owner(w.roots, d) >= 0
    ensures Sound(t, start, w.(aliases := w.aliases[alias := LogicalOf(w.roots, d)]))
  {
    hide Owner, RootsOk;
    assert AliasOk(t, start, w.roots, alias, LogicalOf(w.roots, d));
  }

  /** Nothing beneath a registered root belongs to a root around it. */
  lemma BeneathRoot(t: Tree, start: Path, roots: seq<Root>, i: nat, j: nat, p: Path)
    requires RootsOk(t, start, roots) && i < |roots| && j < |roots| && i != j
    requires roots[i].phys <= roots[j].phys <= p
    ensures Owner(roots, p) != i
  {
    assert Owns(roots[j].phys, p);
  }

  // ------------------------------------------------------------ finitely many

  function DirsOf(t: Tree): set<Path> {
    set p | p in t && t[p].Dir?
  }

  /** Directories no walk is rooted at yet. */
  function Unrooted(t: Tree, roots: seq<Root>): set<Path> {
    DirsOf(t) - set r | r in roots :: r.phys
  }

  function Beneath(t: Tree, d: Path): set<Path> {
    set p | p in t && d <= p
  }

  lemma UnrootedShrinks(t: Tree, a: seq<Root>, b: seq<Root>)
    requires a <= b
    ensures |Unrooted(t, b)| <= |Unrooted(t, a)|
  {
    assert forall r | r in a :: r in b;
    CardLess(Unrooted(t, b), Unrooted(t, a));
  }

  lemma UnrootedDrops(t: Tree, roots: seq<Root>, r: Root)
    requires IsDir(t, r.phys) && Owner(roots, r.phys) < 0
    ensures |Unrooted(t, roots + [r])| < |Unrooted(t, roots)|
  {
    assert forall s | s in roots :: s.phys != r.phys by {
      forall k | 0 <= k < |roots| ensures roots[k].phys != r.phys { assert !Owns(roots[k].phys, r.phys); }
    }
    assert r.phys in Unrooted(t, roots);
    assert r in roots + [r];
    CardLess(Unrooted(t, roots + [r]), Unrooted(t, roots) - {r.phys});
  }

  lemma BeneathDrops(t: Tree, d: Path, name: string)
    requires d in t && d + [name] in t
    ensures 0 < |Beneath(t, d + [name])| < |Beneath(t, d)|
  {
    assert d + [name] in Beneath(t, d + [name]);
    assert d in Beneath(t, d) && d !in Beneath(t, d + [name]);
    CardLess(Beneath(t, d + [name]), Beneath(t, d) - {d});
  }

  lemma CardLess<T>(a: set<T>, b: set<T>)
    requires a <= b
    ensures |a| <= |b|
  {
    assert b == a + (b - a);
  }

  lemma LinkIsDir(t: Tree, c: Path)
    requires WellFormed(t) && c in t && t[c].LinkToDir?
    ensures IsDir(t, t[c].target)
  {
  }
}
