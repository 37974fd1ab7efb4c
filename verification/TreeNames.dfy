/** The naming rule of the tree walk (pkg/fsid/fsid.go): a name the walk reports
    never lies beneath an alias it declined, so a link's name never shadows a
    physical one. */
module TreeNames {
  import opened Records
  import opened TreeWalks
  import opened TreeSteps
  import opened TreeTours
  import opened TreeSafety
  import Renames

  /** The walk names an entry of a visited directory `lp`. */
  ghost predicate Named(t: Tree, w: Tour, d: Path, name: string, lp: Path) {
    d in w.visits && Owner(w.roots, d) >= 0 && d + [name] in t && lp == LogicalOf(w.roots, d) + [name]
  }

  /** Root `k` was registered by following a link. */
  ghost predicate Followed(t: Tree, w: Tour, k: nat, d: Path, name: string)
    requires k < |w.roots|
  {
    && Named(t, w, d, name, w.roots[k].logical) && Owner(w.roots, d) < k
    && t[d + [name]] == LinkToDir(w.roots[k].phys)
  }

  ghost predicate Unfollowed(t: Tree, w: Tour, d: Path, name: string) {
    forall k | 0 < k < |w.roots| :: !Followed(t, w, k, d, name)
  }

  predicate IsRoot(roots: seq<Root>, p: Path) {
    exists k :: 0 <= k < |roots| && roots[k].phys == p
  }

  /** An alias names an entry that was declined: a link nothing followed, or a
      directory another walk is rooted at. */
  ghost predicate Declined(t: Tree, w: Tour, a: Path, d: Path, name: string) {
    && Named(t, w, d, name, a)
    && (t[d + [name]].LinkToDir? || (t[d + [name]].Dir? && IsRoot(w.roots, d + [name])))
    && Unfollowed(t, w, d, name)
  }

  ghost predicate SomeFollowed(t: Tree, w: Tour, k: nat)
    requires k < |w.roots|
  {
    exists d, name :: Followed(t, w, k, d, name)
  }

  ghost predicate SomeDeclined(t: Tree, w: Tour, a: Path) {
    exists d, name :: Declined(t, w, a, d, name)
  }

  ghost predicate NamesOk(t: Tree, w: Tour) {
    && (forall k | 0 < k < |w.roots| :: SomeFollowed(t, w, k))
    && (forall a | a in w.aliases :: SomeDeclined(t, w, a))
  }

  /** An entry of a directory not visited before, or one of the named entries. */
  predicate Outside(w: Tour, d: Path, names: seq<string>, d': Path, name: string) {
    d' !in w.visits || (d' == d && name in names)
  }

  ghost predicate FollowedOutside(t: Tree, w: Tour, y: Tour, k: nat, d: Path, names: seq<string>)
    requires k < |y.roots|
  {
    exists d', name :: Followed(t, y, k, d', name) && Outside(w, d, names, d', name)
  }

  ghost predicate DeclinedOutside(t: Tree, w: Tour, y: Tour, a: Path, d: Path, names: seq<string>) {
    exists d', name :: Declined(t, y, a, d', name) && Outside(w, d, names, d', name)
  }

  /** New roots, from the `lo`th on, and new aliases are named by entries not
      handled before. */
  ghost predicate NewNames(t: Tree, w: Tour, y: Tour, lo: nat, d: Path, names: seq<string>) {
    && w.roots <= y.roots && w.visits <= y.visits && w.aliases.Keys <= y.aliases.Keys
    && (forall k: nat | 0 < k && lo <= k < |y.roots| :: FollowedOutside(t, w, y, k, d, names))
    && (forall a | a in y.aliases && a !in w.aliases :: DeclinedOutside(t, w, y, a, d, names))
  }

  /** Nothing is named by these entries yet. */
  ghost predicate Unnamed(t: Tree, w: Tour, d: Path, names: seq<string>) {
    && (forall name | name in names :: Unfollowed(t, w, d, name))
    && (forall a, name | a in w.aliases && name in names :: !Named(t, w, d, name, a))
  }

  // ---------------------------------------------------------- names as they stay

  /** A name belongs to one entry. */
  lemma NamedOnce(t: Tree, start: Path, w: Tour, lp: Path, d: Path, name: string, d': Path, name': string)
    requires WellFormed(t) && Sound(t, start, w) && Named(t, w, d, name, lp) && Named(t, w, d', name', lp)
    ensures d == d' && name == name'
  {
    hide WellFormed, Denotes, Owner, ReportsOk, AliasOk;
    var p, p' := LogicalOf(w.roots, d), LogicalOf(w.roots, d');
    assert lp == p + [name] == p' + [name'];
    assert p == lp[..|lp| - 1] == p' && name == lp[|lp| - 1] == name';
    VisitOwned(t, w, d);
    VisitOwned(t, w, d');
    LogicalLeads(t, start, w.roots, d);
    LogicalLeads(t, start, w.roots, d');
  }

  lemma NamedStays(t: Tree, w: Tour, y: Tour, d: Path, name: string, lp: Path)
    requires VisitsOk(t, w) && w.roots <= y.roots && w.visits <= y.visits && d in w.visits
    ensures Named(t, w, d, name, lp) <==> Named(t, y, d, name, lp)
  {
    hide Owner;
    VisitOwned(t, w, d);
    LogicalGrows(w.roots, y.roots, d);
    InPrefix(w.visits, y.visits, d);
  }

  lemma FollowedStays(t: Tree, w: Tour, y: Tour, k: nat, d: Path, name: string)
    requires VisitsOk(t, w) && w.roots <= y.roots && w.visits <= y.visits && d in w.visits && k < |w.roots|
    ensures Followed(t, w, k, d, name) <==> Followed(t, y, k, d, name)
  {
    hide Owner;
    VisitOwned(t, w, d);
    LogicalGrows(w.roots, y.roots, d);
    NamedStays(t, w, y, d, name, w.roots[k].logical);
    assert y.roots[k] == w.roots[k];
  }

  /** Unless new roots came from the entry, it stays unfollowed. */
  lemma UnfollowedStays(t: Tree, start: Path, w: Tour, y: Tour, d: Path, names: seq<string>, d': Path, name: string)
    requires WellFormed(t) && Sound(t, start, w) && Sound(t, start, y) && NewNames(t, w, y, |w.roots|, d, names)
    requires d' in w.visits && !(d' == d && name in names) && Unfollowed(t, w, d', name)
    ensures Unfollowed(t, y, d', name)
  {
    hide WellFormed, Named, RootsOk, ReportsOk, AliasOk, Declined, Owner;
    forall k: nat | 0 < k < |y.roots| ensures !Followed(t, y, k, d', name) {
      if k < |w.roots| {
        FollowedStays(t, w, y, k, d', name);
      } else if Followed(t, y, k, d', name) {
        assert FollowedOutside(t, w, y, k, d, names);
        var e, m :| Followed(t, y, k, e, m) && Outside(w, d, names, e, m);
        NamedOnce(t, start, y, y.roots[k].logical, d', name, e, m);
        assert false;
      }
    }
  }

  lemma DeclinedStays(t: Tree, start: Path, w: Tour, y: Tour, d: Path, names: seq<string>, a: Path, d': Path, name: string)
    requires WellFormed(t) && Sound(t, start, w) && Sound(t, start, y) && NewNames(t, w, y, |w.roots|, d, names)
    requires Declined(t, w, a, d', name) && !(d' == d && name in names)
    ensures Declined(t, y, a, d', name)
  {
    hide WellFormed, RootsOk, ReportsOk, AliasOk, Unfollowed;
    NamedStays(t, w, y, d', name, a);
    UnfollowedStays(t, start, w, y, d, names, d', name);
    if IsRoot(w.roots, d' + [name]) {
      var k :| 0 <= k < |w.roots| && w.roots[k].phys == d' + [name];
      assert y.roots[k] == w.roots[k];
    }
  }

  lemma NamesCarry(t: Tree, start: Path, w: Tour, y: Tour, d: Path, names: seq<string>)
    requires WellFormed(t) && Sound(t, start, w) && Sound(t, start, y) && NewNames(t, w, y, |w.roots|, d, names)
    requires NamesOk(t, w) && Unnamed(t, w, d, names)
    ensures NamesOk(t, y)
  {
    hide WellFormed, RootsOk, ReportsOk, AliasOk, Declined, Followed, Owner;
    forall k | 0 < k < |y.roots| ensures SomeFollowed(t, y, k) {
      if k < |w.roots| {
        assert SomeFollowed(t, w, k);
        var e, m :| Followed(t, w, k, e, m);
        FollowedIn(t, w, k, e, m);
        FollowedStays(t, w, y, k, e, m);
      } else {
        assert FollowedOutside(t, w, y, k, d, names);
      }
    }
    forall a | a in y.aliases ensures SomeDeclined(t, y, a) {
      if a in w.aliases {
        assert SomeDeclined(t, w, a);
        var e, m :| Declined(t, w, a, e, m);
        DeclinedIn(t, w, a, e, m);
        DeclinedStays(t, start, w, y, d, names, a, e, m);
      } else {
        assert DeclinedOutside(t, w, y, a, d, names);
      }
    }
  }

  lemma FollowedIn(t: Tree, w: Tour, k: nat, d: Path, name: string)
    requires k < |w.roots| && Followed(t, w, k, d, name)
    ensures d in w.visits && Named(t, w, d, name, w.roots[k].logical)
  {
  }

  lemma DeclinedIn(t: Tree, w: Tour, a: Path, d: Path, name: string)
    requires Declined(t, w, a, d, name)
    ensures d in w.visits && Named(t, w, d, name, a)
  {
  }

  /** More names of one walk. */
  lemma NewNamesAgain(t: Tree, start: Path, w: Tour, x: Tour, y: Tour, d: Path, names: seq<string>, name: string)
    requires WellFormed(t) && Sound(t, start, w) && Sound(t, start, x) && Sound(t, start, y)
    requires NewNames(t, w, x, |w.roots|, d, names) && NewNames(t, x, y, |x.roots|, d, [name]) && Unnamed(t, x, d, [name])
    ensures NewNames(t, w, y, |w.roots|, d, names + [name])
  {
    hide WellFormed, Sound, Declined, Followed, Owner, Named;
    forall k: nat | 0 < k && |w.roots| <= k < |y.roots| ensures FollowedOutside(t, w, y, k, d, names + [name]) {
      if k < |x.roots| {
        assert FollowedOutside(t, w, x, k, d, names);
        var e, m :| Followed(t, x, k, e, m) && Outside(w, d, names, e, m);
        FollowedIn(t, x, k, e, m);
        SoundVisits(t, start, x);
        FollowedStays(t, x, y, k, e, m);
        assert Followed(t, y, k, e, m) && Outside(w, d, names + [name], e, m);
      } else {
        assert FollowedOutside(t, x, y, k, d, [name]);
        var e, m :| Followed(t, y, k, e, m) && Outside(x, d, [name], e, m);
        OutsideBefore(w, x, d, names, name, e, m);
        assert Followed(t, y, k, e, m) && Outside(w, d, names + [name], e, m);
      }
    }
    forall a | a in y.aliases && a !in w.aliases ensures DeclinedOutside(t, w, y, a, d, names + [name]) {
      if a in x.aliases {
        assert DeclinedOutside(t, w, x, a, d, names);
        var e, m :| Declined(t, x, a, e, m) && Outside(w, d, names, e, m);
        DeclinedIn(t, x, a, e, m);
        DeclinedStays(t, start, x, y, d, [name], a, e, m);
        assert Declined(t, y, a, e, m) && Outside(w, d, names + [name], e, m);
      } else {
        assert DeclinedOutside(t, x, y, a, d, [name]);
        var e, m :| Declined(t, y, a, e, m) && Outside(x, d, [name], e, m);
        OutsideBefore(w, x, d, names, name, e, m);
        assert Declined(t, y, a, e, m) && Outside(w, d, names + [name], e, m);
      }
    }
  }

  lemma SoundVisits(t: Tree, start: Path, w: Tour)
    requires Sound(t, start, w)
    ensures VisitsOk(t, w)
  {
  }

  lemma OutsideBefore(w: Tour, x: Tour, d: Path, names: seq<string>, name: string, e: Path, m: string)
    requires w.visits <= x.visits && Outside(x, d, [name], e, m)
    ensures Outside(w, d, names + [name], e, m)
  {
    if e in w.visits { InPrefix(w.visits, x.visits, e); }
  }

  lemma UnnamedStays(t: Tree, start: Path, w: Tour, x: Tour, d: Path, names: seq<string>, done: seq<string>, name: string)
    requires WellFormed(t) && Sound(t, start, w) && Sound(t, start, x) && d in w.visits
    requires Unnamed(t, w, d, names) && name in names && name !in done && NewNames(t, w, x, |w.roots|, d, done)
    ensures Unnamed(t, x, d, [name])
  {
    hide WellFormed, Sound, Declined, Followed, Named, Unfollowed;
    UnfollowedStays(t, start, w, x, d, done, d, name);
    forall a | a in x.aliases ensures !Named(t, x, d, name, a) {
      if a in w.aliases {
        SoundVisits(t, start, w);
        NamedStays(t, w, x, d, name, a);
      } else if Named(t, x, d, name, a) {
        assert DeclinedOutside(t, w, x, a, d, done);
        var e, m :| Declined(t, x, a, e, m) && Outside(w, d, done, e, m);
        DeclinedIn(t, x, a, e, m);
        NamedOnce(t, start, x, a, d, name, e, m);
        assert false;
      }
    }
  }

  /** A directory just visited has named nothing. */
  lemma UnnamedStart(t: Tree, start: Path, w: Tour, v: Tour, d: Path, names: seq<string>)
    requires WellFormed(t) && Sound(t, start, w) && Sound(t, start, v) && NamesOk(t, w)
    requires d !in w.visits && v == w.(visits := w.visits + [d])
    ensures Unnamed(t, v, d, names)
  {
    hide WellFormed, Sound, Declined, Followed, Named, Outside;
    SoundVisits(t, start, w);
    forall k: nat, name | 0 < k < |v.roots| ensures !Followed(t, v, k, d, name) {
      if Followed(t, v, k, d, name) {
        assert SomeFollowed(t, w, k);
        var e, m :| Followed(t, w, k, e, m);
        FollowedIn(t, w, k, e, m);
        FollowedStays(t, w, v, k, e, m);
        FollowedIn(t, v, k, e, m);
        FollowedIn(t, v, k, d, name);
        NamedOnce(t, start, v, v.roots[k].logical, d, name, e, m);
        assert false;
      }
    }
    forall a, name | a in v.aliases ensures !Named(t, v, d, name, a) {
      if Named(t, v, d, name, a) {
        assert SomeDeclined(t, w, a);
        var e, m :| Declined(t, w, a, e, m);
        DeclinedIn(t, w, a, e, m);
        NamedStays(t, w, v, e, m, a);
        NamedOnce(t, start, v, a, d, name, e, m);
        assert false;
      }
    }
  }

  /** An alias recorded for an entry that named nothing yet. */
  lemma AliasNamed(t: Tree, start: Path, w: Tour, y: Tour, d: Path, name: string, lp: Path, owner: Path)
    requires WellFormed(t) && Sound(t, start, w) && Sound(t, start, y) && y == w.(aliases := w.aliases[lp := owner])
    requires NamesOk(t, w) && Unnamed(t, w, d, [name]) && Named(t, w, d, name, lp)
    requires t[d + [name]].LinkToDir? || (t[d + [name]].Dir? && IsRoot(w.roots, d + [name]))
    ensures NewNames(t, w, y, |w.roots|, d, [name]) && NamesOk(t, y)
  {
    hide WellFormed, Sound;
    assert Unfollowed(t, w, d, name);
    NamedHere(t, w, y, d, name, lp);
    assert Declined(t, y, lp, d, name) && Outside(w, d, [name], d, name);
    assert DeclinedOutside(t, w, y, lp, d, [name]);
    hide Declined, Followed, Named;
    NamesCarry(t, start, w, y, d, [name]);
  }

  lemma NamedHere(t: Tree, w: Tour, y: Tour, d: Path, name: string, lp: Path)
    requires y.roots == w.roots && y.visits == w.visits
    ensures Named(t, y, d, name, lp) <==> Named(t, w, d, name, lp)
    ensures Unfollowed(t, y, d, name) <==> Unfollowed(t, w, d, name)
  {
    assert forall k | 0 < k < |w.roots| :: Followed(t, y, k, d, name) <==> Followed(t, w, k, d, name);
  }

  // ----------------------------------------------------------- the whole walk

  /** A subtree registered by following a link, or the first. */
  lemma TouredNames(t: Tree, start: Path, w: Tour, r: Root)
    requires WellFormed(t) && NoRootLinks(t) && Sound(t, start, w) && r.phys != [] && IsDir(t, r.phys)
    requires Owner(w.roots, r.phys) < 0 && Denotes(t, start, r.logical) == Some(r.phys)
    requires NamesOk(t, w.(roots := w.roots + [r]))
    ensures
      var y := Toured(t, w, r);
      NewNames(t, w, y, |w.roots| + 1, [], []) && NamesOk(t, y)
    decreases |Unrooted(t, w.roots)|, 0, 0, 0
  {
    RootAdded(t, start, w, r);
    UnrootedDrops(t, w.roots, r);
    Fresh(w, r);
    hide Sound, Owner, Extends, WellFormed, NewReports, Denotes, DirToured, NamesOk, NewNames, NoRootLinks, Unrooted;
    var added := w.(roots := w.roots + [r]);
    DirTouredNames(t, start, added, |w.roots|, r, r.phys);
    NamesSince(t, w, added, DirToured(t, added, r, r.phys));
  }

  lemma NamesSince(t: Tree, w: Tour, added: Tour, y: Tour)
    requires w.roots <= added.roots && added.visits == w.visits && added.aliases == w.aliases
    requires NewNames(t, added, y, |added.roots|, [], [])
    ensures NewNames(t, w, y, |added.roots|, [], [])
  {
    hide Followed, Declined;
    forall k: nat | 0 < k && |added.roots| <= k < |y.roots| ensures FollowedOutside(t, w, y, k, [], []) {
      assert FollowedOutside(t, added, y, k, [], []);
    }
    forall a | a in y.aliases && a !in w.aliases ensures DeclinedOutside(t, w, y, a, [], []) {
      assert DeclinedOutside(t, added, y, a, [], []);
    }
  }

  lemma DirTouredNames(t: Tree, start: Path, w: Tour, i: nat, r: Root, d: Path)
    requires WellFormed(t) && NoRootLinks(t) && Sound(t, start, w) && IsDir(t, d) && r.phys <= d
    requires i < |w.roots| && w.roots[i] == r && Owner(w.roots, d) == i
    requires forall p | p in w.visits && Owner(w.roots, p) == i :: !(d <= p)
    requires NamesOk(t, w)
    ensures
      var y := DirToured(t, w, r, d);
      NewNames(t, w, y, |w.roots|, [], []) && NamesOk(t, y)
    decreases |Unrooted(t, w.roots)|, |Beneath(t, d)|, 3, 0
  {
    hide Sound, Owner, Extends, NewReports, EntriesDone, NothingOf, WellFormed, Denotes, EntriesToured;
    hide Adds, EntriesHandled, Unreported, NoRootLinks, Unrooted, Beneath, NamesOk, NewNames, Unnamed;
    assert d !in w.visits;
    VisitAdded(t, start, w, d);
    var v, names := w.(visits := w.visits + [d]), t[d].names;
    EntriesStart(t, start, w, v, i, d);
    VisitNames(t, start, w, v, d);
    UnnamedStart(t, start, w, v, d, names);
    EntriesTouredNames(t, start, v, i, r, d, |names|);
    assert names[..|names|] == names;
    NamesBefore(t, w, v, EntriesToured(t, v, r, d, |names|), d, names);
  }

  lemma VisitNames(t: Tree, start: Path, w: Tour, v: Tour, d: Path)
    requires WellFormed(t) && Sound(t, start, w) && Sound(t, start, v) && v == w.(visits := w.visits + [d]) && NamesOk(t, w)
    ensures NamesOk(t, v)
  {
    hide Sound, WellFormed, NamesOk, Followed, Declined;
    NamesCarry(t, start, w, v, [], []);
  }

  lemma NamesBefore(t: Tree, w: Tour, v: Tour, y: Tour, d: Path, names: seq<string>)
    requires v == w.(visits := w.visits + [d]) && d !in w.visits && NewNames(t, v, y, |v.roots|, d, names)
    ensures NewNames(t, w, y, |w.roots|, [], [])
  {
    hide Followed, Declined;
    forall k: nat | 0 < k && |w.roots| <= k < |y.roots| ensures FollowedOutside(t, w, y, k, [], []) {
      assert FollowedOutside(t, v, y, k, d, names);
      var e, m :| Followed(t, y, k, e, m) && Outside(v, d, names, e, m);
      assert Outside(w, [], [], e, m);
    }
    forall a | a in y.aliases && a !in w.aliases ensures DeclinedOutside(t, w, y, a, [], []) {
      assert DeclinedOutside(t, v, y, a, d, names);
      var e, m :| Declined(t, y, a, e, m) && Outside(v, d, names, e, m);
      assert Outside(w, [], [], e, m);
    }
    assert forall p | p in w.visits :: p in v.visits;
  }

  lemma EntriesTouredNames(t: Tree, start: Path, w: Tour, i: nat, r: Root, d: Path, n: nat)
    requires WellFormed(t) && NoRootLinks(t) && Sound(t, start, w) && IsDir(t, d) && r.phys <= d && n <= |t[d].names|
    requires i < |w.roots| && w.roots[i] == r && Owner(w.roots, d) == i && d in w.visits
    requires NothingOf(w, i, d, t[d].names) && Unreported(w, d)
    requires Adds(t, w, w, i, d, t[d].names[..0]) && EntriesDone(t, w, i, d, t[d].names[..0])
    requires EntriesHandled(t, w, d, t[d].names[..0])
    requires NamesOk(t, w) && Unnamed(t, w, d, t[d].names)
    ensures
      var y, names := EntriesToured(t, w, r, d, n), t[d].names[..n];
      NewNames(t, w, y, |w.roots|, d, names) && NamesOk(t, y)
    decreases |Unrooted(t, w.roots)|, |Beneath(t, d)|, 2, n
  {
    hide Sound, Owner, Extends, NewReports, EntriesDone, NothingOf, WellFormed, Denotes, EntriesHandled, EntryToured;
    hide Adds, Unreported, NoRootLinks, Beneath, Unrooted, NamesOk, Unnamed, NewNames;
    if n == 0 {
      NoNewNames(t, w, d);
    } else {
      var x, names, name := EntriesToured(t, w, r, d, n - 1), t[d].names, t[d].names[n - 1];
      EntriesTouredSound(t, start, w, i, r, d, n - 1);
      EntriesTouredNames(t, start, w, i, r, d, n - 1);
      UnrootedShrinks(t, w.roots, x.roots);
      NamesApart(t, d, n - 1);
      OneOf(w, i, d, names, n - 1);
      assert name in names && name !in names[..n - 1] && names[..n] == names[..n - 1] + [name];
      EntryFree(t, start, w, x, i, d, names[..n - 1], name);
      UnnamedStays(t, start, w, x, d, names, names[..n - 1], name);
      EntryTouredSound(t, start, x, i, r, d, name);
      EntryTouredNames(t, start, x, i, r, d, name);
      NewNamesAgain(t, start, w, x, EntryToured(t, x, r, d, name), d, names[..n - 1], name);
    }
  }

  lemma NoNewNames(t: Tree, w: Tour, d: Path)
    ensures NewNames(t, w, w, |w.roots|, d, [])
  {
  }

  lemma EntryTouredNames(t: Tree, start: Path, w: Tour, i: nat, r: Root, d: Path, name: string)
    requires WellFormed(t) && NoRootLinks(t) && Sound(t, start, w) && IsDir(t, d) && d + [name] in t && r.phys <= d
    requires i < |w.roots| && w.roots[i] == r && Owner(w.roots, d) == i && d in w.visits
    requires NothingOf(w, i, d, [name]) && forall r | r in w.reports :: r.entry != d + [name]
    requires NamesOk(t, w) && Unnamed(t, w, d, [name])
    ensures
      var y := EntryToured(t, w, r, d, name);
      NewNames(t, w, y, |w.roots|, d, [name]) && NamesOk(t, y)
    decreases |Unrooted(t, w.roots)|, |Beneath(t, d)|, 1, 1
  {
    hide Sound, Owner, Extends, NewReports, EntriesDone, NothingOf, WellFormed, Denotes, Adds, EntriesHandled, Unrooted;
    hide NoRootLinks, Beneath, DirToured, Toured, NamesOk, Unnamed, NewNames;
    var c := d + [name];
    var lp := r.logical + c[|r.phys|..];
    LogicalEntry(t, start, w, i, d, name);
    assert Named(t, w, d, name, lp);
    EntryTouredSound(t, start, w, i, r, d, name);
    if t[c].Dir? {
      SubdirNames(t, start, w, i, r, d, name, lp);
    } else if t[c].LinkToDir? {
      LinkNames(t, start, w, i, r, d, name, lp, t[c].target);
    } else {
      var y := EntryToured(t, w, r, d, name);
      NothingNamed(t, start, w, y, d, name);
    }
  }

  lemma NothingNamed(t: Tree, start: Path, w: Tour, y: Tour, d: Path, name: string)
    requires WellFormed(t) && Sound(t, start, w) && Sound(t, start, y) && y == w.(reports := y.reports)
    requires NamesOk(t, w) && Unnamed(t, w, d, [name])
    ensures NewNames(t, w, y, |w.roots|, d, [name]) && NamesOk(t, y)
  {
    hide Sound, WellFormed, NamesOk, Unnamed, Followed, Declined;
    NamesCarry(t, start, w, y, d, [name]);
  }

  lemma SubdirNames(t: Tree, start: Path, w: Tour, i: nat, r: Root, d: Path, name: string, lp: Path)
    requires WellFormed(t) && NoRootLinks(t) && Sound(t, start, w) && IsDir(t, d) && IsDir(t, d + [name]) && r.phys <= d
    requires i < |w.roots| && w.roots[i] == r && Owner(w.roots, d) == i && lp == r.logical + (d + [name])[|r.phys|..]
    requires NothingOf(w, i, d, [name]) && Named(t, w, d, name, lp) && Sound(t, start, EntryToured(t, w, r, d, name))
    requires NamesOk(t, w) && Unnamed(t, w, d, [name])
    ensures
      var y := EntryToured(t, w, r, d, name);
      NewNames(t, w, y, |w.roots|, d, [name]) && NamesOk(t, y)
    decreases |Unrooted(t, w.roots)|, |Beneath(t, d)|, 1, 0
  {
    hide Sound, Owner, Extends, NewReports, EntriesDone, NothingOf, WellFormed, Denotes, Adds, EntriesHandled, Unrooted;
    hide NoRootLinks, Beneath, DirToured, NamesOk, Unnamed, NewNames, Named;
    var c := d + [name];
    var j := RootOf(w.roots, c);
    BeneathDrops(t, d, name);
    if j >= 0 {
      AliasNamed(t, start, w, EntryToured(t, w, r, d, name), d, name, lp, w.roots[j].logical);
    } else {
      EntryOwned(t, start, w, i, d, name);
      DirTouredNames(t, start, w, i, r, c);
      NamesWiden(t, w, DirToured(t, w, r, c), |w.roots|, d, name);
    }
  }

  lemma NamesWiden(t: Tree, w: Tour, y: Tour, lo: nat, d: Path, name: string)
    requires NewNames(t, w, y, lo, [], [])
    ensures NewNames(t, w, y, lo, d, [name])
  {
    hide Followed, Declined;
    forall k: nat | 0 < k && lo <= k < |y.roots| ensures FollowedOutside(t, w, y, k, d, [name]) {
      assert FollowedOutside(t, w, y, k, [], []);
      var e, m :| Followed(t, y, k, e, m) && Outside(w, [], [], e, m);
      assert Outside(w, d, [name], e, m);
    }
    forall a | a in y.aliases && a !in w.aliases ensures DeclinedOutside(t, w, y, a, d, [name]) {
      assert DeclinedOutside(t, w, y, a, [], []);
      var e, m :| Declined(t, y, a, e, m) && Outside(w, [], [], e, m);
      assert Outside(w, d, [name], e, m);
    }
  }

  lemma LinkNames(t: Tree, start: Path, w: Tour, i: nat, r: Root, d: Path, name: string, lp: Path, target: Path)
    requires WellFormed(t) && NoRootLinks(t) && Sound(t, start, w) && IsDir(t, d) && d + [name] in t && r.phys <= d
    requires i < |w.roots| && Owner(w.roots, d) == i && t[d + [name]] == LinkToDir(target)
    requires Named(t, w, d, name, lp) && Denotes(t, start, lp) == Some(target) && Sound(t, start, EntryToured(t, w, r, d, name))
    requires lp == r.logical + (d + [name])[|r.phys|..] && NamesOk(t, w) && Unnamed(t, w, d, [name])
    ensures
      var y := EntryToured(t, w, r, d, name);
      NewNames(t, w, y, |w.roots|, d, [name]) && NamesOk(t, y)
    decreases |Unrooted(t, w.roots)|, |Beneath(t, d)|, 1, 0
  {
    hide Sound, Extends, NewReports, EntriesDone, WellFormed, Denotes, Adds, EntriesHandled, Unrooted, Beneath, NoRootLinks;
    hide Toured, NamesOk, Unnamed, NewNames, Named;
    BeneathDrops(t, d, name);
    if Owner(w.roots, target) >= 0 {
      AliasNamed(t, start, w, EntryToured(t, w, r, d, name), d, name, lp, LogicalOf(w.roots, target));
    } else {
      LinkTarget(t, d + [name]);
      var followed := Root(target, lp);
      RootNamed(t, start, w, followed, d, name);
      TouredNames(t, start, w, followed);
      LinkFollowed(t, w, Toured(t, w, followed), followed, d, name);
    }
  }

  /** The root a link registers is named by it. */
  lemma RootNamed(t: Tree, start: Path, w: Tour, r: Root, d: Path, name: string)
    requires WellFormed(t) && Sound(t, start, w) && Named(t, w, d, name, r.logical) && t[d + [name]] == LinkToDir(r.phys)
    requires r.phys != [] && IsDir(t, r.phys) && Owner(w.roots, r.phys) < 0 && Denotes(t, start, r.logical) == Some(r.phys)
    requires NamesOk(t, w) && Unnamed(t, w, d, [name])
    ensures NamesOk(t, w.(roots := w.roots + [r]))
  {
    hide WellFormed, Sound, NamesOk, Unnamed, Denotes, Named, Owner, NewNames;
    var added := w.(roots := w.roots + [r]);
    RootAdded(t, start, w, r);
    OnlyRootNew(t, start, w, added, r, d, name);
    NamesCarry(t, start, w, added, d, [name]);
  }

  lemma OnlyRootNew(t: Tree, start: Path, w: Tour, added: Tour, r: Root, d: Path, name: string)
    requires Sound(t, start, w) && Named(t, w, d, name, r.logical) && t[d + [name]] == LinkToDir(r.phys)
    requires added == w.(roots := w.roots + [r])
    ensures NewNames(t, w, added, |w.roots|, d, [name])
  {
    hide Sound, Declined;
    NamedByLink(t, start, w, added, r, d, name);
    hide Followed;
    assert FollowedOutside(t, w, added, |w.roots|, d, [name]);
  }

  lemma NamedByLink(t: Tree, start: Path, w: Tour, y: Tour, r: Root, d: Path, name: string)
    requires Sound(t, start, w) && Named(t, w, d, name, r.logical) && t[d + [name]] == LinkToDir(r.phys)
    requires w.roots + [r] <= y.roots && w.visits <= y.visits
    ensures Followed(t, y, |w.roots|, d, name) && Outside(w, d, [name], d, name)
  {
    SoundVisits(t, start, w);
    hide Sound, Owner;
    assert w.roots <= y.roots && y.roots[|w.roots|] == r;
    LogicalGrows(w.roots, y.roots, d);
    InPrefix(w.visits, y.visits, d);
  }

  lemma LinkFollowed(t: Tree, w: Tour, y: Tour, r: Root, d: Path, name: string)
    requires NewNames(t, w, y, |w.roots| + 1, [], []) && w.roots + [r] <= y.roots
    requires Named(t, w, d, name, r.logical) && t[d + [name]] == LinkToDir(r.phys)
    ensures NewNames(t, w, y, |w.roots|, d, [name])
  {
    assert w.roots <= y.roots && y.roots[|w.roots|] == r;
    LogicalGrows(w.roots, y.roots, d);
    InPrefix(w.visits, y.visits, d);
    assert Followed(t, y, |w.roots|, d, name) && Outside(w, d, [name], d, name);
    NamesWiden(t, w, y, |w.roots| + 1, d, name);
    hide Followed, Declined;
    assert FollowedOutside(t, w, y, |w.roots|, d, [name]);
  }

  lemma TourNames(t: Tree, start: Path)
    requires WellFormed(t) && NoRootLinks(t) && IsDir(t, start) && start != []
    ensures NamesOk(t, TourOf(t, start)) && Finished(t, start, TourOf(t, start))
  {
    hide WellFormed, Toured;
    var blank, r := Tour([], map[], [], []), Root(start, []);
    TouredNames(t, start, blank, r);
    TouredSound(t, start, blank, r);
  }

  // ------------------------------------------------------------ the naming rule

  ghost predicate Finished(t: Tree, start: Path, w: Tour) {
    Sound(t, start, w) && |w.roots| > 0 && w.roots[0].logical == []
  }

  lemma LogicalOnce(t: Tree, start: Path, roots: seq<Root>, p: Path, q: Path)
    requires WellFormed(t) && RootsOk(t, start, roots) && IsDir(t, p) && IsDir(t, q)
    requires Owner(roots, p) >= 0 && Owner(roots, q) >= 0 && LogicalOf(roots, p) == LogicalOf(roots, q)
    ensures p == q
  {
    hide WellFormed, RootsOk, Denotes;
    LogicalLeads(t, start, roots, p);
    LogicalLeads(t, start, roots, q);
  }

  /** Above a directory that is no root, its parent is in the same subtree. */
  lemma ParentOwned(t: Tree, start: Path, roots: seq<Root>, p: Path)
    requires WellFormed(t) && RootsOk(t, start, roots) && IsDir(t, p) && Owner(roots, p) >= 0
    requires p != roots[Owner(roots, p)].phys
    ensures p != [] && IsDir(t, Parent(p)) && Owner(roots, Parent(p)) == Owner(roots, p)
    ensures LogicalOf(roots, p) == LogicalOf(roots, Parent(p)) + [p[|p| - 1]]
  {
    hide WellFormed, RootsOk, Owner;
    var i := Owner(roots, p);
    var q, name := Parent(p), p[|p| - 1];
    LastName(p);
    AncestorsAreDirs(t, p, |p| - 1);
    NonEmptyRoot(t, start, roots, i);
    assert Owns(roots[i].phys, q) by { PrefixStep(roots[i].phys, q, name); }
    forall k | 0 <= k < i ensures !Owns(roots[k].phys, q) {
      assert !Owns(roots[k].phys, p);
      PrefixStep(roots[k].phys, q, name);
    }
    assert Owner(roots, q) == i;
    TailStep(roots[i].logical, |roots[i].phys|, q, name);
  }

  lemma NonEmptyRoot(t: Tree, start: Path, roots: seq<Root>, i: nat)
    requires RootsOk(t, start, roots) && i < |roots|
    ensures roots[i].phys != []
  {
  }

  /** No walked directory is reported beneath an alias. */
  lemma {:induction false} NotBeneath(t: Tree, start: Path, w: Tour, a: Path, p: Path)
    requires WellFormed(t) && Finished(t, start, w) && NamesOk(t, w) && a in w.aliases
    requires IsDir(t, p) && Owner(w.roots, p) >= 0
    ensures !(a <= LogicalOf(w.roots, p))
    decreases Owner(w.roots, p), |p|
  {
    var i := Owner(w.roots, p);
    assert SomeDeclined(t, w, a);
    var d, name :| Declined(t, w, a, d, name);
    hide WellFormed;
    if p != w.roots[i].phys {
      ParentOwned(t, start, w.roots, p);
      NotBeneath(t, start, w, a, Parent(p));
      NotThere(t, start, w, a, d, name, p);
      Shorter(a, LogicalOf(w.roots, Parent(p)), p[|p| - 1]);
    } else if i > 0 {
      assert SomeFollowed(t, w, i);
      var e, m :| Followed(t, w, i, e, m);
      SoundVisits(t, start, w);
      VisitOwned(t, w, e);
      NotBeneath(t, start, w, a, e);
      if a == w.roots[i].logical {
        NamedOnce(t, start, w, a, d, name, e, m);
        assert false;
      }
      Shorter(a, LogicalOf(w.roots, e), m);
      RootIsOwner(t, start, w, i);
    } else {
      RootIsOwner(t, start, w, 0);
    }
  }

  lemma Shorter(a: Path, b: Path, name: string)
    requires !(a <= b) && a != b + [name]
    ensures !(a <= b + [name])
  {
    PrefixStep(a, b, name);
  }

  /** A directory walked where its parent was is not the one an alias names. */
  lemma NotThere(t: Tree, start: Path, w: Tour, a: Path, d: Path, name: string, p: Path)
    requires WellFormed(t) && Sound(t, start, w) && Declined(t, w, a, d, name)
    requires IsDir(t, p) && Owner(w.roots, p) >= 0 && p != w.roots[Owner(w.roots, p)].phys
    ensures LogicalOf(w.roots, p) != a
  {
    hide WellFormed, Denotes, ReportsOk, AliasOk;
    ParentOwned(t, start, w.roots, p);
    VisitOwned(t, w, d);
    if LogicalOf(w.roots, p) == a {
      var q := Parent(p);
      assert LogicalOf(w.roots, q) == a[..|a| - 1] == LogicalOf(w.roots, d);
      LogicalOnce(t, start, w.roots, q, d);
      LastName(p);
      assert p == d + [name];
      var j :| 0 <= j < |w.roots| && w.roots[j].phys == p;
      RootIsOwner(t, start, w, j);
      assert false;
    }
  }

  /** No file is reported at an alias or beneath one. */
  lemma NothingBeneathAliases(t: Tree, start: Path)
    requires WellFormed(t) && NoRootLinks(t) && IsDir(t, start) && start != []
    ensures
      var w := TourOf(t, start);
      forall a, r | a in w.aliases && r in w.reports :: !(a <= r.logical)
  {
    TourNames(t, start);
    var w := TourOf(t, start);
    hide WellFormed, Toured, NamesOk;
    forall a, r | a in w.aliases && r in w.reports ensures !(a <= r.logical) {
      ReportApart(t, start, w, a, r);
    }
  }

  lemma ReportApart(t: Tree, start: Path, w: Tour, a: Path, r: Report)
    requires WellFormed(t) && Finished(t, start, w) && NamesOk(t, w) && a in w.aliases && r in w.reports
    ensures !(a <= r.logical)
  {
    assert SomeDeclined(t, w, a);
    hide WellFormed, Sound, NamesOk, Denotes, Owner;
    ReportNamed(t, start, w, r);
    var e, m := Parent(r.entry), r.entry[|r.entry| - 1];
    SoundVisits(t, start, w);
    VisitOwned(t, w, e);
    NotBeneath(t, start, w, a, e);
    if a == r.logical { NeverBoth(t, start, w, a, e, m); }
    Shorter(a, LogicalOf(w.roots, e), m);
  }

  /** What is reported is not what was declined. */
  lemma NeverBoth(t: Tree, start: Path, w: Tour, a: Path, e: Path, m: string)
    requires WellFormed(t) && Sound(t, start, w) && SomeDeclined(t, w, a)
    requires Named(t, w, e, m, a)
    ensures !Reported(t[e + [m]])
  {
    hide WellFormed, Sound, Unfollowed;
    var d, name :| Declined(t, w, a, d, name);
    NamedOnce(t, start, w, a, d, name, e, m);
  }

  lemma ReportNamed(t: Tree, start: Path, w: Tour, r: Report)
    requires Sound(t, start, w) && r in w.reports
    ensures r.entry != [] && r.entry in t && Reported(t[r.entry])
    ensures
      var e, m := Parent(r.entry), r.entry[|r.entry| - 1];
      Named(t, w, e, m, r.logical) && e + [m] == r.entry
  {
    hide RootsOk, AliasOk, Owner;
    var k :| 0 <= k < |w.reports| && w.reports[k] == r;
    LastName(r.entry);
  }

  /** So an old spelling of a path, through any of the walk's aliases, is never
      the name of a file walked today. */
  lemma SpellingsAreNotWalked(t: Tree, start: Path, n: nat, p: Path, q: Path)
    requires WellFormed(t) && NoRootLinks(t) && IsDir(t, start) && start != []
    requires Renames.Respells(TourOf(t, start).aliases, n, p, q)
    ensures forall r | r in TourOf(t, start).reports :: r.logical != q
  {
    hide WellFormed, Toured;
    var w := TourOf(t, start);
    var a := Renames.RespelledBeneath(w.aliases, n, p, q);
    NothingBeneathAliases(t, start);
    forall r | r in w.reports ensures r.logical != q {
      assert !(a <= r.logical);
    }
  }
}
