/** What a walk of a tree promises, and the file system's own root, where it does
    not hold (pkg/fsid/fsid.go, `ownerOf`): behind the path of that root a second
    separator never follows, so nothing reads as beneath it. */
module TreeSlashes {
  import opened Records
  import opened TreeWalks
  import opened TreeSteps
  import opened TreeTours
  import opened TreeSafety

  /** The walk of a tree visits no directory twice, and reports no name twice. */
  ghost predicate Once(t: Tree, start: Path) {
    WellFormed(t) && IsDir(t, start) ==>
      var w := TourOf(t, start);
      && (forall i, j | 0 <= i < j < |w.visits| :: w.visits[i] != w.visits[j])
      && (forall i, j | 0 <= i < j < |w.reports| :: w.reports[i].logical != w.reports[j].logical)
  }

  // ------------------------------------------------------- a link, met too late

  /** The file system's root lists a directory, then a link to it. */
  predicate Beside(t: Tree) {
    && IsDir(t, []) && |t[[]].names| >= 2 && t[[]].names[0] == "d" && t[[]].names[1] == "l"
    && ["d"] in t && t[["d"]] == Dir([]) && ["l"] in t && t[["l"]] == LinkToDir(["d"])
  }

  /** Walked there, the link's target reads as outside every walk. */
  lemma EntriesTwice(t: Tree, w: Tour, r: Root)
    requires WellFormed(t) && Beside(t) && r.phys == [] && Owner(w.roots, ["d"]) < 0
    ensures EntriesToured(t, w, r, [], 2).visits == w.visits + [["d"], ["d"]]
    ensures EntriesToured(t, w, r, [], 2).roots == w.roots + [Root(["d"], r.logical + ["l"])]
  {
    hide EntryToured, WellFormed, Owner, Unrooted, Beneath;
    PlainEntry(t, w, r);
    var x := w.(visits := w.visits + [["d"]]);
    LinkedEntry(t, x, r);
    assert x.visits + [["d"]] == w.visits + [["d"], ["d"]];
    assert [] + [t[[]].names[0]] == ["d"] && [] + [t[[]].names[1]] == ["l"];
    assert EntriesToured(t, w, r, [], 0) == w;
    assert EntriesToured(t, w, r, [], 1) == x;
  }

  lemma PlainEntry(t: Tree, w: Tour, r: Root)
    requires WellFormed(t) && Beside(t) && r.phys == [] && Owner(w.roots, ["d"]) < 0
    ensures EntryToured(t, w, r, [], "d") == w.(visits := w.visits + [["d"]])
  {
    assert [] + ["d"] == ["d"];
    NotRooted(w.roots, ["d"]);
    hide WellFormed;
    LeafToured(t, w, r);
  }

  lemma NotRooted(roots: seq<Root>, p: Path)
    requires Owner(roots, p) < 0
    ensures RootOf(roots, p) < 0
  {
  }

  lemma LinkedEntry(t: Tree, w: Tour, r: Root)
    requires WellFormed(t) && Beside(t) && r.phys == [] && Owner(w.roots, ["d"]) < 0
    ensures EntryToured(t, w, r, [], "l").visits == w.visits + [["d"]]
    ensures EntryToured(t, w, r, [], "l").roots == w.roots + [Root(["d"], r.logical + ["l"])]
  {
    hide WellFormed;
    assert [] + ["l"] == ["l"] && ["l"][0..] == ["l"];
    var linked := Root(["d"], r.logical + ["l"]);
    LeafToured(t, w.(roots := w.roots + [linked]), linked);
  }

  lemma LeafToured(t: Tree, w: Tour, r: Root)
    requires WellFormed(t) && Beside(t) && r.phys <= ["d"]
    ensures DirToured(t, w, r, ["d"]) == w.(visits := w.visits + [["d"]])
  {
  }

  /** Any walk that registers the file system's root over such a tree. */
  lemma SlashTwice(t: Tree, w: Tour, r: Root)
    requires WellFormed(t) && Beside(t) && r.phys == [] && Owner(w.roots, []) < 0 && Owner(w.roots, ["d"]) < 0
    ensures w.visits + [[], ["d"], ["d"]] <= Toured(t, w, r).visits
  {
    hide WellFormed;
    var rooted := w.(roots := w.roots + [r]);
    var v := rooted.(visits := rooted.visits + [[]]);
    EntriesTwice(t, v, r);
    hide EntryToured, Owner, EntriesToured;
    EntriesGrow(t, v, r, [], 2, |t[[]].names|);
    assert w.visits + [[], ["d"], ["d"]] == v.visits + [["d"], ["d"]];
  }

  lemma {:induction false} EntriesGrow(t: Tree, w: Tour, r: Root, d: Path, m: nat, n: nat)
    requires WellFormed(t) && IsDir(t, d) && r.phys <= d && m <= n <= |t[d].names|
    ensures EntriesToured(t, w, r, d, m).visits <= EntriesToured(t, w, r, d, n).visits
  {
    hide WellFormed, EntryToured;
    if m < n {
      EntriesGrow(t, w, r, d, m, n - 1);
      Listed(t, d, n - 1);
    }
  }

  lemma Listed(t: Tree, d: Path, n: nat)
    requires WellFormed(t) && IsDir(t, d) && n < |t[d].names|
    ensures d + [t[d].names[n]] in t
  {
  }

  // -------------------------------------------------- a walk of the root itself

  const BESIDE: Tree := map[[] := Dir(["d", "l"]), ["d"] := Dir([]), ["l"] := LinkToDir(["d"])]

  lemma SlashWalksTwice()
    ensures WellFormed(BESIDE) && NoRootLinks(BESIDE) && IsDir(BESIDE, []) && !Once(BESIDE, [])
  {
    BesideWellFormed();
    hide BESIDE, WellFormed, Toured;
    SlashTwice(BESIDE, Tour([], map[], [], []), Root([], []));
    TwiceIsNotOnce(BESIDE, [], []);
  }

  lemma TwiceIsNotOnce(t: Tree, start: Path, before: seq<Path>)
    requires WellFormed(t) && IsDir(t, start) && before + [[], ["d"], ["d"]] <= TourOf(t, start).visits
    ensures !Once(t, start)
  {
    hide WellFormed, Toured;
    var visits := TourOf(t, start).visits;
    assert visits[|before| + 1] == (before + [[], ["d"], ["d"]])[|before| + 1];
    assert visits[|before| + 2] == (before + [[], ["d"], ["d"]])[|before| + 2];
  }

  lemma BesideWellFormed()
    ensures WellFormed(BESIDE) && NoRootLinks(BESIDE) && Beside(BESIDE)
  {
    hide BESIDE;
    BesideDirs();
    BesideLists();
    BesideParents();
    BesideLinks();
  }

  lemma BesideDirs()
    ensures Beside(BESIDE)
    ensures forall p, i, j | IsDir(BESIDE, p) && 0 <= i < j < |BESIDE[p].names| :: BESIDE[p].names[i] != BESIDE[p].names[j]
  {
  }

  lemma BesideLinks()
    ensures forall p | p in BESIDE && BESIDE[p].LinkToDir? :: IsDir(BESIDE, BESIDE[p].target) && BESIDE[p].target != []
  {
  }

  lemma BesideLists()
    ensures forall p, i | IsDir(BESIDE, p) && 0 <= i < |BESIDE[p].names| :: p + [BESIDE[p].names[i]] in BESIDE
  {
    forall p, i | IsDir(BESIDE, p) && 0 <= i < |BESIDE[p].names| ensures p + [BESIDE[p].names[i]] in BESIDE {
      assert [] + ["d"] == ["d"] && [] + ["l"] == ["l"];
    }
  }

  lemma BesideParents()
    ensures forall p | p in BESIDE && p != [] :: IsDir(BESIDE, Parent(p)) && p[|p| - 1] in BESIDE[Parent(p)].names
  {
    forall p | p in BESIDE && p != [] ensures IsDir(BESIDE, Parent(p)) && p[|p| - 1] in BESIDE[Parent(p)].names {
      assert Parent(p) == [];
      assert "d" == BESIDE[[]].names[0] && "l" == BESIDE[[]].names[1];
    }
  }

  // ------------------------------------------------- a link leading to the root

  const ABOVE: Tree := map[[] := Dir(["d", "l", "s"]), ["d"] := Dir([]), ["l"] := LinkToDir(["d"]),
                           ["s"] := Dir(["a"]), ["s", "a"] := LinkToDir([])]

  lemma AboveWellFormed()
    ensures WellFormed(ABOVE) && Beside(ABOVE) && IsDir(ABOVE, ["s"])
  {
    hide ABOVE;
    AboveDirs();
    AboveLists();
    AboveParents();
  }

  lemma AboveDirs()
    ensures Beside(ABOVE) && IsDir(ABOVE, ["s"])
    ensures forall p | p in ABOVE && ABOVE[p].LinkToDir? :: IsDir(ABOVE, ABOVE[p].target)
    ensures forall p, i, j | IsDir(ABOVE, p) && 0 <= i < j < |ABOVE[p].names| :: ABOVE[p].names[i] != ABOVE[p].names[j]
  {
  }

  lemma AboveLists()
    ensures forall p, i | IsDir(ABOVE, p) && 0 <= i < |ABOVE[p].names| :: p + [ABOVE[p].names[i]] in ABOVE
  {
    forall p, i | IsDir(ABOVE, p) && 0 <= i < |ABOVE[p].names| ensures p + [ABOVE[p].names[i]] in ABOVE {
      assert [] + ["d"] == ["d"] && [] + ["l"] == ["l"] && [] + ["s"] == ["s"] && ["s"] + ["a"] == ["s", "a"];
    }
  }

  lemma AboveParents()
    ensures forall p | p in ABOVE && p != [] :: IsDir(ABOVE, Parent(p)) && p[|p| - 1] in ABOVE[Parent(p)].names
  {
    forall p | p in ABOVE && p != [] ensures IsDir(ABOVE, Parent(p)) && p[|p| - 1] in ABOVE[Parent(p)].names {
      assert Parent(p) == if |p| == 2 then ["s"] else [];
      assert ABOVE[[]].names[0] == "d" && ABOVE[[]].names[1] == "l" && ABOVE[[]].names[2] == "s";
      assert ABOVE[["s"]].names[0] == "a";
    }
  }

  /** Followed, a link to the file system's root registers it, and from there the
      later link's target reads as outside again. */
  lemma RootLinkWalksTwice()
    ensures WellFormed(ABOVE) && IsDir(ABOVE, ["s"]) && !Once(ABOVE, ["s"])
  {
    AboveWellFormed();
    var blank, r := Tour([], map[], [], []), Root(["s"], []);
    var v := Tour([r], map[], [], [["s"]]);
    AboveEntry(v, r);
    hide ABOVE, WellFormed, EntryToured, Toured;
    OnlyEntry(ABOVE, blank, r, "a");
    assert blank.roots + [r] == [r] && blank.visits + [["s"]] == [["s"]];
    TwiceIsNotOnce(ABOVE, ["s"], [["s"]]);
  }

  lemma OnlyEntry(t: Tree, w: Tour, r: Root, name: string)
    requires WellFormed(t) && r.phys in t && t[r.phys] == Dir([name]) && Owner(w.roots, r.phys) < 0 && r.phys + [name] in t
    ensures Toured(t, w, r)
            == EntryToured(t, w.(roots := w.roots + [r], visits := w.visits + [r.phys]), r, r.phys, name)
  {
    hide WellFormed, EntryToured, Owner, Beneath, Unrooted;
    var v := w.(roots := w.roots + [r], visits := w.visits + [r.phys]);
    assert EntriesToured(t, v, r, r.phys, 0) == v;
    assert EntriesToured(t, v, r, r.phys, 1) == EntryToured(t, v, r, r.phys, name);
    hide EntriesToured;
    assert DirToured(t, w.(roots := w.roots + [r]), r, r.phys) == EntriesToured(t, v, r, r.phys, 1);
  }

  lemma AboveEntry(w: Tour, r: Root)
    requires WellFormed(ABOVE) && Beside(ABOVE) && r == Root(["s"], []) && w.roots == [r]
    ensures ABOVE[["s"]] == Dir(["a"]) && ["s"] + ["a"] in ABOVE
    ensures w.visits + [[], ["d"], ["d"]] <= EntryToured(ABOVE, w, r, ["s"], "a").visits
  {
    hide WellFormed;
    assert ["s"] + ["a"] == ["s", "a"];
    SlashTwice(ABOVE, w, Root([], [] + ["s", "a"][1..]));
  }

  // -------------------------------------------------------- when it holds

  /** The promise over every tree: walks of the file system's root, and links to
      it, may be in play or not. */
  ghost predicate AlwaysOnce(slash: bool, links: bool) {
    forall t, start | IsDir(t, start) && (slash || start != []) && (links || NoRootLinks(t)) :: Once(t, start)
  }

  /** It holds exactly when neither is. */
  lemma OnceIff(slash: bool, links: bool)
    ensures AlwaysOnce(slash, links) <==> !slash && !links
  {
    hide Once;
    if slash {
      SlashWalksTwice();
    } else if links {
      RootLinkWalksTwice();
    } else {
      forall t, start | IsDir(t, start) && start != [] && NoRootLinks(t) ensures Once(t, start) {
        if WellFormed(t) { SafeIsOnce(t, start); } else { Unwalked(t, start); }
      }
    }
  }

  lemma Unwalked(t: Tree, start: Path)
    requires !WellFormed(t)
    ensures Once(t, start)
  {
    hide WellFormed;
  }

  lemma SafeIsOnce(t: Tree, start: Path)
    requires WellFormed(t) && NoRootLinks(t) && IsDir(t, start) && start != []
    ensures Once(t, start)
  {
    hide WellFormed, Toured;
    TourDone(t, start);
    VisitsExactly(t, start, TourOf(t, start));
    NamesExactly(t, start, TourOf(t, start));
  }
}
