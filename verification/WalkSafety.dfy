/** What one walk keeps: every mutation it performs leaves the collection's
    settlement telling the truth, provided no element is met twice. */
module WalkSafety {
  import opened Statuses
  import opened Records
  import opened Walks

  // ------------------------------------------------- what settlement promises

  /** Everything recorded is terminal and has everything older beneath it. */
  predicate Closed(c: Col) {
    forall e | e in c.elems :: c.elems[e].terminal && forall f | 0 <= f < e :: f in c.elems
  }

  predicate Sound(c: Col) {
    c.settled ==> c.complete && Closed(c)
  }

  /** The discipline of one mutation: settlement is only claimed of a closed
      collection, and nothing new is recorded while it stands. */
  predicate OpOk(c: Col, op: Op) {
    match op
    case SetSettled(v) => v ==> c.complete && Closed(c)
    case MarkComplete => true
    case Archive(a) =>
      && (c.settled ==> a.item.id in c.elems && a.item.terminal)
      && (a.status.Some? ==> !a.status.value.IsGate())
  }

  predicate GoodTrace(c: Col, ops: seq<Op>)
    decreases |ops|
  {
    ops == [] || (OpOk(c, ops[0]) && GoodTrace(Apply(c, ops[0]), ops[1..]))
  }

  /** Every state along the trace, the first and the last included, is sound. */
  predicate AlwaysSound(c: Col, ops: seq<Op>)
    decreases |ops|
  {
    Sound(c) && (ops != [] ==> AlwaysSound(Apply(c, ops[0]), ops[1..]))
  }

  lemma OpKeepsSound(c: Col, op: Op)
    requires Sound(c) && OpOk(c, op)
    ensures Sound(Apply(c, op))
  {
  }

  lemma {:induction false} GoodTraceSound(c: Col, ops: seq<Op>)
    requires Sound(c) && GoodTrace(c, ops)
    ensures AlwaysSound(c, ops) && Sound(ApplyAll(c, ops))
    decreases |ops|
  {
    if ops != [] {
      OpKeepsSound(c, ops[0]);
      GoodTraceSound(Apply(c, ops[0]), ops[1..]);
    }
  }

  lemma {:induction false} GoodTraceConcat(c: Col, a: seq<Op>, b: seq<Op>)
    requires GoodTrace(c, a) && GoodTrace(ApplyAll(c, a), b)
    ensures GoodTrace(c, a + b)
    decreases |a|
  {
    if a == [] {
      assert a + b == b;
    } else {
      assert (a + b)[1..] == a[1..] + b;
      GoodTraceConcat(Apply(c, a[0]), a[1..], b);
    }
  }

  // ------------------------------------------------------ what a listing shows

  /** The stretch of the listing the walk has paged over without a gap. */
  datatype Reach = Reach(low: nat, high: nat)

  /** A page lists consecutive elements, newest first.  Elements created since
      the previous fetch shift the listing older, so a page may open on elements
      already listed, but never below the element that should come next. */
  ghost predicate PageFits(page: Fetch, reach: Option<Reach>)
    requires page.Page?
  {
    && (forall i | 0 <= i < |page.items| :: page.items[i].id == page.items[0].id - i)
    && (reach.Some? ==> if page.items == [] then reach.value.low == 0 else page.items[0].id + 1 >= reach.value.low)
    && (page.items != [] && !page.hasNext ==> page.items[|page.items| - 1].id == 0)
  }

  function NextReach(page: Fetch, reach: Option<Reach>): Option<Reach>
    requires page.Page?
  {
    if page.items == [] then reach
    else
      var first, last := page.items[0].id, page.items[|page.items| - 1].id;
      Some(Reach(last, if reach.Some? && reach.value.high > first then reach.value.high else first))
  }

  /** Archive closures record a terminal element with some outcome, and all of
      them returned unless the walk was interrupted. */
  ghost predicate ArchivesFit(d: Decision, page: Fetch)
    requires page.Page?
  {
    && (forall a | a in page.archives :: a.item in d.included)
    && (forall a | a in page.archives :: a.item.terminal ==> a.status.Some?)
    && (forall a | a in page.archives && a.status.Some? :: !a.status.value.IsGate())
    && (!page.aborted ==> forall it | it in d.included :: exists a | a in page.archives :: a.item == it)
  }

  ghost predicate FitsFrom(cfg: Config, retryAbsent: bool, allowed: bool, c: Col, w: Progress, reach: Option<Reach>,
                           script: seq<Fetch>)
    decreases |script|
  {
    script == [] || script[0].Failed? ||
    (&& PageFits(script[0], reach)
     && ArchivesFit(DecidePage(cfg, c, allowed, script[0].items, w), script[0])
     && (PageVerdict(cfg, retryAbsent, allowed, c, w, script[0]).None? ==>
           FitsFrom(cfg, retryAbsent, allowed, ApplyAll(c, PageOps(cfg, retryAbsent, allowed, c, w, script[0])),
                    NextProgress(cfg, allowed, c, w, script[0]), NextReach(script[0], reach), script[1..])))
  }

  /** A script one run may meet upstream: whatever was recorded before is still
      listed, at or below the newest element. */
  ghost predicate Fits(cfg: Config, retryAbsent: bool, c: Col, script: seq<Fetch>) {
    && FitsFrom(cfg, retryAbsent, StopAllowed(c, retryAbsent), c, START, None, script)
    && (script != [] && script[0].Page? ==>
          forall e | e in c.elems :: script[0].items != [] && e <= script[0].items[0].id)
  }

  /** No element is served twice in one walk. */
  ghost predicate ServedOnce(script: seq<Fetch>) {
    forall i, j, x, y |
      0 <= i < j < |script| && script[i].Page? && script[j].Page? && x in script[i].items && y in script[j].items ::
      x.id != y.id
  }

  /** Every run of the walk from this state, whatever upstream lists and however
      its pages shift, keeps every intermediate state sound. */
  ghost predicate WalkIsSafe(cfg: Config, retryAbsent: bool, c: Col) {
    forall script: seq<Fetch> | Fits(cfg, retryAbsent, c, script) ::
      AlwaysSound(c, WalkRun(cfg, retryAbsent, c, script).ops)
  }

  // ------------------------------------------------------- one page's decision

  /** The elements a page adds to the walk. */
  predicate Added(d0: Decision, d: Decision, it: Item) {
    |d0.included| <= |d.included| && it in d.included[|d0.included|..]
  }

  ghost predicate DecideFacts(cfg: Config, c: Col, allowed: bool, items: seq<Item>, d0: Decision, d: Decision) {
    && d0.included <= d.included
    && (forall it | Added(d0, d, it) :: it in items)
    && (forall e | e in d.walked :: e in d0.walked || exists it :: Added(d0, d, it) && it.id == e)
    && d0.walked <= d.walked
    && (forall it | Added(d0, d, it) :: it.id in d.walked)
    && (!d.sawNonTerminal ==> !d0.sawNonTerminal && forall it | Added(d0, d, it) :: it.terminal)
    && (!d.mutates ==> !d0.mutates && forall it | Added(d0, d, it) :: Frozen(c, it))
    && (!d.stopped && !d.outOfBounds ==> forall it | it in items :: it.id in d.walked)
    && (d.stopped ==>
          && |d.included| > |d0.included|
          && Frozen(c, d.included[|d.included| - 1]) && allowed && !d.sawNonTerminal
          && (exists n :: 0 <= n < |items| && items[n] == d.included[|d.included| - 1]
                          && forall m | 0 <= m <= n :: items[m].id in d.walked)
          && (cfg.historyCount > 0 ==> d.included[|d.included| - 1].id !in d0.walked))
  }

  lemma {:induction false} DecideHolds(cfg: Config, c: Col, allowed: bool, items: seq<Item>, d0: Decision)
    requires !d0.stopped && !d0.outOfBounds
    ensures DecideFacts(cfg, c, allowed, items, d0, Decide(cfg, c, allowed, items, d0))
    decreases |items|
  {
    var d := Decide(cfg, c, allowed, items, d0);
    if items != [] {
      var d1 := DecideOne(cfg, c, allowed, items[0], d0);
      assert d1.included == d0.included || d1.included == d0.included + [items[0]];
      if d1.stopped || d1.outOfBounds {
        assert d == d1;
        assert forall it :: Added(d0, d, it) ==> it == items[0];
        assert d.stopped ==> items[0] == d.included[|d.included| - 1];
        assert d1.included == d0.included + [items[0]] ==> Added(d0, d, items[0]);
      } else {
        DecideHolds(cfg, c, allowed, items[1..], d1);
        assert d == Decide(cfg, c, allowed, items[1..], d1);
        DecideStep(cfg, c, allowed, items, d0, d1, d);
      }
    }
  }

  lemma DecideStep(cfg: Config, c: Col, allowed: bool, items: seq<Item>, d0: Decision, d1: Decision, d: Decision)
    requires items != [] && !d0.stopped && !d0.outOfBounds && !d1.stopped && !d1.outOfBounds
    requires d1 == DecideOne(cfg, c, allowed, items[0], d0)
    requires DecideFacts(cfg, c, allowed, items[1..], d1, d)
    ensures DecideFacts(cfg, c, allowed, items, d0, d)
  {
    assert d0.included <= d1.included <= d.included;
    assert items[0].id in d1.walked;
    forall it ensures Added(d0, d, it) <==> Added(d1, d, it) || (|d1.included| > |d0.included| && it == items[0]) {
      assert d.included[|d0.included|..] == d1.included[|d0.included|..] + d.included[|d1.included|..];
    }
    forall it | it in items[1..] ensures it in items {}
    assert items == [items[0]] + items[1..];
    if d.stopped { StopStep(items, d); }
  }

  /** Where the tail of a page stops, the page stops one further. */
  lemma StopStep(items: seq<Item>, d: Decision)
    requires items != [] && d.included != [] && items[0].id in d.walked
    requires exists n :: 0 <= n < |items[1..]| && items[1..][n] == d.included[|d.included| - 1]
                         && forall m | 0 <= m <= n :: items[1..][m].id in d.walked
    ensures exists n :: 0 <= n < |items| && items[n] == d.included[|d.included| - 1]
                        && forall m | 0 <= m <= n :: items[m].id in d.walked
  {
    var n :| 0 <= n < |items[1..]| && items[1..][n] == d.included[|d.included| - 1]
             && forall m | 0 <= m <= n :: items[1..][m].id in d.walked;
    assert items[n + 1] == d.included[|d.included| - 1];
    forall m | 0 <= m <= n + 1 ensures items[m].id in d.walked {
      if m > 0 { assert items[m] == items[1..][m - 1]; }
    }
  }

  // -------------------------------------------------------- one page's archives

  predicate Landed(done: seq<Archived>, e: nat) {
    exists a | a in done :: a.item.id == e && a.status.Some?
  }

  lemma {:induction false} LandFacts(c: Col, done: seq<Archived>)
    ensures
      var c' := ApplyAll(c, Archives(done));
      && c'.complete == c.complete && c'.settled == c.settled
      && (forall e :: e in c'.elems <==> e in c.elems || Landed(done, e))
      && (forall e | e in c.elems && !Landed(done, e) :: c'.elems[e] == c.elems[e])
      && (forall e | Landed(done, e) :: exists a | a in done :: a.item.id == e && a.status.Some?
                                          && c'.elems[e] == Note(a.status.value, a.item.terminal))
  {
    if done != [] {
      var init, last := done[..|done| - 1], done[|done| - 1];
      LandFacts(c, init);
      assert Archives(done) == Archives(init) + [Archive(last)];
      ApplyAllSnoc(c, Archives(init), Archive(last));
      assert done == init + [last];
      forall e ensures Landed(done, e) <==> Landed(init, e) || (last.item.id == e && last.status.Some?) {
        if last.item.id == e && last.status.Some? { assert last in done; }
        if Landed(init, e) {
          var a :| a in init && a.item.id == e && a.status.Some?;
          assert a in done;
        }
      }
    } else {
      assert Archives(done) == [];
    }
  }

  lemma {:induction false} LandGood(c: Col, done: seq<Archived>)
    requires forall a | a in done ::
               (c.settled ==> a.item.id in c.elems && a.item.terminal) && (a.status.Some? ==> !a.status.value.IsGate())
    ensures GoodTrace(c, Archives(done))
    decreases |done|
  {
    if done != [] {
      var c' := Apply(c, Archive(done[0]));
      assert done[0] in done && forall a | a in done[1..] :: a in done;
      LandGood(c', done[1..]);
      assert Archives(done)[1..] == Archives(done[1..]);
    }
  }

  // ------------------------------------------------------------ across pages

  /** What holds whenever a walk that began in state `c0` asks for a page. */
  ghost predicate WalkInv(c0: Col, allowed: bool, c: Col, w: Progress, reach: Option<Reach>) {
    && Sound(c0) && Sound(c) && (allowed ==> c0.settled)
    && c.complete == c0.complete
    && (!w.unsettled ==> c.settled == c0.settled && c.elems.Keys == c0.elems.Keys)
    && (w.unsettled ==> !c.settled)
    && c0.elems.Keys <= c.elems.Keys
    && (forall e | e in c.elems && e !in w.walked :: e in c0.elems && c.elems[e] == c0.elems[e])
    && (!w.sawNonTerminal ==> forall e | e in w.walked :: e in c.elems && c.elems[e].terminal)
    && (reach.None? ==> w.walked == {})
    && (reach.Some? ==>
          && (forall e | reach.value.low <= e <= reach.value.high :: e in w.walked)
          && (forall e | e in w.walked || e in c0.elems :: e <= reach.value.high))
  }

  /** The state once a page's archives landed. */
  function Landing(c: Col, d: Decision, unsettled: bool, page: Fetch): Col
    requires page.Page?
  {
    ApplyAll(c, Withdrawal(c, d, unsettled) + Archives(page.archives))
  }

  ghost predicate Unmet(w: Progress, page: Fetch)
    requires page.Page?
  {
    forall it | it in page.items :: it.id !in w.walked
  }

  /** The newest element the page or the walk so far has met bounds everything. */
  ghost predicate FirstFits(c0: Col, reach: Option<Reach>, page: Fetch)
    requires page.Page?
  {
    reach.None? ==> forall e | e in c0.elems :: page.items != [] && e <= page.items[0].id
  }

  ghost predicate PageMet(cfg: Config, c0: Col, allowed: bool, c: Col, w: Progress, reach: Option<Reach>, page: Fetch)
  {
    && page.Page?
    && WalkInv(c0, allowed, c, w, reach)
    && PageFits(page, reach) && FirstFits(c0, reach, page)
    && ArchivesFit(DecidePage(cfg, c, allowed, page.items, w), page)
  }

  /** A landed element was included in the page, and already recorded when the
      page mutates nothing. */
  lemma LandedIncluded(cfg: Config, c0: Col, allowed: bool, c: Col, w: Progress, reach: Option<Reach>, page: Fetch)
    requires PageMet(cfg, c0, allowed, c, w, reach, page)
    ensures
      var d := DecidePage(cfg, c, allowed, page.items, w);
      forall a | a in page.archives ::
        && a.item.id in d.walked
        && (!d.sawNonTerminal ==> a.item.terminal)
        && (!d.mutates ==> a.item.id in c.elems && a.item.terminal)
  {
    var d := DecidePage(cfg, c, allowed, page.items, w);
    var d0 := Decision(w.walked, w.listed, w.sawNonTerminal, [], false, false, false);
    DecideHolds(cfg, c, allowed, page.items, d0);
    forall a | a in page.archives ensures Added(d0, d, a.item) {
      assert d.included[0..] == d.included;
    }
  }

  /** Withdrawing settlement first makes every archive of the page harmless. */
  lemma LandingGood(cfg: Config, c0: Col, allowed: bool, c: Col, w: Progress, reach: Option<Reach>, page: Fetch)
    requires PageMet(cfg, c0, allowed, c, w, reach, page)
    ensures
      var d := DecidePage(cfg, c, allowed, page.items, w);
      var c2 := Landing(c, d, w.unsettled, page);
      && GoodTrace(c, Withdrawal(c, d, w.unsettled) + Archives(page.archives))
      && Sound(c2)
      && c2.complete == c.complete
      && (w.unsettled || d.mutates ==> !c2.settled)
      && (!w.unsettled && !d.mutates ==> c2.settled == c.settled)
  {
    var d := DecidePage(cfg, c, allowed, page.items, w);
    LandedIncluded(cfg, c0, allowed, c, w, reach, page);
    var pre := Withdrawal(c, d, w.unsettled);
    var c1 := ApplyAll(c, pre);
    Unroll(c, pre);
    assert GoodTrace(c, pre) by { if pre != [] { assert pre[1..] == []; } }
    LandGood(c1, page.archives);
    LandFacts(c1, page.archives);
    GoodTraceConcat(c, pre, Archives(page.archives));
    ApplyAllConcat(c, pre, Archives(page.archives));
    GoodTraceSound(c, pre + Archives(page.archives));
  }

  lemma LandingElems(cfg: Config, c0: Col, allowed: bool, c: Col, w: Progress, reach: Option<Reach>, page: Fetch)
    requires PageMet(cfg, c0, allowed, c, w, reach, page)
    ensures
      var d := DecidePage(cfg, c, allowed, page.items, w);
      var c2 := Landing(c, d, w.unsettled, page);
      && (!w.unsettled && !d.mutates ==> c2.elems.Keys == c.elems.Keys)
      && (forall e :: e in c2.elems <==> e in c.elems || Landed(page.archives, e))
      && (forall e | e in c.elems && !Landed(page.archives, e) :: c2.elems[e] == c.elems[e])
      && (forall e | Landed(page.archives, e) :: e in d.walked && (!d.sawNonTerminal ==> c2.elems[e].terminal))
  {
    var d := DecidePage(cfg, c, allowed, page.items, w);
    LandedIncluded(cfg, c0, allowed, c, w, reach, page);
    var pre := Withdrawal(c, d, w.unsettled);
    Unroll(c, pre);
    LandFacts(ApplyAll(c, pre), page.archives);
    ApplyAllConcat(c, pre, Archives(page.archives));
    assert ApplyAll(c, pre).elems == c.elems;
  }

  /** Every element the walk has met is recorded terminal, once all of a page's
      archives landed and no element was seen still running. */
  lemma WalkedRecorded(cfg: Config, c0: Col, allowed: bool, c: Col, w: Progress, reach: Option<Reach>, page: Fetch)
    requires PageMet(cfg, c0, allowed, c, w, reach, page) && !page.aborted
    ensures
      var d := DecidePage(cfg, c, allowed, page.items, w);
      var c2 := Landing(c, d, w.unsettled, page);
      && (!d.sawNonTerminal ==> forall e | e in d.walked :: e in c2.elems && c2.elems[e].terminal)
      && (forall e | e in c2.elems && e !in d.walked :: e in c0.elems && c2.elems[e] == c0.elems[e])
  {
    LandingElems(cfg, c0, allowed, c, w, reach, page);
    var d := DecidePage(cfg, c, allowed, page.items, w);
    var d0 := Decision(w.walked, w.listed, w.sawNonTerminal, [], false, false, false);
    DecideHolds(cfg, c, allowed, page.items, d0);
    if !d.sawNonTerminal {
      forall e | e in d.walked ensures Landed(page.archives, e) || e in w.walked {
        if e !in w.walked {
          var it :| Added(d0, d, it) && it.id == e;
          assert it in d.included && it.terminal;
          var a :| a in page.archives && a.item == it;
          assert a.status.Some?;
        }
      }
    }
  }

  /** The reach grows with the page, and everything in it has been walked. */
  lemma ReachGrows(cfg: Config, c0: Col, allowed: bool, c: Col, w: Progress, reach: Option<Reach>, page: Fetch)
    requires PageMet(cfg, c0, allowed, c, w, reach, page) && page.items != []
    ensures
      var d := DecidePage(cfg, c, allowed, page.items, w);
      var next := NextReach(page, reach).value;
      && (forall e | e in d.walked || e in c0.elems :: e <= next.high)
      && (forall n | 0 <= n < |page.items| && (forall m | 0 <= m <= n :: page.items[m].id in d.walked) ::
            forall e | page.items[n].id <= e <= next.high :: e in d.walked)
  {
    var d := DecidePage(cfg, c, allowed, page.items, w);
    var d0 := Decision(w.walked, w.listed, w.sawNonTerminal, [], false, false, false);
    DecideHolds(cfg, c, allowed, page.items, d0);
    var next := NextReach(page, reach).value;
    forall e | e in d.walked ensures e <= next.high {
      if e !in w.walked {
        var it :| Added(d0, d, it) && it.id == e;
        var i :| 0 <= i < |page.items| && page.items[i] == it;
      }
    }
    forall n, e | 0 <= n < |page.items| && (forall m | 0 <= m <= n :: page.items[m].id in d.walked)
                  && page.items[n].id <= e <= next.high
      ensures e in d.walked
    {
      if e <= page.items[0].id {
        var i := page.items[0].id - e;
        assert page.items[n].id == page.items[0].id - n;
        assert page.items[i].id == e && i <= n;
      } else {
        assert reach.Some? && reach.value.low <= e <= reach.value.high;
      }
    }
  }

  /** The end of the listing closes the collection. */
  lemma ListingEndCloses(cfg: Config, c0: Col, allowed: bool, c: Col, w: Progress, reach: Option<Reach>, page: Fetch)
    requires PageMet(cfg, c0, allowed, c, w, reach, page) && !page.aborted
    requires
      var d := DecidePage(cfg, c, allowed, page.items, w);
      !d.stopped && !d.outOfBounds && !d.sawNonTerminal
    requires page.items == [] || !page.hasNext
    ensures Closed(Landing(c, DecidePage(cfg, c, allowed, page.items, w), w.unsettled, page))
  {
    WalkedRecorded(cfg, c0, allowed, c, w, reach, page);
    hide Decide, PageMet, Landing, Closed;
    var c2 := Landing(c, DecidePage(cfg, c, allowed, page.items, w), w.unsettled, page);
    if page.items != [] {
      LastPageWalked(cfg, c0, allowed, c, w, reach, page);
      AllWalkedCloses(c0, c2, DecidePage(cfg, c, allowed, page.items, w).walked, NextReach(page, reach).value.high);
    } else {
      EmptyPageCloses(cfg, c0, allowed, c, w, reach, page, c2);
    }
  }

  /** A last page reaches the oldest element. */
  lemma LastPageWalked(cfg: Config, c0: Col, allowed: bool, c: Col, w: Progress, reach: Option<Reach>, page: Fetch)
    requires PageMet(cfg, c0, allowed, c, w, reach, page) && page.items != [] && !page.hasNext
    requires
      var d := DecidePage(cfg, c, allowed, page.items, w);
      !d.stopped && !d.outOfBounds
    ensures
      var d, high := DecidePage(cfg, c, allowed, page.items, w), NextReach(page, reach).value.high;
      && (forall e | 0 <= e <= high :: e in d.walked)
      && (forall e | e in d.walked || e in c0.elems :: e <= high)
  {
    ReachGrows(cfg, c0, allowed, c, w, reach, page);
    var d0 := Decision(w.walked, w.listed, w.sawNonTerminal, [], false, false, false);
    DecideHolds(cfg, c, allowed, page.items, d0);
    hide Decide;
    var d, n := DecidePage(cfg, c, allowed, page.items, w), |page.items| - 1;
    forall m | 0 <= m <= n ensures page.items[m].id in d.walked {
      assert page.items[m] in page.items;
    }
    assert page.items[n].id == 0;
  }

  /** An empty page comes only once the listing ran out. */
  lemma EmptyPageCloses(cfg: Config, c0: Col, allowed: bool, c: Col, w: Progress, reach: Option<Reach>, page: Fetch, c2: Col)
    requires PageMet(cfg, c0, allowed, c, w, reach, page) && page.items == []
    requires
      var d := DecidePage(cfg, c, allowed, page.items, w);
      && (forall e | e in d.walked :: e in c2.elems && c2.elems[e].terminal)
      && (forall e | e in c2.elems && e !in d.walked :: e in c0.elems && c2.elems[e] == c0.elems[e])
    ensures Closed(c2)
  {
    assert DecidePage(cfg, c, allowed, page.items, w).walked == w.walked;
    hide Decide;
    if reach.Some? {
      AllWalkedCloses(c0, c2, w.walked, reach.value.high);
    } else {
      assert c0.elems == map[];
      assert c2.elems == map[];
    }
  }

  lemma AllWalkedCloses(c0: Col, c2: Col, walked: set<nat>, high: nat)
    requires forall e | 0 <= e <= high :: e in walked
    requires forall e | e in walked || e in c0.elems :: e <= high
    requires forall e | e in walked :: e in c2.elems && c2.elems[e].terminal
    requires forall e | e in c2.elems && e !in walked :: e in c0.elems
    ensures Closed(c2)
  {
    forall e, f | e in c2.elems && 0 <= f < e ensures f in c2.elems {
      assert f in walked;
    }
    forall e | e in c2.elems ensures e in walked {}
  }

  /** An early stop fires on an element recorded before this walk began, unless
      the walk itself had just recorded it. */
  lemma BoundaryIsOld(cfg: Config, c0: Col, allowed: bool, c: Col, w: Progress, reach: Option<Reach>, page: Fetch)
    returns (n: nat)
    requires PageMet(cfg, c0, allowed, c, w, reach, page)
    requires DecidePage(cfg, c, allowed, page.items, w).stopped
    requires cfg.historyCount > 0 || !allowed || Unmet(w, page)
    ensures
      var d := DecidePage(cfg, c, allowed, page.items, w);
      && d.included != [] && !d.sawNonTerminal && allowed
      && n < |page.items| && page.items[n] == d.included[|d.included| - 1]
      && page.items[n].id in c0.elems
      && forall m | 0 <= m <= n :: page.items[m].id in d.walked
  {
    hide PageFits, FirstFits, ArchivesFit, WalkInv, Decide, DecideFacts;
    var d := DecidePage(cfg, c, allowed, page.items, w);
    var d0 := Decision(w.walked, w.listed, w.sawNonTerminal, [], false, false, false);
    DecideHolds(cfg, c, allowed, page.items, d0);
    n := StoppedAt(cfg, c, allowed, page.items, d0, d);
    assert page.items[n] in page.items;
    OldIfUnwalked(c0, allowed, c, w, reach, page.items[n].id);
  }

  lemma StoppedAt(cfg: Config, c: Col, allowed: bool, items: seq<Item>, d0: Decision, d: Decision) returns (n: nat)
    requires DecideFacts(cfg, c, allowed, items, d0, d) && d.stopped && d0.included == []
    ensures d.included != [] && !d.sawNonTerminal && allowed
    ensures n < |items| && items[n] == d.included[|d.included| - 1] && items[n].id in c.elems
    ensures forall m | 0 <= m <= n :: items[m].id in d.walked
    ensures cfg.historyCount > 0 ==> items[n].id !in d0.walked
  {
    n :| 0 <= n < |items| && items[n] == d.included[|d.included| - 1] && forall m | 0 <= m <= n :: items[m].id in d.walked;
  }

  lemma OldIfUnwalked(c0: Col, allowed: bool, c: Col, w: Progress, reach: Option<Reach>, e: nat)
    requires WalkInv(c0, allowed, c, w, reach) && e in c.elems && e !in w.walked
    ensures e in c0.elems
  {
  }

  /** An early stop on an element this walk had not met closes the collection,
      and leaves everything at or below its boundary recorded. */
  lemma EarlyStopCloses(cfg: Config, c0: Col, allowed: bool, c: Col, w: Progress, reach: Option<Reach>, page: Fetch)
    requires PageMet(cfg, c0, allowed, c, w, reach, page) && !page.aborted
    requires DecidePage(cfg, c, allowed, page.items, w).stopped
    requires cfg.historyCount > 0 || !allowed || Unmet(w, page)
    ensures
      var d := DecidePage(cfg, c, allowed, page.items, w);
      var c2 := Landing(c, d, w.unsettled, page);
      && d.included != []
      && Closed(c2) && c2.complete
      && (forall e | 0 <= e <= d.included[|d.included| - 1].id :: e in c2.elems && c2.elems[e].terminal)
  {
    WalkedRecorded(cfg, c0, allowed, c, w, reach, page);
    var n := BoundaryIsOld(cfg, c0, allowed, c, w, reach, page);
    ReachGrows(cfg, c0, allowed, c, w, reach, page);
    LandingGood(cfg, c0, allowed, c, w, reach, page);
    LandingElems(cfg, c0, allowed, c, w, reach, page);
    var d := DecidePage(cfg, c, allowed, page.items, w);
    var c2 := Landing(c, d, w.unsettled, page);
    StopCloses(c0, c2, d.walked, page.items[n].id, NextReach(page, reach).value.high);
  }

  lemma StopCloses(c0: Col, c2: Col, walked: set<nat>, b: nat, high: nat)
    requires Closed(c0) && b in c0.elems
    requires forall e | b <= e <= high :: e in walked
    requires forall e | e in walked || e in c0.elems :: e <= high
    requires forall e | e in walked :: e in c2.elems && c2.elems[e].terminal
    requires forall e | e in c2.elems && e !in walked :: e in c0.elems && c2.elems[e] == c0.elems[e]
    requires forall e | e in c0.elems :: e in c2.elems
    ensures Closed(c2) && b <= high && forall e | 0 <= e <= high :: e in c2.elems && c2.elems[e].terminal
  {
    forall e | 0 <= e <= high ensures e in c2.elems && c2.elems[e].terminal {
      if e < b && e !in walked {
        assert e in c0.elems && c0.elems[e].terminal;
      }
    }
    forall e | e in c2.elems ensures e <= high {}
  }

  /** One page keeps the discipline, and hands the next one its invariant. */
  lemma PageGood(cfg: Config, retryAbsent: bool, c0: Col, allowed: bool, c: Col, w: Progress, reach: Option<Reach>,
                 page: Fetch)
    requires PageMet(cfg, c0, allowed, c, w, reach, page)
    requires cfg.historyCount > 0 || !allowed || Unmet(w, page)
    ensures GoodTrace(c, PageOps(cfg, retryAbsent, allowed, c, w, page))
    ensures PageVerdict(cfg, retryAbsent, allowed, c, w, page).None? ==>
              WalkInv(c0, allowed, ApplyAll(c, PageOps(cfg, retryAbsent, allowed, c, w, page)),
                      NextProgress(cfg, allowed, c, w, page), NextReach(page, reach))
  {
    hide GoodTrace, Decide, PageEnd, Unmet, WalkInv, NextReach, PageFits, FirstFits, ArchivesFit;
    LandingGood(cfg, c0, allowed, c, w, reach, page);
    if !page.aborted {
      var d := DecidePage(cfg, c, allowed, page.items, w);
      var ops := Withdrawal(c, d, w.unsettled) + Archives(page.archives);
      var end := PageEnd(Landing(c, d, w.unsettled, page), retryAbsent, d, w.unsettled || d.mutates, page);
      PageEndGood(cfg, retryAbsent, c0, allowed, c, w, reach, page);
      GoodTraceConcat(c, ops, end.0);
      if end.1.None? {
        PageGoesOn(cfg, retryAbsent, c0, allowed, c, w, reach, page);
        assert ops + end.0 == ops;
      }
    }
  }

  /** What ends a page, or nothing, keeps the discipline. */
  lemma PageEndGood(cfg: Config, retryAbsent: bool, c0: Col, allowed: bool, c: Col, w: Progress, reach: Option<Reach>,
                    page: Fetch)
    requires PageMet(cfg, c0, allowed, c, w, reach, page) && !page.aborted
    requires cfg.historyCount > 0 || !allowed || Unmet(w, page)
    ensures
      var d := DecidePage(cfg, c, allowed, page.items, w);
      var c2 := Landing(c, d, w.unsettled, page);
      GoodTrace(c2, PageEnd(c2, retryAbsent, d, w.unsettled || d.mutates, page).0)
  {
    LandingGood(cfg, c0, allowed, c, w, reach, page);
    hide GoodTrace, Decide, Unmet, WalkInv, PageFits, FirstFits, ArchivesFit, Closed;
    var d := DecidePage(cfg, c, allowed, page.items, w);
    var c2 := Landing(c, d, w.unsettled, page);
    var end := PageEnd(c2, retryAbsent, d, w.unsettled || d.mutates, page);
    if d.stopped {
      EarlyStopCloses(cfg, c0, allowed, c, w, reach, page);
    } else if page.items == [] || (!d.outOfBounds && !page.hasNext) {
      NotBounded(cfg, c, allowed, page.items, w);
      if !d.sawNonTerminal { ListingEndCloses(cfg, c0, allowed, c, w, reach, page); }
    }
    hide Landing, HasUnsettled;
    EndGood(c2, end.0);
  }

  /** A decision over nothing goes out of no bound. */
  lemma NotBounded(cfg: Config, c: Col, allowed: bool, items: seq<Item>, w: Progress)
    ensures items == [] ==> !DecidePage(cfg, c, allowed, items, w).outOfBounds
  {
  }

  lemma PageGoesOn(cfg: Config, retryAbsent: bool, c0: Col, allowed: bool, c: Col, w: Progress, reach: Option<Reach>,
                   page: Fetch)
    requires PageMet(cfg, c0, allowed, c, w, reach, page) && !page.aborted
    requires
      var d := DecidePage(cfg, c, allowed, page.items, w);
      PageEnd(Landing(c, d, w.unsettled, page), retryAbsent, d, w.unsettled || d.mutates, page).1.None?
    ensures WalkInv(c0, allowed, Landing(c, DecidePage(cfg, c, allowed, page.items, w), w.unsettled, page),
                    NextProgress(cfg, allowed, c, w, page), NextReach(page, reach))
  {
    hide Decide, WalkInv, PageFits, FirstFits, ArchivesFit, Landing, NextReach, HasUnsettled;
    PageInv(cfg, c0, allowed, c, w, reach, page);
  }

  lemma PageInv(cfg: Config, c0: Col, allowed: bool, c: Col, w: Progress, reach: Option<Reach>, page: Fetch)
    requires PageMet(cfg, c0, allowed, c, w, reach, page) && !page.aborted && page.items != []
    requires
      var d := DecidePage(cfg, c, allowed, page.items, w);
      !d.stopped && !d.outOfBounds
    ensures WalkInv(c0, allowed, Landing(c, DecidePage(cfg, c, allowed, page.items, w), w.unsettled, page),
                    NextProgress(cfg, allowed, c, w, page), NextReach(page, reach))
  {
    LandingGood(cfg, c0, allowed, c, w, reach, page);
    LandingElems(cfg, c0, allowed, c, w, reach, page);
    WalkedRecorded(cfg, c0, allowed, c, w, reach, page);
    ReachGrows(cfg, c0, allowed, c, w, reach, page);
    var d := DecidePage(cfg, c, allowed, page.items, w);
    var d0 := Decision(w.walked, w.listed, w.sawNonTerminal, [], false, false, false);
    DecideHolds(cfg, c, allowed, page.items, d0);
    var n := |page.items| - 1;
    forall m | 0 <= m <= n ensures page.items[m].id in d.walked {
      assert page.items[m] in page.items;
    }
  }

  lemma EndGood(c: Col, ops: seq<Op>)
    requires ops == [] || (|ops| == 1 && OpOk(c, ops[0]))
             || (|ops| == 2 && ops[0] == MarkComplete && ops[1].SetSettled? && (ops[1].value ==> Closed(c)))
    ensures GoodTrace(c, ops)
  {
    if |ops| == 1 {
      assert ops[1..] == [];
    } else if |ops| == 2 {
      var c1 := Apply(c, ops[0]);
      assert ops[1..][0] == ops[1] && ops[1..][1..] == [];
      assert c1.elems == c.elems;
      assert GoodTrace(c1, ops[1..]);
    }
  }

  /** The whole walk keeps the discipline. */
  lemma {:induction false} WalkGoodFrom(cfg: Config, retryAbsent: bool, c0: Col, allowed: bool, c: Col, w: Progress,
                                        reach: Option<Reach>, script: seq<Fetch>)
    requires WalkInv(c0, allowed, c, w, reach)
    requires FitsFrom(cfg, retryAbsent, allowed, c, w, reach, script)
    requires script != [] && script[0].Page? ==> FirstFits(c0, reach, script[0])
    requires cfg.historyCount > 0 || !allowed ||
             (ServedOnce(script) && forall i | 0 <= i < |script| && script[i].Page? :: Unmet(w, script[i]))
    ensures GoodTrace(c, WalkFrom(cfg, retryAbsent, allowed, c, w, script).ops)
    decreases |script|
  {
    if script != [] && script[0].Page? {
      var page := script[0];
      PageGood(cfg, retryAbsent, c0, allowed, c, w, reach, page);
      var ops := PageOps(cfg, retryAbsent, allowed, c, w, page);
      var rest := AfterPage(cfg, retryAbsent, allowed, c, w, script);
      if PageVerdict(cfg, retryAbsent, allowed, c, w, page).Some? {
        assert ops + [] == ops;
      } else {
        var next := NextProgress(cfg, allowed, c, w, page);
        NextUnmet(cfg, retryAbsent, allowed, c, w, script);
        WalkGoodFrom(cfg, retryAbsent, c0, allowed, ApplyAll(c, ops), next, NextReach(page, reach), script[1..]);
        GoodTraceConcat(c, ops, rest.ops);
      }
    }
  }

  lemma NextUnmet(cfg: Config, retryAbsent: bool, allowed: bool, c: Col, w: Progress, script: seq<Fetch>)
    requires script != [] && script[0].Page?
    ensures
      ServedOnce(script) && (forall i | 0 <= i < |script| && script[i].Page? :: Unmet(w, script[i])) ==>
        && ServedOnce(script[1..])
        && forall i | 0 <= i < |script[1..]| && script[1..][i].Page? ::
             Unmet(NextProgress(cfg, allowed, c, w, script[0]), script[1..][i])
  {
    var d0 := Decision(w.walked, w.listed, w.sawNonTerminal, [], false, false, false);
    var d := DecidePage(cfg, c, allowed, script[0].items, w);
    DecideHolds(cfg, c, allowed, script[0].items, d0);
    if ServedOnce(script) && (forall i | 0 <= i < |script| && script[i].Page? :: Unmet(w, script[i])) {
      forall i, it | 0 <= i < |script[1..]| && script[1..][i].Page? && it in script[1..][i].items
        ensures it.id !in d.walked
      {
        assert script[1..][i] == script[i + 1];
        assert Unmet(w, script[i + 1]);
      }
    }
  }

  /** A walk that is count-bounded, or that starts with the early stop disallowed,
      or whose pager serves no element twice, keeps the discipline. */
  lemma WalkGood(cfg: Config, retryAbsent: bool, c: Col, script: seq<Fetch>)
    requires Sound(c) && Fits(cfg, retryAbsent, c, script)
    requires cfg.historyCount > 0 || !StopAllowed(c, retryAbsent) || ServedOnce(script)
    ensures GoodTrace(c, WalkRun(cfg, retryAbsent, c, script).ops)
  {
    WalkGoodFrom(cfg, retryAbsent, c, StopAllowed(c, retryAbsent), c, START, None, script);
  }

  // ------------------------------------- exactly which walks are safe to rerun

  lemma {:induction false} AlwaysSoundEnd(c: Col, ops: seq<Op>)
    requires AlwaysSound(c, ops)
    ensures Sound(ApplyAll(c, ops))
    decreases |ops|
  {
    if ops != [] { AlwaysSoundEnd(Apply(c, ops[0]), ops[1..]); }
  }

  function Shown(cfg: Config, id: nat): Item {
    Item(id, if cfg.historyOldest.Some? then cfg.historyOldest.value else 0, true)
  }

  function Fetched(cfg: Config, id: nat): Archived {
    Archived(Shown(cfg, id), Some(Done), map[])
  }

  /** Nothing from `n` on is recorded yet, and three more were created.  The first
      page lists the two newest, a further element is created, and the second page
      opens on the older of them again. */
  function ShiftedListing(cfg: Config, n: nat): seq<Fetch> {
    [Page([Shown(cfg, n + 2), Shown(cfg, n + 1)], true, [Fetched(cfg, n + 2), Fetched(cfg, n + 1)], false),
     Page([Shown(cfg, n + 1), Shown(cfg, n)], true, [Fetched(cfg, n + 1)], false)]
  }

  ghost predicate NoneFrom(c: Col, n: nat) {
    forall e | e in c.elems :: e < n
  }

  lemma {:induction false} NewerThanAll(s: set<nat>) returns (n: nat)
    ensures forall e | e in s :: e < n
  {
    if s == {} {
      n := 0;
    } else {
      var e :| e in s;
      var m := NewerThanAll(s - {e});
      n := if m <= e then e + 1 else m;
      forall x | x in s ensures x < n { assert x == e || x in s - {e}; }
    }
  }

  /** The state between the two pages. */
  function Shifted(c: Col, n: nat): Col {
    c.(elems := c.elems[n + 2 := Note(Done, true)][n + 1 := Note(Done, true)], settled := false)
  }

  /** The first page archives both behind a withdrawn settlement. */
  lemma ShiftedFirstPage(cfg: Config, retryAbsent: bool, c: Col, n: nat)
    requires cfg.historyCount <= 0 && StopAllowed(c, retryAbsent) && NoneFrom(c, n)
    ensures
      var page := ShiftedListing(cfg, n)[0];
      && DecidePage(cfg, c, true, page.items, START)
         == Decision({n + 2, n + 1}, 2, false, page.items, true, false, false)
      && PageOps(cfg, retryAbsent, true, c, START, page)
         == [SetSettled(false), Archive(Fetched(cfg, n + 2)), Archive(Fetched(cfg, n + 1))]
      && PageVerdict(cfg, retryAbsent, true, c, START, page).None?
      && ApplyAll(c, PageOps(cfg, retryAbsent, true, c, START, page)) == Shifted(c, n)
  {
    var page := ShiftedListing(cfg, n)[0];
    var d0 := Decision({}, 0, false, [], false, false, false);
    var d1 := DecideOne(cfg, c, true, page.items[0], d0);
    assert d1 == Decision({n + 2}, 1, false, [Shown(cfg, n + 2)], true, false, false);
    var d2 := DecideOne(cfg, c, true, page.items[1], d1);
    assert page.items[1..][0] == page.items[1] && page.items[1..][1..] == [];
    assert Decide(cfg, c, true, page.items, d0) == Decide(cfg, c, true, page.items[1..], d1) == d2;
    assert d2.walked == {n + 2, n + 1} && d2.included == page.items;
    var ops := [SetSettled(false), Archive(Fetched(cfg, n + 2)), Archive(Fetched(cfg, n + 1))];
    assert Withdrawal(c, d2, false) + Archives(page.archives) == ops;
    Three(c, ops);
    assert c.kids + map[] == c.kids;
    assert ops + [] == ops;
  }

  lemma Three(c: Col, ops: seq<Op>)
    requires |ops| == 3
    ensures ApplyAll(c, ops) == Apply(Apply(Apply(c, ops[0]), ops[1]), ops[2])
  {
    Unroll(Apply(c, ops[0]), ops[1..]);
  }

  /** The second page stops on an element recorded a moment ago, and settles the
      collection over the gap beneath it. */
  lemma ShiftedSecondPage(cfg: Config, retryAbsent: bool, c: Col, n: nat)
    requires cfg.historyCount <= 0 && StopAllowed(c, retryAbsent) && NoneFrom(c, n)
    ensures
      var page := ShiftedListing(cfg, n)[1];
      var w := Progress({n + 2, n + 1}, 2, false, true);
      var x := Shifted(c, n);
      && PageVerdict(cfg, retryAbsent, true, x, w, page) == Some(EarlyStop(n + 1))
      && DecidePage(cfg, x, true, page.items, w).included == [Shown(cfg, n + 1)]
      && PageOps(cfg, retryAbsent, true, x, w, page) == [Archive(Fetched(cfg, n + 1)), SetSettled(true)]
      && ApplyAll(x, PageOps(cfg, retryAbsent, true, x, w, page)) == x.(settled := true)
  {
    var page, x := ShiftedListing(cfg, n)[1], Shifted(c, n);
    var w := Progress({n + 2, n + 1}, 2, false, true);
    var d0 := Decision(w.walked, w.listed, w.sawNonTerminal, [], false, false, false);
    var d1 := DecideOne(cfg, x, true, page.items[0], d0);
    assert Frozen(x, page.items[0]);
    assert d1.stopped && d1.included == [Shown(cfg, n + 1)];
    assert Decide(cfg, x, true, page.items, d0) == Decide(cfg, x, true, page.items[1..], d1) == d1;
    var again := [Archive(Fetched(cfg, n + 1))];
    assert Archives(page.archives) == again && Withdrawal(x, d1, true) + Archives(page.archives) == again;
    Unroll(x, again);
    assert x.elems[n + 1 := Note(Done, true)] == x.elems && x.kids + map[] == x.kids;
    ShiftedIsSettled(c, n, retryAbsent);
    assert PageEnd(x, retryAbsent, d1, true, page) == ([SetSettled(true)], Some(EarlyStop(n + 1)));
    assert again + [SetSettled(true)] == [Archive(Fetched(cfg, n + 1)), SetSettled(true)];
    Unroll(x, again + [SetSettled(true)]);
  }

  lemma ShiftedIsSettled(c: Col, n: nat, retryAbsent: bool)
    requires !HasUnsettled(c, retryAbsent) && NoneFrom(c, n)
    ensures !HasUnsettled(Shifted(c, n), retryAbsent)
  {
    var x := Shifted(c, n);
    forall e | e in x.elems ensures !Open(x.elems[e].status, retryAbsent) {
      if e != n + 1 && e != n + 2 { assert e in c.elems; }
    }
  }

  /** Whatever state allows the early stop, a walk that is not count-bounded can
      strand an element: a page re-lists one it has just archived. */
  lemma RelistedElementStrands(cfg: Config, retryAbsent: bool, c: Col, n: nat)
    requires cfg.historyCount <= 0 && StopAllowed(c, retryAbsent) && NoneFrom(c, n)
    ensures Fits(cfg, retryAbsent, c, ShiftedListing(cfg, n))
    ensures
      var run := WalkRun(cfg, retryAbsent, c, ShiftedListing(cfg, n));
      var end := ApplyAll(c, run.ops);
      run.end == EarlyStop(n + 1) && end.settled && n + 1 in end.elems && n !in end.elems && !AlwaysSound(c, run.ops)
  {
    var script := ShiftedListing(cfg, n);
    ShiftedFirstPage(cfg, retryAbsent, c, n);
    ShiftedSecondPage(cfg, retryAbsent, c, n);
    var ops1, x := PageOps(cfg, retryAbsent, true, c, START, script[0]), Shifted(c, n);
    var w1 := NextProgress(cfg, true, c, START, script[0]);
    assert w1 == Progress({n + 2, n + 1}, 2, false, true);
    assert script[1..][0] == script[1];
    var ops2 := PageOps(cfg, retryAbsent, true, x, w1, script[1]);
    assert WalkFrom(cfg, retryAbsent, true, x, w1, script[1..]) == Run(ops2, EarlyStop(n + 1));
    assert WalkRun(cfg, retryAbsent, c, script) == Run(ops1 + ops2, EarlyStop(n + 1));
    ApplyAllConcat(c, ops1, ops2);
    assert !Closed(x.(settled := true)) by { assert n + 1 in x.elems && n !in x.elems; }
    if AlwaysSound(c, ops1 + ops2) { AlwaysSoundEnd(c, ops1 + ops2); }
    ShiftedFits(cfg, retryAbsent, c, n);
  }

  lemma ShiftedPagesFit(cfg: Config, n: nat, d1: Decision, d2: Decision)
    requires d1.included == [Shown(cfg, n + 2), Shown(cfg, n + 1)] && d2.included == [Shown(cfg, n + 1)]
    ensures
      var script := ShiftedListing(cfg, n);
      && PageFits(script[0], None) && PageFits(script[1], NextReach(script[0], None))
      && ArchivesFit(d1, script[0]) && ArchivesFit(d2, script[1])
  {
    var script := ShiftedListing(cfg, n);
    assert script[0].archives[0] == Fetched(cfg, n + 2) && script[0].archives[1] == Fetched(cfg, n + 1);
    assert script[1].archives[0] == Fetched(cfg, n + 1);
    assert d1.included[0] == Shown(cfg, n + 2) && d1.included[1] == Shown(cfg, n + 1);
    assert d2.included[0] == Shown(cfg, n + 1);
  }

  lemma ShiftedFits(cfg: Config, retryAbsent: bool, c: Col, n: nat)
    requires cfg.historyCount <= 0 && StopAllowed(c, retryAbsent) && NoneFrom(c, n)
    ensures Fits(cfg, retryAbsent, c, ShiftedListing(cfg, n))
  {
    var script, x := ShiftedListing(cfg, n), Shifted(c, n);
    ShiftedFirstPage(cfg, retryAbsent, c, n);
    ShiftedSecondPage(cfg, retryAbsent, c, n);
    var w1 := NextProgress(cfg, true, c, START, script[0]);
    ShiftedPagesFit(cfg, n, DecidePage(cfg, c, true, script[0].items, START), DecidePage(cfg, x, true, script[1].items, w1));
    assert script[1..][0] == script[1];
    assert FitsFrom(cfg, retryAbsent, true, x, w1, NextReach(script[0], None), script[1..]);
    assert FitsFrom(cfg, retryAbsent, true, c, START, None, script);
  }

  /** From a sound state, every walk is safe exactly when it is count-bounded or
      starts with the early stop disallowed. */
  lemma WalkIsSafeIff(cfg: Config, retryAbsent: bool, c: Col)
    requires Sound(c)
    ensures WalkIsSafe(cfg, retryAbsent, c) <==> cfg.historyCount > 0 || !StopAllowed(c, retryAbsent)
  {
    if cfg.historyCount > 0 || !StopAllowed(c, retryAbsent) {
      forall script: seq<Fetch> | Fits(cfg, retryAbsent, c, script)
        ensures AlwaysSound(c, WalkRun(cfg, retryAbsent, c, script).ops)
      {
        WalkGood(cfg, retryAbsent, c, script);
        GoodTraceSound(c, WalkRun(cfg, retryAbsent, c, script).ops);
      }
    } else {
      var n := NewerThanAll(c.elems.Keys);
      RelistedElementStrands(cfg, retryAbsent, c, n);
    }
  }

  /** Everything at or below the boundary of an early stop is recorded, and was
      terminal when it was last archived. */
  lemma {:induction false} EarlyStopCovers(cfg: Config, retryAbsent: bool, c0: Col, allowed: bool, c: Col, w: Progress,
                                           reach: Option<Reach>, script: seq<Fetch>)
    requires WalkInv(c0, allowed, c, w, reach)
    requires FitsFrom(cfg, retryAbsent, allowed, c, w, reach, script)
    requires script != [] && script[0].Page? ==> FirstFits(c0, reach, script[0])
    requires cfg.historyCount > 0 || !allowed ||
             (ServedOnce(script) && forall i | 0 <= i < |script| && script[i].Page? :: Unmet(w, script[i]))
    ensures
      var run := WalkFrom(cfg, retryAbsent, allowed, c, w, script);
      run.end.EarlyStop? ==>
        var end := ApplyAll(c, run.ops);
        Closed(end) && forall e | 0 <= e <= run.end.boundary :: e in end.elems && end.elems[e].terminal
    decreases |script|
  {
    if script != [] && script[0].Page? {
      var page := script[0];
      PageGood(cfg, retryAbsent, c0, allowed, c, w, reach, page);
      var ops := PageOps(cfg, retryAbsent, allowed, c, w, page);
      var rest := AfterPage(cfg, retryAbsent, allowed, c, w, script);
      if PageVerdict(cfg, retryAbsent, allowed, c, w, page).None? {
        NextUnmet(cfg, retryAbsent, allowed, c, w, script);
        ApplyAllConcat(c, ops, rest.ops);
        EarlyStopCovers(cfg, retryAbsent, c0, allowed, ApplyAll(c, ops), NextProgress(cfg, allowed, c, w, page),
                        NextReach(page, reach), script[1..]);
      } else {
        StopPageCovers(cfg, retryAbsent, c0, allowed, c, w, reach, page);
      }
    }
  }

  lemma StopPageCovers(cfg: Config, retryAbsent: bool, c0: Col, allowed: bool, c: Col, w: Progress,
                       reach: Option<Reach>, page: Fetch)
    requires PageMet(cfg, c0, allowed, c, w, reach, page)
    requires cfg.historyCount > 0 || !allowed || Unmet(w, page)
    ensures
      var verdict := PageVerdict(cfg, retryAbsent, allowed, c, w, page);
      verdict.Some? && verdict.value.EarlyStop? ==>
        var end := ApplyAll(c, PageOps(cfg, retryAbsent, allowed, c, w, page));
        Closed(end) && forall e | 0 <= e <= verdict.value.boundary :: e in end.elems && end.elems[e].terminal
  {
    var verdict := PageVerdict(cfg, retryAbsent, allowed, c, w, page);
    if verdict.Some? && verdict.value.EarlyStop? {
      var d := DecidePage(cfg, c, allowed, page.items, w);
      EarlyStopCloses(cfg, c0, allowed, c, w, reach, page);
      var c2 := Landing(c, d, w.unsettled, page);
      var tail := PageEnd(c2, retryAbsent, d, w.unsettled || d.mutates, page);
      ApplyAllConcat(c, Withdrawal(c, d, w.unsettled) + Archives(page.archives), tail.0);
      Unroll(c2, tail.0);
    }
  }
}
