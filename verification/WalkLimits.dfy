/** Which elements a history limit keeps (pkg/collect/walk.go), told from what
    the pages listed alone. */
module WalkLimits {
  import opened Statuses
  import opened Records
  import opened Walks

  // ------------------------------------------------- the elements of a listing

  ghost predicate EachOnce(items: seq<Item>) {
    forall i, j | 0 <= i < j < |items| :: items[i].id != items[j].id
  }

  /** Where an element is first listed. */
  function FirstAt(items: seq<Item>, id: nat): (i: nat)
    ensures i <= |items| && (i < |items| ==> items[i].id == id) && forall j | 0 <= j < i :: items[j].id != id
  {
    if items == [] || items[0].id == id then 0
    else
      var i := FirstAt(items[1..], id);
      assert forall j | 0 < j < i + 1 :: items[j] == items[1..][j - 1];
      i + 1
  }

  /** The elements met already are left out; each other one is there once, as it
      was first listed, in the order of the listing. */
  lemma {:induction false} FreshMeans(walked: set<nat>, items: seq<Item>)
    ensures
      var all := Fresh(true, walked, items);
      && EachOnce(all) && Ids(all) == Ids(items) - walked
      && (forall k | 0 <= k < |all| :: FirstAt(items, all[k].id) < |items| && items[FirstAt(items, all[k].id)] == all[k])
      && (forall i, j | 0 <= i < j < |all| :: FirstAt(items, all[i].id) < FirstAt(items, all[j].id))
    decreases |items|
  {
    if items != [] {
      var more := walked + {items[0].id};
      FreshMeans(more, items[1..]);
      assert walked + {items[0].id} == walked <==> items[0].id in walked;
      if items[0].id in walked {
        assert more == walked;
        FreshAfter(walked, items, Fresh(true, more, items[1..]));
      } else {
        FreshAfter(walked, items, Fresh(true, more, items[1..]));
        IdsSplit(items[0], Fresh(true, more, items[1..]));
      }
    }
  }

  /** The rest of the listing's elements, seen from its first. */
  lemma FreshAfter(walked: set<nat>, items: seq<Item>, tail: seq<Item>)
    requires items != [] && EachOnce(tail) && Ids(tail) == Ids(items[1..]) - (walked + {items[0].id})
    requires forall k | 0 <= k < |tail| ::
               FirstAt(items[1..], tail[k].id) < |items[1..]| && items[1..][FirstAt(items[1..], tail[k].id)] == tail[k]
    requires forall i, j | 0 <= i < j < |tail| :: FirstAt(items[1..], tail[i].id) < FirstAt(items[1..], tail[j].id)
    ensures Ids(items) == {items[0].id} + Ids(items[1..]) && items[0].id !in Ids(tail)
    ensures forall k | 0 <= k < |tail| ::
              && tail[k].id != items[0].id && 0 < FirstAt(items, tail[k].id) < |items|
              && items[FirstAt(items, tail[k].id)] == tail[k]
    ensures forall i, j | 0 <= i < j < |tail| :: FirstAt(items, tail[i].id) < FirstAt(items, tail[j].id)
    ensures EachOnce([items[0]] + tail)
  {
    assert items == [items[0]] + items[1..];
    IdsSplit(items[0], items[1..]);
    forall k | 0 <= k < |tail|
      ensures tail[k].id != items[0].id && FirstAt(items, tail[k].id) == FirstAt(items[1..], tail[k].id) + 1
    {
      assert tail[k].id in Ids(tail);
    }
    hide FirstAt;
  }

  lemma IdsSplit(it: Item, items: seq<Item>)
    ensures Ids([it] + items) == {it.id} + Ids(items)
  {
  }

  lemma {:induction false} FreshConcat(counted: bool, walked: set<nat>, a: seq<Item>, b: seq<Item>)
    ensures
      var all := Fresh(counted, walked, a);
      Fresh(counted, walked, a + b) == all + Fresh(counted, walked + Ids(all), b)
    decreases |a|
  {
    if a == [] {
      assert a + b == b && walked + Ids([]) == walked;
    } else {
      assert (a + b)[1..] == a[1..] + b && (a + b)[0] == a[0];
      if counted && a[0].id in walked {
        FreshConcat(counted, walked, a[1..], b);
      } else {
        var more := walked + {a[0].id};
        FreshConcat(counted, more, a[1..], b);
        var tail := Fresh(counted, more, a[1..]);
        IdsSplit(a[0], tail);
        assert walked + Ids([a[0]] + tail) == more + Ids(tail);
      }
    }
  }

  // --------------------------------------------------------- what a walk keeps

  function Elements(cfg: Config, turns: seq<Turn>): seq<Item> {
    Fresh(cfg.historyCount > 0, {}, AllServed(turns))
  }

  /** The walk keeps the listing's first elements, each of them in bounds, and
      leaves nothing out but at an early stop or behind the first out of bounds. */
  ghost predicate KeepsFirst(cfg: Config, all: seq<Item>, kept: seq<Item>, stopped: bool, limited: bool) {
    && kept <= all && (forall k | 0 <= k < |kept| :: InBounds(cfg, k, kept[k]))
    && (!stopped && !limited ==> kept == all)
    && (limited ==> |kept| < |all| && !InBounds(cfg, |kept|, all[|kept|]))
  }

  ghost predicate Stopped(turns: seq<Turn>) {
    turns != [] && turns[|turns| - 1].stopped
  }

  ghost predicate Limited(turns: seq<Turn>) {
    turns != [] && turns[|turns| - 1].limited
  }

  lemma {:induction false} WalkKeepsFirst(cfg: Config, allowed: bool, turns: seq<Turn>)
    requires TurnsOk(cfg, allowed, turns)
    ensures KeepsFirst(cfg, Elements(cfg, turns), AllKept(turns), Stopped(turns), Limited(turns))
    decreases |turns|
  {
    if turns != [] {
      var init, t := turns[..|turns| - 1], turns[|turns| - 1];
      WalkKeepsFirst(cfg, allowed, init);
      var all := Elements(cfg, init);
      assert {} + Ids(all) == Ids(all) && AllKept(init) == all;
      FreshConcat(cfg.historyCount > 0, {}, AllServed(init), t.items);
      TurnKeepsFirst(cfg, allowed, all, t);
    }
  }

  lemma TurnKeepsFirst(cfg: Config, allowed: bool, before: seq<Item>, t: Turn)
    requires TurnOk(cfg, allowed, before, t) && forall k | 0 <= k < |before| :: InBounds(cfg, k, before[k])
    ensures KeepsFirst(cfg, before + Fresh(cfg.historyCount > 0, Ids(before), t.items), before + t.kept, t.stopped, t.limited)
  {
    hide InBounds, Boundary;
  }

  // ------------------------------------------------------------- the two bounds

  /** Bounded by a count alone, a walk that did not stop early keeps exactly that
      many of the listing's distinct elements, the newest, or all there are; and it
      ends at its limit exactly when there are more. */
  lemma CountKeeps(cfg: Config, allowed: bool, turns: seq<Turn>)
    requires TurnsOk(cfg, allowed, turns) && cfg.historyCount > 0 && cfg.historyOldest.None? && !Stopped(turns)
    ensures
      var all, n := Elements(cfg, turns), cfg.historyCount;
      && AllKept(turns) == (if |all| <= n then all else all[..n])
      && (Limited(turns) <==> |all| > n)
  {
    WalkKeepsFirst(cfg, allowed, turns);
    var all, kept := Elements(cfg, turns), AllKept(turns);
    hide Elements, AllKept;
    assert |kept| > 0 ==> InBounds(cfg, |kept| - 1, kept[|kept| - 1]);
  }

  /** However it ends, it keeps no more than that. */
  lemma CountCaps(cfg: Config, allowed: bool, turns: seq<Turn>)
    requires TurnsOk(cfg, allowed, turns) && cfg.historyCount > 0 && cfg.historyOldest.None?
    ensures |AllKept(turns)| <= cfg.historyCount && EachOnce(AllKept(turns))
  {
    WalkKeepsFirst(cfg, allowed, turns);
    FreshMeans({}, AllServed(turns));
    var all, kept := Elements(cfg, turns), AllKept(turns);
    hide Elements, AllKept;
    assert |kept| > 0 ==> InBounds(cfg, |kept| - 1, kept[|kept| - 1]);
  }

  /** Newest first: no element is older than one listed after it. */
  ghost predicate NewestFirst(items: seq<Item>) {
    forall i, j | 0 <= i < j < |items| :: items[i].createdAt >= items[j].createdAt
  }

  /** With an oldest bound, alone or beside a count, a walk that did not stop early
      keeps an element exactly when fewer elements than the count precede it or it
      is not older than the bound; and it ends at its limit exactly when one is
      left out. */
  lemma AgeKeeps(cfg: Config, allowed: bool, turns: seq<Turn>, k: nat)
    requires TurnsOk(cfg, allowed, turns) && cfg.historyOldest.Some? && !Stopped(turns)
    requires NewestFirst(Elements(cfg, turns)) && k < |Elements(cfg, turns)|
    ensures
      var all := Elements(cfg, turns);
      && AllKept(turns) <= all
      && (k < |AllKept(turns)| <==> k < cfg.historyCount || all[k].createdAt >= cfg.historyOldest.value)
      && (Limited(turns) <==> |AllKept(turns)| < |all|)
  {
    WalkKeepsFirst(cfg, allowed, turns);
    var all, kept := Elements(cfg, turns), AllKept(turns);
    hide Elements, AllKept, TurnsOk, NewestFirst;
    if k < |kept| {
      assert InBounds(cfg, k, kept[k]) && kept[k] == all[k];
    } else {
      Older(all, |kept|, k);
    }
  }

  lemma Older(all: seq<Item>, i: nat, j: nat)
    requires NewestFirst(all) && i <= j < |all|
    ensures all[i].createdAt >= all[j].createdAt
  {
  }

  /** A walk with no bound leaves nothing out, unless it stops early. */
  lemma UnboundedKeeps(cfg: Config, allowed: bool, turns: seq<Turn>)
    requires TurnsOk(cfg, allowed, turns) && cfg.historyCount <= 0 && cfg.historyOldest.None?
    ensures !Limited(turns) && (!Stopped(turns) ==> AllKept(turns) == AllServed(turns))
  {
    WalkKeepsFirst(cfg, allowed, turns);
    FreshUncounted({}, AllServed(turns));
  }

  lemma {:induction false} FreshUncounted(walked: set<nat>, items: seq<Item>)
    ensures Fresh(false, walked, items) == items
    decreases |items|
  {
    if items != [] { FreshUncounted(walked + {items[0].id}, items[1..]); }
  }

  // ------------------------------------------------------------- how it ends

  /** A walk that got through its listing, to its end or to the limit, is complete;
      it ended at the limit exactly when it left an element out, and then it
      earned no settlement: it is settled only if it was before and every element
      it kept was at rest already. */
  lemma LeftOutIff(cfg: Config, retryAbsent: bool, c0: Col, turns: seq<Turn>, ops: seq<Op>, c': Col, end: End)
    requires Walked(cfg, retryAbsent, c0, turns, ops, c', end) && end in {ListingEnd, LimitStop}
    ensures c'.complete && (end == LimitStop <==> |AllKept(turns)| < |Elements(cfg, turns)|)
    ensures end == LimitStop ==> (c'.settled <==> c0.settled && !AnyMoved(turns))
    ensures end == ListingEnd ==> (c'.settled <==> AllTerminal(AllKept(turns)) && !Retried(c', retryAbsent))
  {
    WalkKeepsFirst(cfg, MayStop(c0, retryAbsent), turns);
    hide TurnsOk, Elements, AllKept, AnyMoved, AllTerminal, Retried, Through, MayStop;
    if end == LimitStop {
      assert Limited(turns);
    } else {
      assert !Stopped(turns) && !Limited(turns);
    }
  }

  const KID: Path := ["runs", "run-1", "log.txt"]

  /** A settled collection with a failed child is walked again in full; at its
      limit, with nothing moved, the walk leaves it settled though it left an
      element out. */
  lemma LimitLeavesSettled() returns (c: Col, run: Run)
    ensures c.complete && c.settled && Retried(c, false)
    ensures
      var page := Page([Item(1, 1, true), Item(0, 0, true)], false, [], false);
      run == WalkRun(Config(1, None), false, c, [page]) && run.end == LimitStop
    ensures ApplyAll(c, run.ops).settled && ApplyAll(c, run.ops).complete
  {
    c := Col(map[0 := Note(Done, true), 1 := Note(Done, true)], map[KID := Errored], true, true);
    assert KID in c.kids && Retries(c.kids[KID], false);
    var page := Page([Item(1, 1, true), Item(0, 0, true)], false, [], false);
    var cfg := Config(1, None);
    RetriedIs(c, false);
    run := WalkRun(cfg, false, c, [page]);
    LimitedPage(cfg, c, page);
  }

  lemma LimitedPage(cfg: Config, c: Col, page: Fetch)
    requires cfg == Config(1, None) && page == Page([Item(1, 1, true), Item(0, 0, true)], false, [], false)
    requires c.elems == map[0 := Note(Done, true), 1 := Note(Done, true)] && !StopAllowed(c, false) && c.settled
    ensures
      var run := WalkRun(cfg, false, c, [page]);
      run.end == LimitStop && ApplyAll(c, run.ops) == c.(complete := true)
  {
    var d0 := Decision({}, 0, false, [], false, false, false);
    var d1 := DecideOne(cfg, c, false, page.items[0], d0);
    var d2 := DecideOne(cfg, c, false, page.items[1], d1);
    assert page.items[1..][0] == page.items[1];
    assert Decide(cfg, c, false, page.items, d0) == Decide(cfg, c, false, page.items[1..], d1)
           == Decide(cfg, c, false, page.items[1..][1..], d2) == d2;
    assert Archives(page.archives) == [];
    assert PageOps(cfg, false, false, c, START, page) == [Op.MarkComplete];
    Unroll(c, [Op.MarkComplete]);
    Unroll(c, []);
  }
}
