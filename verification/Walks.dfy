/** The newest-first incremental walk of one append-mostly collection
    (pkg/collect/walk.go) over its ledger handle (pkg/manifest/collection.go).

    Elements are numbered by creation, so a newest-first listing counts down.
    Everything the walk does not control (what each page lists, which archives
    land, in which order and with which outcome, where the run is interrupted)
    is the `script` it is run against. */
module Walks {
  import opened Statuses
  import opened Records

  datatype Config = Config(historyCount: int, historyOldest: Option<int>) {
    predicate Bounded() {
      historyCount > 0 || historyOldest.Some?
    }

    predicate WithinBounds(idx: nat, createdAt: int) {
      || (historyCount > 0 && idx < historyCount)
      || (historyOldest.Some? && createdAt >= historyOldest.value)
    }
  }

  datatype Item = Item(id: nat, createdAt: int, terminal: bool)

  /** What the ledger holds for an element: its status, and whether the element
      was terminal when it was last archived. */
  datatype Note = Note(status: Status, terminal: bool)

  /** A collection's ledger state.  `kids` are the other entries beneath the
      collection's prefix. */
  datatype Col = Col(elems: map<nat, Note>, kids: map<Path, Status>, complete: bool, settled: bool)

  /** An archive closure that returned: it may have recorded its element (a
      non-terminal one may be left unrecorded) and any children. */
  datatype Archived = Archived(item: Item, status: Option<Status>, kids: map<Path, Status>)

  datatype Fetch =
    | Failed
    | Page(items: seq<Item>, hasNext: bool, archives: seq<Archived>, aborted: bool)

  /** The ledger mutations a walk performs, in order. */
  datatype Op =
    | SetSettled(value: bool)
    | MarkComplete
    | Archive(done: Archived)

  function Apply(c: Col, op: Op): Col {
    match op
    case SetSettled(v) => c.(settled := v)
    case MarkComplete => c.(complete := true)
    case Archive(a) =>
      c.(elems := if a.status.Some? then c.elems[a.item.id := Note(a.status.value, a.item.terminal)] else c.elems,
         kids := c.kids + a.kids)
  }

  function ApplyAll(c: Col, ops: seq<Op>): Col
    decreases |ops|
  {
    if ops == [] then c else ApplyAll(Apply(c, ops[0]), ops[1..])
  }

  /** A status this run still retries. */
  predicate Open(s: Status, retryAbsent: bool) {
    !s.Settled() || (retryAbsent && (s.Absent? || s.ReferenceAbsent?))
  }

  predicate HasUnsettled(c: Col, retryAbsent: bool) {
    || (exists e | e in c.elems :: Open(c.elems[e].status, retryAbsent))
    || (exists p | p in c.kids :: Open(c.kids[p], retryAbsent))
  }

  predicate StopAllowed(c: Col, retryAbsent: bool) {
    c.complete && c.settled && !HasUnsettled(c, retryAbsent)
  }

  // ------------------------------------------------------ one page's decision

  /** The page loop's variables.  The source keeps `walked` only for a
      count-bounded walk, the one place it is consulted. */
  datatype Decision = Decision(
    walked: set<nat>, listed: nat, sawNonTerminal: bool,
    included: seq<Item>, mutates: bool, stopped: bool, outOfBounds: bool)

  predicate Frozen(c: Col, item: Item) {
    item.id in c.elems && c.elems[item.id].status == Done && item.terminal
  }

  function DecideOne(cfg: Config, c: Col, allowed: bool, item: Item, d: Decision): Decision {
    if cfg.historyCount > 0 && item.id in d.walked then d
    else if cfg.Bounded() && !cfg.WithinBounds(d.listed, item.createdAt) then d.(outOfBounds := true)
    else
      var seen := d.sawNonTerminal || !item.terminal;
      Decision(d.walked + {item.id}, d.listed + 1, seen, d.included + [item],
               d.mutates || !Frozen(c, item), Frozen(c, item) && allowed && !seen, false)
  }

  function Decide(cfg: Config, c: Col, allowed: bool, items: seq<Item>, d: Decision): Decision {
    if items == [] || d.stopped || d.outOfBounds then d
    else Decide(cfg, c, allowed, items[1..], DecideOne(cfg, c, allowed, items[0], d))
  }

  // ----------------------------------------------------------- the whole walk

  datatype Progress = Progress(walked: set<nat>, listed: nat, sawNonTerminal: bool, unsettled: bool)

  datatype End = PageError | Interrupted | EarlyStop(boundary: nat) | LimitStop | ListingEnd | Unfinished

  datatype Run = Run(ops: seq<Op>, end: End)

  function DecidePage(cfg: Config, c: Col, allowed: bool, items: seq<Item>, w: Progress): Decision {
    Decide(cfg, c, allowed, items, Decision(w.walked, w.listed, w.sawNonTerminal, [], false, false, false))
  }

  function Archives(done: seq<Archived>): (ops: seq<Op>)
    ensures |ops| == |done| && forall i | 0 <= i < |ops| :: ops[i] == Archive(done[i])
  {
    seq(|done|, i requires 0 <= i < |done| => Archive(done[i]))
  }

  /** The settlement withdrawn ahead of a page that mutates the collection. */
  function Withdrawal(c: Col, d: Decision, unsettled: bool): seq<Op> {
    if d.mutates && !unsettled && c.settled then [SetSettled(false)] else []
  }

  /** What a page's end decides, once its archives landed in state `c`: the
      mutations that close the walk and how it ended, or `None` to page on. */
  function PageEnd(c: Col, retryAbsent: bool, d: Decision, unsettled: bool, page: Fetch): (r: (seq<Op>, Option<End>))
    requires page.Page?
    ensures |r.0| <= 2 && (r.1.None? ==> r.0 == [])
  {
    var earned := SetSettled(!d.sawNonTerminal && !HasUnsettled(c, retryAbsent));
    if d.stopped then
      (if unsettled then [earned] else [],
       Some(EarlyStop(if d.included == [] then 0 else d.included[|d.included| - 1].id)))
    else if page.items == [] then ([MarkComplete, earned], Some(ListingEnd))
    else if d.outOfBounds then ([MarkComplete], Some(LimitStop))
    else if !page.hasNext then ([MarkComplete, earned], Some(ListingEnd))
    else ([], None)
  }

  /** The mutations of one fetched page. */
  function PageOps(cfg: Config, retryAbsent: bool, allowed: bool, c: Col, w: Progress, page: Fetch): seq<Op>
    requires page.Page?
  {
    var d := DecidePage(cfg, c, allowed, page.items, w);
    var ops := Withdrawal(c, d, w.unsettled) + Archives(page.archives);
    if page.aborted then ops
    else ops + PageEnd(ApplyAll(c, ops), retryAbsent, d, w.unsettled || d.mutates, page).0
  }

  function PageVerdict(cfg: Config, retryAbsent: bool, allowed: bool, c: Col, w: Progress, page: Fetch): Option<End>
    requires page.Page?
  {
    var d := DecidePage(cfg, c, allowed, page.items, w);
    var ops := Withdrawal(c, d, w.unsettled) + Archives(page.archives);
    if page.aborted then Some(Interrupted)
    else PageEnd(ApplyAll(c, ops), retryAbsent, d, w.unsettled || d.mutates, page).1
  }

  function NextProgress(cfg: Config, allowed: bool, c: Col, w: Progress, page: Fetch): Progress
    requires page.Page?
  {
    var d := DecidePage(cfg, c, allowed, page.items, w);
    Progress(d.walked, d.listed, d.sawNonTerminal, w.unsettled || d.mutates)
  }

  function WalkFrom(cfg: Config, retryAbsent: bool, allowed: bool, c: Col, w: Progress, script: seq<Fetch>): Run
    decreases |script|
  {
    if script == [] then Run([], Unfinished)
    else if script[0].Failed? then Run([], PageError)
    else
      var ops := PageOps(cfg, retryAbsent, allowed, c, w, script[0]);
      var verdict := PageVerdict(cfg, retryAbsent, allowed, c, w, script[0]);
      if verdict.Some? then Run(ops, verdict.value)
      else
        var rest := WalkFrom(cfg, retryAbsent, allowed, ApplyAll(c, ops),
                             NextProgress(cfg, allowed, c, w, script[0]), script[1..]);
        Run(ops + rest.ops, rest.end)
  }

  const START := Progress({}, 0, false, false)

  function WalkRun(cfg: Config, retryAbsent: bool, c: Col, script: seq<Fetch>): Run {
    WalkFrom(cfg, retryAbsent, StopAllowed(c, retryAbsent), c, START, script)
  }

  lemma {:induction false} ApplyAllConcat(c: Col, a: seq<Op>, b: seq<Op>)
    ensures ApplyAll(c, a + b) == ApplyAll(ApplyAll(c, a), b)
    decreases |a|
  {
    if a == [] {
      assert a + b == b;
    } else {
      assert (a + b)[1..] == a[1..] + b;
      ApplyAllConcat(Apply(c, a[0]), a[1..], b);
    }
  }

  lemma ConcatAssoc<T>(a: seq<T>, b: seq<T>, c: seq<T>)
    ensures a + (b + c) == (a + b) + c
  {
  }

  lemma ApplyAllSnoc(c: Col, ops: seq<Op>, op: Op)
    ensures ApplyAll(c, ops + [op]) == Apply(ApplyAll(c, ops), op)
  {
    ApplyAllConcat(c, ops, [op]);
    assert ApplyAll(ApplyAll(c, ops), [op]) == ApplyAll(Apply(ApplyAll(c, ops), op), [op][1..]);
  }

  // ------------------------------------------- what a page's decision means

  /** One page as the walk met it: the collection's state when the page was
      decided, what it listed, what of it was kept, and whether the walk stopped
      there, on settled history or at its limit. */
  datatype Turn = Turn(state: Col, items: seq<Item>, kept: seq<Item>, stopped: bool, limited: bool)

  function Ids(items: seq<Item>): set<nat> {
    set it | it in items :: it.id
  }

  /** The elements of a listing, re-listed ones left out if the walk counts them. */
  function Fresh(counted: bool, walked: set<nat>, items: seq<Item>): seq<Item>
    decreases |items|
  {
    if items == [] then []
    else if counted && items[0].id in walked then Fresh(counted, walked, items[1..])
    else [items[0]] + Fresh(counted, walked + {items[0].id}, items[1..])
  }

  /** The element at a listing position is within the history limit: there is
      none, or it is among the newest, or it is not older than the bound. */
  ghost predicate InBounds(cfg: Config, position: nat, item: Item) {
    || (cfg.historyCount <= 0 && cfg.historyOldest.None?)
    || position < cfg.historyCount
    || (cfg.historyOldest.Some? && cfg.historyOldest.value <= item.createdAt)
  }

  ghost predicate AllTerminal(items: seq<Item>) {
    forall it | it in items :: it.terminal
  }

  /** The element is archived for good: it cannot change any more. */
  ghost predicate ForGood(c: Col, it: Item) {
    it.terminal && it.id in c.elems && c.elems[it.id].status == Done
  }

  /** The newest of `upto` ends the walk: everything up to it is terminal, and it
      is at rest already. */
  ghost predicate Boundary(c: Col, allowed: bool, upto: seq<Item>) {
    allowed && upto != [] && AllTerminal(upto) && ForGood(c, upto[|upto| - 1])
  }

  /** What a page adds to the elements kept `before` it. */
  ghost predicate TurnOk(cfg: Config, allowed: bool, before: seq<Item>, t: Turn) {
    var all := Fresh(cfg.historyCount > 0, Ids(before), t.items);
    && t.kept <= all
    && (forall k | 0 <= k < |t.kept| :: InBounds(cfg, |before| + k, t.kept[k]))
    && (forall k | 0 < k < |t.kept| :: !Boundary(t.state, allowed, before + t.kept[..k]))
    && (t.stopped <==> t.kept != [] && Boundary(t.state, allowed, before + t.kept))
    && (t.limited <==>
          !t.stopped && |t.kept| < |all| && !InBounds(cfg, |before| + |t.kept|, all[|t.kept|]))
    && (!t.stopped && !t.limited ==> t.kept == all)
  }

  /** The page loop's variables stand for the elements kept so far. */
  ghost predicate Tracks(walked: set<nat>, listed: nat, sawNonTerminal: bool, before: seq<Item>) {
    walked == Ids(before) && listed == |before| && (sawNonTerminal <==> !AllTerminal(before))
  }

  /** Some kept element was not at rest when its page was decided. */
  ghost predicate Moves(t: Turn) {
    exists it :: it in t.kept && !ForGood(t.state, it)
  }

  /** Settlement is withdrawn before anything of the page is archived, exactly when
      the page is the walk's first to move anything and there is settlement to
      withdraw. */
  ghost predicate WithdrawsFirst(t: Turn, unsettled: bool, page: Fetch, ops: seq<Op>)
    requires page.Page?
  {
    page.archives != [] ==>
      ops != [] && (ops[0] == SetSettled(false) <==> Moves(t) && !unsettled && t.state.settled)
  }

  lemma {:induction false} DecideMeans(cfg: Config, c: Col, allowed: bool, items: seq<Item>, d0: Decision, before: seq<Item>)
    returns (t: Turn)
    requires !d0.stopped && !d0.outOfBounds && Tracks(d0.walked, d0.listed, d0.sawNonTerminal, before)
    ensures
      var d := Decide(cfg, c, allowed, items, d0);
      && t == Turn(c, items, t.kept, d.stopped, d.outOfBounds) && d.included == d0.included + t.kept
      && TurnOk(cfg, allowed, before, t) && Tracks(d.walked, d.listed, d.sawNonTerminal, before + t.kept)
      && (d.mutates <==> d0.mutates || Moves(t))
    decreases |items|
  {
    if items == [] {
      t := NothingKept(cfg, c, allowed, items, before, false);
      assert d0.included + [] == d0.included;
    } else {
      var item, d1 := items[0], DecideOne(cfg, c, allowed, items[0], d0);
      DecidedOut(cfg, c, allowed, item, d0, before);
      hide TurnOk, InBounds, Boundary, ForGood, Moves, Ids, DecideOne;
      if cfg.historyCount > 0 && item.id in d0.walked {
        assert d1 == d0;
        var rest := DecideMeans(cfg, c, allowed, items[1..], d0, before);
        t := rest.(items := items);
        MetBefore(cfg, allowed, before, rest, items);
      } else if d1.outOfBounds {
        t := NothingKept(cfg, c, allowed, items, before, true);
        assert d0.included + [] == d0.included;
      } else {
        if d1.stopped {
          t := StopsAt(cfg, c, allowed, items, before);
          assert Decide(cfg, c, allowed, items[1..], d1) == d1;
        } else {
          var rest := DecideMeans(cfg, c, allowed, items[1..], d1, before + [item]);
          t := KeepMore(cfg, c, allowed, items, before, rest);
          ConcatAssoc(d0.included, [item], rest.kept);
        }
      }
    }
  }

  /** A page that keeps nothing: it lists nothing, or opens past the limit. */
  lemma NothingKept(cfg: Config, c: Col, allowed: bool, items: seq<Item>, before: seq<Item>, limited: bool) returns (t: Turn)
    requires
      if limited
      then items != [] && (cfg.historyCount > 0 ==> items[0].id !in Ids(before)) && !InBounds(cfg, |before|, items[0])
      else items == []
    ensures t == Turn(c, items, [], false, limited)
    ensures TurnOk(cfg, allowed, before, t) && before + t.kept == before && !Moves(t)
  {
    t := Turn(c, items, [], false, limited);
    assert before + t.kept == before;
  }

  lemma MetBefore(cfg: Config, allowed: bool, before: seq<Item>, rest: Turn, items: seq<Item>)
    requires items != [] && rest.items == items[1..] && TurnOk(cfg, allowed, before, rest)
    requires cfg.historyCount > 0 && items[0].id in Ids(before)
    ensures TurnOk(cfg, allowed, before, rest.(items := items)) && (Moves(rest.(items := items)) <==> Moves(rest))
  {
  }

  /** The loop passes over an element met before, ends at one out of bounds, and
      keeps any other, which stops it exactly at a boundary. */
  lemma DecidedOut(cfg: Config, c: Col, allowed: bool, item: Item, d0: Decision, before: seq<Item>)
    requires !d0.stopped && !d0.outOfBounds && Tracks(d0.walked, d0.listed, d0.sawNonTerminal, before)
    ensures
      var d1 := DecideOne(cfg, c, allowed, item, d0);
      if cfg.historyCount > 0 && item.id in d0.walked then d1 == d0
      else if d1.outOfBounds then d1 == d0.(outOfBounds := true) && !InBounds(cfg, |before|, item)
      else
        && InBounds(cfg, |before|, item) && d1.included == d0.included + [item]
        && (d1.stopped <==> Boundary(c, allowed, before + [item])) && (d1.mutates <==> d0.mutates || !ForGood(c, item))
        && Tracks(d1.walked, d1.listed, d1.sawNonTerminal, before + [item])
  {
    assert AllTerminal(before + [item]) <==> AllTerminal(before) && item.terminal by {
      forall it | it in before ensures it in before + [item] {}
      assert item in before + [item];
    }
  }

  lemma StopsAt(cfg: Config, c: Col, allowed: bool, items: seq<Item>, before: seq<Item>) returns (t: Turn)
    requires items != [] && (cfg.historyCount > 0 ==> items[0].id !in Ids(before)) && InBounds(cfg, |before|, items[0])
    requires Boundary(c, allowed, before + [items[0]])
    ensures t == Turn(c, items, [items[0]], true, false)
    ensures TurnOk(cfg, allowed, before, t) && (Moves(t) <==> !ForGood(c, items[0]))
  {
    t := Turn(c, items, [items[0]], true, false);
    hide InBounds, Boundary, ForGood;
  }

  /** A kept element that is no boundary, and what the rest of the page adds. */
  lemma KeepMore(cfg: Config, c: Col, allowed: bool, items: seq<Item>, before: seq<Item>, rest: Turn) returns (t: Turn)
    requires items != [] && (cfg.historyCount > 0 ==> items[0].id !in Ids(before)) && InBounds(cfg, |before|, items[0])
    requires !Boundary(c, allowed, before + [items[0]]) && rest.state == c && rest.items == items[1..]
    requires TurnOk(cfg, allowed, before + [items[0]], rest)
    ensures t == Turn(c, items, [items[0]] + rest.kept, rest.stopped, rest.limited)
    ensures TurnOk(cfg, allowed, before, t) && before + t.kept == before + [items[0]] + rest.kept
    ensures Moves(t) <==> !ForGood(c, items[0]) || Moves(rest)
  {
    t := Turn(c, items, [items[0]] + rest.kept, rest.stopped, rest.limited);
    hide InBounds, Boundary, ForGood;
    assert Ids(before + [items[0]]) == Ids(before) + {items[0].id};
    assert before + t.kept == before + [items[0]] + rest.kept;
    forall k | 0 < k < |t.kept| ensures !Boundary(c, allowed, before + t.kept[..k]) {
      assert before + t.kept[..k] == before + [items[0]] + rest.kept[..k - 1];
    }
  }

  /** A status a run with this setting fetches again. */
  predicate Retries(s: Status, retryAbsent: bool) {
    s in {Errored, Forbidden, Pending} || (retryAbsent && s in {Absent, ReferenceAbsent})
  }

  /** Some entry of the collection is to be fetched again. */
  ghost predicate Retried(c: Col, retryAbsent: bool) {
    || (exists e :: e in c.elems && Retries(c.elems[e].status, retryAbsent))
    || (exists p :: p in c.kids && Retries(c.kids[p], retryAbsent))
  }

  lemma RetriedIs(c: Col, retryAbsent: bool)
    ensures Retried(c, retryAbsent) <==> HasUnsettled(c, retryAbsent)
  {
  }

  /** How a page ends: settlement is withdrawn ahead of the first that moves
      anything, its archives land, and then the walk was interrupted, stops on
      settled history, stops at its limit, is at the listing's end, or pages on.
      Settlement is earned by an end with nothing left that can change. */
  ghost predicate PageClosed(retryAbsent: bool, kept: seq<Item>, t: Turn, unsettled: bool, page: Fetch, c': Col,
                             verdict: Option<End>)
    requires page.Page?
  {
    var landed := ApplyAll(t.state.(settled := t.state.settled && (unsettled || !Moves(t))), Archives(page.archives));
    var clean := AllTerminal(kept) && !Retried(landed, retryAbsent);
    if page.aborted then verdict == Some(Interrupted) && c' == landed
    else if t.stopped then
      && t.kept != [] && verdict == Some(EarlyStop(t.kept[|t.kept| - 1].id))
      && c' == if unsettled || Moves(t) then landed.(settled := clean) else landed
    else if t.limited then verdict == Some(LimitStop) && c' == landed.(complete := true)
    else if page.items == [] || !page.hasNext then
      verdict == Some(ListingEnd) && c' == landed.(complete := true, settled := clean)
    else verdict.None? && c' == landed
  }

  ghost predicate Tracked(w: Progress, before: seq<Item>) {
    Tracks(w.walked, w.listed, w.sawNonTerminal, before)
  }

  /** What one page's mutations amount to. */
  lemma PageMeans(cfg: Config, retryAbsent: bool, allowed: bool, c: Col, w: Progress, page: Fetch, before: seq<Item>)
    returns (t: Turn)
    requires page.Page? && Tracked(w, before)
    ensures t.state == c && t.items == page.items && TurnOk(cfg, allowed, before, t)
    ensures
      var next := NextProgress(cfg, allowed, c, w, page);
      Tracked(next, before + t.kept) && (next.unsettled <==> w.unsettled || Moves(t))
    ensures PageClosed(retryAbsent, before + t.kept, t, w.unsettled, page,
                       ApplyAll(c, PageOps(cfg, retryAbsent, allowed, c, w, page)),
                       PageVerdict(cfg, retryAbsent, allowed, c, w, page))
    ensures WithdrawsFirst(t, w.unsettled, page, PageOps(cfg, retryAbsent, allowed, c, w, page))
  {
    var d0 := Decision(w.walked, w.listed, w.sawNonTerminal, [], false, false, false);
    t := DecideMeans(cfg, c, allowed, page.items, d0, before);
    TurnNotEmpty(cfg, allowed, before, t);
    hide Decide, TurnOk, Moves, Boundary, Ids, HasUnsettled, Retried, ApplyAll, PageEnd, Archives, AllTerminal;
    var d := DecidePage(cfg, c, allowed, page.items, w);
    assert d.included == t.kept;
    var ops := Withdrawal(c, d, w.unsettled) + Archives(page.archives);
    LandMeans(c, d, w.unsettled, page);
    if !page.aborted {
      EndMeans(retryAbsent, before + t.kept, t, d, w.unsettled, page, ApplyAll(c, ops));
      ApplyAllConcat(c, ops, PageEnd(ApplyAll(c, ops), retryAbsent, d, w.unsettled || d.mutates, page).0);
    }
  }

  lemma LandMeans(c: Col, d: Decision, unsettled: bool, page: Fetch)
    requires page.Page?
    ensures ApplyAll(c, Withdrawal(c, d, unsettled) + Archives(page.archives))
            == ApplyAll(c.(settled := c.settled && (unsettled || !d.mutates)), Archives(page.archives))
  {
    ApplyAllConcat(c, Withdrawal(c, d, unsettled), Archives(page.archives));
    Unroll(c, Withdrawal(c, d, unsettled));
  }

  lemma EndMeans(retryAbsent: bool, kept: seq<Item>, t: Turn, d: Decision, unsettled: bool, page: Fetch, landed: Col)
    requires page.Page? && !page.aborted && t.items == page.items
    requires d.included == t.kept && d.stopped == t.stopped && d.outOfBounds == t.limited && (d.mutates <==> Moves(t))
    requires (t.stopped ==> t.kept != []) && (t.items == [] ==> !t.limited && !t.stopped) && !(t.limited && t.stopped)
    requires d.sawNonTerminal <==> !AllTerminal(kept)
    requires landed == ApplyAll(t.state.(settled := t.state.settled && (unsettled || !Moves(t))), Archives(page.archives))
    ensures
      var end := PageEnd(landed, retryAbsent, d, unsettled || d.mutates, page);
      PageClosed(retryAbsent, kept, t, unsettled, page, ApplyAll(landed, end.0), end.1)
  {
    RetriedIs(landed, retryAbsent);
    var end := PageEnd(landed, retryAbsent, d, unsettled || d.mutates, page);
    Unroll(landed, end.0);
    hide HasUnsettled, Retried, ApplyAll, AllTerminal, Moves;
  }

  lemma TurnNotEmpty(cfg: Config, allowed: bool, before: seq<Item>, t: Turn)
    requires TurnOk(cfg, allowed, before, t)
    ensures (t.stopped ==> t.kept != []) && (t.items == [] ==> !t.limited && !t.stopped) && !(t.limited && t.stopped)
  {
  }

  // --------------------------------------------- what a whole walk amounts to

  /** Everything the pages listed, in order. */
  function AllServed(turns: seq<Turn>): seq<Item> {
    if turns == [] then [] else AllServed(turns[..|turns| - 1]) + turns[|turns| - 1].items
  }

  /** Everything the walk kept, in order. */
  function AllKept(turns: seq<Turn>): seq<Item> {
    if turns == [] then [] else AllKept(turns[..|turns| - 1]) + turns[|turns| - 1].kept
  }

  /** Each page adds to what the pages before it kept, and only the last may stop
      the walk. */
  ghost predicate TurnsOk(cfg: Config, allowed: bool, turns: seq<Turn>) {
    turns == [] ||
    var init, t := turns[..|turns| - 1], turns[|turns| - 1];
    && TurnsOk(cfg, allowed, init) && TurnOk(cfg, allowed, AllKept(init), t)
    && (init != [] ==> !init[|init| - 1].stopped && !init[|init| - 1].limited)
  }

  ghost predicate AnyMoved(turns: seq<Turn>) {
    exists t :: t in turns && Moves(t)
  }

  /** The state is one the mutations pass through. */
  ghost predicate Through(c0: Col, ops: seq<Op>, c: Col) {
    exists n :: 0 <= n <= |ops| && c == ApplyAll(c0, ops[..n])
  }

  /** The early stop is only ever allowed over a collection walked to its end,
      settled, with nothing to be fetched again. */
  ghost predicate MayStop(c: Col, retryAbsent: bool) {
    c.complete && c.settled && !Retried(c, retryAbsent)
  }

  /** A walk, told by its pages. */
  ghost predicate Walked(cfg: Config, retryAbsent: bool, c0: Col, turns: seq<Turn>, ops: seq<Op>, c': Col, end: End) {
    && TurnsOk(cfg, MayStop(c0, retryAbsent), turns) && (forall t | t in turns :: Through(c0, ops, t.state))
    && (end in {PageError, Unfinished} || turns != [])
    && EndsAs(retryAbsent, c0, AllKept(turns), AnyMoved(turns), turns != [] && turns[|turns| - 1].stopped,
              turns != [] && turns[|turns| - 1].limited, c', end)
  }

  /** Completion is recorded at the listing's end and at the limit; settlement is
      earned at the listing's end and at an early stop, is otherwise as it was,
      and is gone once anything moved. */
  ghost predicate EndsAs(retryAbsent: bool, c0: Col, kept: seq<Item>, moved: bool, stopped: bool, limited: bool, c': Col,
                         end: End)
  {
    match end
    case ListingEnd =>
      !stopped && !limited && c'.complete && (c'.settled <==> AllTerminal(kept) && !Retried(c', retryAbsent))
    case LimitStop => limited && c'.complete && (c'.settled <==> c0.settled && !moved)
    case EarlyStop(boundary) =>
      && stopped && kept != [] && kept[|kept| - 1].id == boundary && AllTerminal(kept)
      && c'.complete && (c'.settled <==> !moved || !Retried(c', retryAbsent))
    case Interrupted => c'.complete == c0.complete && (c'.settled <==> c0.settled && !moved)
    case _ => !stopped && !limited && c'.complete == c0.complete && (c'.settled <==> c0.settled && !moved)
  }

  /** A walk that is still paging. */
  ghost predicate Walking(cfg: Config, retryAbsent: bool, c0: Col, turns: seq<Turn>, ops: seq<Op>, w: Progress, c: Col) {
    && TurnsOk(cfg, MayStop(c0, retryAbsent), turns) && (forall t | t in turns :: Through(c0, ops, t.state))
    && (turns != [] ==> !turns[|turns| - 1].stopped && !turns[|turns| - 1].limited)
    && Tracked(w, AllKept(turns)) && (w.unsettled <==> AnyMoved(turns))
    && c == ApplyAll(c0, ops) && c.complete == c0.complete && (c.settled <==> c0.settled && !AnyMoved(turns))
  }

  lemma WalkStarts(cfg: Config, retryAbsent: bool, c: Col)
    ensures Walking(cfg, retryAbsent, c, [], [], START, c)
  {
  }

  lemma WalkEnds(cfg: Config, retryAbsent: bool, c0: Col, turns: seq<Turn>, ops: seq<Op>, w: Progress, c: Col, end: End)
    requires Walking(cfg, retryAbsent, c0, turns, ops, w, c) && end in {PageError, Unfinished}
    ensures Walked(cfg, retryAbsent, c0, turns, ops, c, end)
  {
  }

  /** One more page. */
  lemma WalkOn(cfg: Config, retryAbsent: bool, c0: Col, turns: seq<Turn>, ops: seq<Op>, w: Progress, t: Turn, page: Fetch,
               more: seq<Op>, next: Progress, c': Col, verdict: Option<End>)
    requires page.Page? && Walking(cfg, retryAbsent, c0, turns, ops, w, t.state)
    requires TurnOk(cfg, MayStop(c0, retryAbsent), AllKept(turns), t) && t.items == page.items
    requires Tracked(next, AllKept(turns) + t.kept) && (next.unsettled <==> w.unsettled || Moves(t))
    requires PageClosed(retryAbsent, AllKept(turns) + t.kept, t, w.unsettled, page, c', verdict)
    requires c' == ApplyAll(t.state, more)
    ensures
      if verdict.None? then Walking(cfg, retryAbsent, c0, turns + [t], ops + more, next, c')
      else Walked(cfg, retryAbsent, c0, turns + [t], ops + more, c', verdict.value)
  {
    hide TurnOk, TurnsOk, Through, Moves, AnyMoved, AllKept, ApplyAll, AllTerminal, MayStop, EndsAs, PageClosed, Tracks;
    TurnNotEmpty(cfg, MayStop(c0, retryAbsent), AllKept(turns), t);
    TurnAdded(cfg, MayStop(c0, retryAbsent), turns, t);
    if t.stopped { StopMeans(cfg, retryAbsent, c0, AllKept(turns), t); }
    ApplyAllConcat(c0, ops, more);
    ThroughMore(c0, turns, ops, t, more);
    CloseMeans(retryAbsent, c0, AllKept(turns) + t.kept, AnyMoved(turns), t, w.unsettled, page, c', verdict);
  }

  lemma CloseMeans(retryAbsent: bool, c0: Col, kept: seq<Item>, moved: bool, t: Turn, unsettled: bool, page: Fetch, c': Col,
                   verdict: Option<End>)
    requires page.Page? && t.items == page.items && PageClosed(retryAbsent, kept, t, unsettled, page, c', verdict)
    requires t.state.complete == c0.complete && (t.state.settled <==> c0.settled && !moved) && (unsettled <==> moved)
    requires !(t.limited && t.stopped) && (t.items == [] ==> !t.limited && !t.stopped)
    requires t.stopped ==>
               c0.complete && c0.settled && AllTerminal(kept) && t.kept != [] && kept != []
               && kept[|kept| - 1] == t.kept[|t.kept| - 1]
    ensures verdict.None? ==>
              !t.stopped && !t.limited && c'.complete == c0.complete && (c'.settled <==> c0.settled && !(moved || Moves(t)))
    ensures verdict.Some? ==> EndsAs(retryAbsent, c0, kept, moved || Moves(t), t.stopped, t.limited, c', verdict.value)
    ensures verdict.Some? ==> !(verdict.value in {PageError, Unfinished})
  {
    LandKeeps(t.state.(settled := t.state.settled && (unsettled || !Moves(t))), page.archives);
    hide ApplyAll, AllTerminal, Moves, Retries;
  }

  lemma TurnAdded(cfg: Config, allowed: bool, turns: seq<Turn>, t: Turn)
    requires TurnsOk(cfg, allowed, turns) && TurnOk(cfg, allowed, AllKept(turns), t)
    requires turns != [] ==> !turns[|turns| - 1].stopped && !turns[|turns| - 1].limited
    ensures TurnsOk(cfg, allowed, turns + [t]) && AllKept(turns + [t]) == AllKept(turns) + t.kept
    ensures AnyMoved(turns + [t]) <==> AnyMoved(turns) || Moves(t)
  {
    KeptMore(turns, t);
    MovedMore(turns, t);
    hide TurnOk, AnyMoved, AllKept, Moves;
    assert (turns + [t])[..|turns|] == turns;
  }

  lemma KeptMore(turns: seq<Turn>, t: Turn)
    ensures AllKept(turns + [t]) == AllKept(turns) + t.kept
  {
    assert (turns + [t])[..|turns|] == turns;
  }

  lemma MovedMore(turns: seq<Turn>, t: Turn)
    ensures AnyMoved(turns + [t]) <==> AnyMoved(turns) || Moves(t)
  {
    hide Moves;
    assert t in turns + [t] && forall x | x in turns :: x in turns + [t];
  }

  lemma StopMeans(cfg: Config, retryAbsent: bool, c0: Col, before: seq<Item>, t: Turn)
    requires TurnOk(cfg, MayStop(c0, retryAbsent), before, t) && t.stopped
    ensures MayStop(c0, retryAbsent) && c0.complete && c0.settled
    ensures AllTerminal(before + t.kept) && (before + t.kept)[|before + t.kept| - 1] == t.kept[|t.kept| - 1]
  {
  }

  lemma ThroughMore(c0: Col, turns: seq<Turn>, ops: seq<Op>, t: Turn, more: seq<Op>)
    requires (forall x | x in turns :: Through(c0, ops, x.state)) && t.state == ApplyAll(c0, ops)
    ensures forall x | x in turns + [t] :: Through(c0, ops + more, x.state)
  {
    hide ApplyAll;
    forall x | x in turns + [t] ensures Through(c0, ops + more, x.state) {
      var n := |ops|;
      if x in turns { n :| 0 <= n <= |ops| && x.state == ApplyAll(c0, ops[..n]); } else { assert ops[..n] == ops; }
      assert (ops + more)[..n] == ops[..n];
    }
  }

  /** Archives touch neither flag. */
  lemma {:induction false} LandKeeps(c: Col, done: seq<Archived>)
    ensures ApplyAll(c, Archives(done)).complete == c.complete && ApplyAll(c, Archives(done)).settled == c.settled
    decreases |done|
  {
    if done != [] {
      assert Archives(done)[1..] == Archives(done[1..]);
      LandKeeps(Apply(c, Archives(done)[0]), done[1..]);
    }
  }

  // ------------------------------------------------------- the walk, in place

  /** The collection handle a walk drives.  `trace` logs its mutations. */
  class Collection {
    var elems: map<nat, Note>
    var kids: map<Path, Status>
    var complete: bool
    var settled: bool
    ghost var trace: seq<Op>

    constructor (c: Col)
      ensures State() == c && trace == []
    {
      elems, kids, complete, settled := c.elems, c.kids, c.complete, c.settled;
      trace := [];
    }

    function State(): Col
      reads this
    {
      Col(elems, kids, complete, settled)
    }

    method MarkComplete()
      modifies this
      ensures State() == Apply(old(State()), Op.MarkComplete)
      ensures trace == old(trace) + [Op.MarkComplete]
    {
      complete := true;
      trace := trace + [Op.MarkComplete];
    }

    method SetSettled(value: bool)
      modifies this
      ensures State() == Apply(old(State()), Op.SetSettled(value))
      ensures trace == old(trace) + [Op.SetSettled(value)]
    {
      settled := value;
      trace := trace + [Op.SetSettled(value)];
    }

    method Record(a: Archived)
      modifies this
      ensures State() == Apply(old(State()), Archive(a))
      ensures elems == if a.status.Some? then old(elems)[a.item.id := Note(a.status.value, a.item.terminal)] else old(elems)
      ensures (forall p | p in a.kids :: p in kids && kids[p] == a.kids[p]) && complete == old(complete) && settled == old(settled)
      ensures forall p | p !in a.kids :: At(kids, p) == At(old(kids), p)
      ensures trace == old(trace) + [Archive(a)]
    {
      if a.status.Some? {
        elems := elems[a.item.id := Note(a.status.value, a.item.terminal)];
      }
      kids := kids + a.kids;
      trace := trace + [Archive(a)];
    }

    /** Scans one page in listing order for the elements the walk includes. */
    method Scan(cfg: Config, allowed: bool, items: seq<Item>, start: Decision) returns (d: Decision)
      requires !start.stopped && !start.outOfBounds
      ensures d == Decide(cfg, State(), allowed, items, start)
    {
      d := start;
      var i := 0;
      while i < |items| && !d.stopped && !d.outOfBounds
        invariant 0 <= i <= |items|
        invariant Decide(cfg, State(), allowed, items[i..], d) == Decide(cfg, State(), allowed, items, start)
      {
        var item := items[i];
        assert items[i..][0] == item && items[i..][1..] == items[i + 1..];
        if cfg.historyCount > 0 && item.id in d.walked {
          // A page-overlap duplicate, not a position of its own.
        } else if cfg.Bounded() && !cfg.WithinBounds(d.listed, item.createdAt) {
          d := d.(outOfBounds := true);
        } else {
          var frozen := item.id in elems && elems[item.id].status == Done && item.terminal;
          d := d.(listed := d.listed + 1, walked := d.walked + {item.id}, included := d.included + [item]);
          if !frozen { d := d.(mutates := true); }
          if !item.terminal { d := d.(sawNonTerminal := true); }
          if frozen && allowed && !d.sawNonTerminal { d := d.(stopped := true); }
        }
        i := i + 1;
      }
    }

    /** Waits for a page's archive closures, which land in any order. */
    method Land(done: seq<Archived>)
      modifies this
      ensures State() == ApplyAll(old(State()), Archives(done))
      ensures trace == old(trace) + Archives(done)
    {
      var i := 0;
      while i < |done|
        invariant 0 <= i <= |done|
        invariant State() == ApplyAll(old(State()), Archives(done)[..i])
        invariant trace == old(trace) + Archives(done)[..i]
      {
        assert Archives(done)[..i + 1] == Archives(done)[..i] + [Archive(done[i])];
        ApplyAllSnoc(old(State()), Archives(done)[..i], Archive(done[i]));
        Record(done[i]);
        i := i + 1;
      }
      assert Archives(done)[..i] == Archives(done);
    }

    /** Decides one page, withdraws settlement ahead of its first mutation,
        archives it, and settles the collection when the walk ends there. */
    method VisitPage(cfg: Config, retryAbsent: bool, allowed: bool, w: Progress, page: Fetch, ghost before: seq<Item>)
      returns (next: Progress, verdict: Option<End>, ghost t: Turn)
      requires page.Page?
      modifies this
      ensures Tracked(w, before) ==>
                && t.state == old(State()) && t.items == page.items && TurnOk(cfg, allowed, before, t)
                && PageClosed(retryAbsent, before + t.kept, t, w.unsettled, page, State(), verdict)
                && Tracked(next, before + t.kept) && (next.unsettled <==> w.unsettled || Moves(t))
      ensures |trace| >= |old(trace)| && (Tracked(w, before) ==> WithdrawsFirst(t, w.unsettled, page, trace[|old(trace)|..]))
      ensures next == NextProgress(cfg, allowed, old(State()), w, page)
      ensures verdict == PageVerdict(cfg, retryAbsent, allowed, old(State()), w, page)
      ensures trace == old(trace) + PageOps(cfg, retryAbsent, allowed, old(State()), w, page)
      ensures State() == ApplyAll(old(State()), PageOps(cfg, retryAbsent, allowed, old(State()), w, page))
    {
      hide PageEnd, Decide, ApplyAll, TurnOk, PageClosed, Moves, Tracked, WithdrawsFirst;
      t := Turn(State(), page.items, [], false, false);
      if Tracked(w, before) { t := PageMeans(cfg, retryAbsent, allowed, State(), w, page, before); }
      var d := Scan(cfg, allowed, page.items, Decision(w.walked, w.listed, w.sawNonTerminal, [], false, false, false));
      ghost var c := State();
      ghost var ops := Withdrawal(c, d, w.unsettled) + Archives(page.archives);
      WithdrawAndLand(d, w.unsettled, page);
      next := Progress(d.walked, d.listed, d.sawNonTerminal, w.unsettled || d.mutates);
      if page.aborted {
        return next, Some(Interrupted), t;
      }
      ghost var tail := PageEnd(State(), retryAbsent, d, next.unsettled, page);
      ApplyAllConcat(c, ops, tail.0);
      verdict := Finish(retryAbsent, d, next.unsettled, page);
      ConcatAssoc(old(trace), ops, tail.0);
    }

    /** Withdraws settlement if the page is the first to mutate anything, then
        archives the page. */
    method WithdrawAndLand(d: Decision, unsettled: bool, page: Fetch)
      requires page.Page?
      modifies this
      ensures State() == ApplyAll(old(State()), Withdrawal(old(State()), d, unsettled) + Archives(page.archives))
      ensures trace == old(trace) + (Withdrawal(old(State()), d, unsettled) + Archives(page.archives))
    {
      ghost var c := State();
      ApplyAllConcat(c, Withdrawal(c, d, unsettled), Archives(page.archives));
      Unroll(c, Withdrawal(c, d, unsettled));
      ConcatAssoc(trace, Withdrawal(c, d, unsettled), Archives(page.archives));
      assert trace + [] == trace;
      if d.mutates && !unsettled && settled {
        SetSettled(false);
      }
      Land(page.archives);
    }

    /** The listing's true end: the collection is complete, and settled if nothing
        in it can change. */
    method EndListing(retryAbsent: bool, sawNonTerminal: bool)
      modifies this
      ensures
        var earned := Op.SetSettled(!sawNonTerminal && !HasUnsettled(old(State()), retryAbsent));
        && State() == Apply(Apply(old(State()), Op.MarkComplete), earned)
        && trace == old(trace) + [Op.MarkComplete, earned]
    {
      ghost var was := State();
      MarkComplete();
      assert HasUnsettled(State(), retryAbsent) <==> HasUnsettled(was, retryAbsent);
      var open := HasUnsettled(State(), retryAbsent);
      SetSettled(!sawNonTerminal && !open);
      assert trace == old(trace) + [Op.MarkComplete, Op.SetSettled(!sawNonTerminal && !open)];
    }

    /** The decisions that follow a landed page. */
    method Finish(retryAbsent: bool, d: Decision, unsettled: bool, page: Fetch) returns (verdict: Option<End>)
      requires page.Page?
      modifies this
      ensures verdict == PageEnd(old(State()), retryAbsent, d, unsettled, page).1
      ensures trace == old(trace) + PageEnd(old(State()), retryAbsent, d, unsettled, page).0
      ensures State() == ApplyAll(old(State()), PageEnd(old(State()), retryAbsent, d, unsettled, page).0)
    {
      Unroll(State(), PageEnd(State(), retryAbsent, d, unsettled, page).0);
      hide ApplyAll;
      if d.stopped {
        if unsettled {
          var open := HasUnsettled(State(), retryAbsent);
          SetSettled(!d.sawNonTerminal && !open);
        }
        return Some(EarlyStop(if d.included == [] then 0 else d.included[|d.included| - 1].id));
      }
      if |page.items| == 0 {
        EndListing(retryAbsent, d.sawNonTerminal);
        return Some(ListingEnd);
      }
      if d.outOfBounds {
        MarkComplete();
        return Some(LimitStop);
      }
      if !page.hasNext {
        EndListing(retryAbsent, d.sawNonTerminal);
        return Some(ListingEnd);
      }
      verdict := None;
    }
  }

  /** Unrolls the few mutations around a page. */
  lemma Unroll(c: Col, ops: seq<Op>)
    requires |ops| <= 2
    ensures |ops| == 0 ==> ApplyAll(c, ops) == c
    ensures |ops| == 1 ==> ApplyAll(c, ops) == Apply(c, ops[0])
    ensures |ops| == 2 ==> ApplyAll(c, ops) == Apply(Apply(c, ops[0]), ops[1])
  {
    if |ops| == 2 {
      assert ApplyAll(Apply(c, ops[0]), ops[1..]) == ApplyAll(Apply(Apply(c, ops[0]), ops[1..][0]), ops[1..][1..]);
    }
  }

  /** The pages a script serves before it fails or runs out. */
  function ServedBy(script: seq<Fetch>, n: nat): seq<Item>
    requires n <= |script| && forall i | 0 <= i < n :: script[i].Page?
  {
    if n == 0 then [] else ServedBy(script, n - 1) + script[n - 1].items
  }

  /** The turns are the script's first pages. */
  ghost predicate Met(script: seq<Fetch>, turns: seq<Turn>) {
    |turns| <= |script| && (forall i | 0 <= i < |turns| :: script[i].Page?) && AllServed(turns) == ServedBy(script, |turns|)
  }

  lemma MetMore(script: seq<Fetch>, turns: seq<Turn>, turns': seq<Turn>)
    requires Met(script, turns) && |turns| < |script| && script[|turns|].Page?
    requires |turns'| == |turns| + 1 && AllServed(turns') == AllServed(turns) + script[|turns|].items
    ensures Met(script, turns')
  {
    hide AllServed;
  }

  /** A walk so far: the pages it met, the mutations it made, and those left. */
  datatype Trail = Trail(turns: seq<Turn>, ops: seq<Op>, rest: Run)

  /** The walk follows its specification, and means what its pages mean. */
  ghost predicate OnWay(cfg: Config, retryAbsent: bool, c0: Col, script: seq<Fetch>, n: nat, trail: Trail, w: Progress, c: Col,
                        verdict: Option<End>)
  {
    var run := WalkRun(cfg, retryAbsent, c0, script);
    && n <= |script| && trail.rest.end == run.end && trail.ops + trail.rest.ops == run.ops && c == ApplyAll(c0, trail.ops)
    && Met(script, trail.turns)
    && match verdict
       case None =>
         && trail.rest == WalkFrom(cfg, retryAbsent, StopAllowed(c0, retryAbsent), c, w, script[n..])
         && Walking(cfg, retryAbsent, c0, trail.turns, trail.ops, w, c) && |trail.turns| == n
       case Some(end) => trail.rest == Run([], end) && Walked(cfg, retryAbsent, c0, trail.turns, trail.ops, c, end)
  }

  lemma OnWayStarts(cfg: Config, retryAbsent: bool, c0: Col, script: seq<Fetch>)
    ensures OnWay(cfg, retryAbsent, c0, script, 0, Trail([], [], WalkRun(cfg, retryAbsent, c0, script)), START, c0, None)
  {
    WalkStarts(cfg, retryAbsent, c0);
    hide Walking, WalkFrom, StopAllowed;
    assert script[0..] == script && [] + WalkRun(cfg, retryAbsent, c0, script).ops == WalkRun(cfg, retryAbsent, c0, script).ops;
  }

  /** The walk ends where no page comes. */
  lemma OnWayEnds(cfg: Config, retryAbsent: bool, c0: Col, script: seq<Fetch>, n: nat, trail: Trail, w: Progress, c: Col)
    requires OnWay(cfg, retryAbsent, c0, script, n, trail, w, c, None) && (n == |script| || script[n].Failed?)
    ensures OnWay(cfg, retryAbsent, c0, script, n, trail, w, c, Some(if n == |script| then Unfinished else PageError))
  {
    NoPage(cfg, retryAbsent, StopAllowed(c0, retryAbsent), c, w, script[n..]);
    WalkEnds(cfg, retryAbsent, c0, trail.turns, trail.ops, w, c, if n == |script| then Unfinished else PageError);
  }

  lemma NoPage(cfg: Config, retryAbsent: bool, allowed: bool, c: Col, w: Progress, script: seq<Fetch>)
    requires script == [] || script[0].Failed?
    ensures WalkFrom(cfg, retryAbsent, allowed, c, w, script) == Run([], if script == [] then Unfinished else PageError)
  {
  }

  /** One more page on the way. */
  lemma OnWayMore(cfg: Config, retryAbsent: bool, c0: Col, script: seq<Fetch>, n: nat, trail: Trail, w: Progress, t: Turn,
                  next: Progress, c': Col, verdict: Option<End>) returns (trail': Trail)
    requires OnWay(cfg, retryAbsent, c0, script, n, trail, w, t.state, None) && n < |script| && script[n].Page?
    requires t.items == script[n].items && TurnOk(cfg, StopAllowed(c0, retryAbsent), AllKept(trail.turns), t)
    requires Tracked(next, AllKept(trail.turns) + t.kept) && (next.unsettled <==> w.unsettled || Moves(t))
    requires PageClosed(retryAbsent, AllKept(trail.turns) + t.kept, t, w.unsettled, script[n], c', verdict)
    requires next == NextProgress(cfg, StopAllowed(c0, retryAbsent), t.state, w, script[n])
    requires verdict == PageVerdict(cfg, retryAbsent, StopAllowed(c0, retryAbsent), t.state, w, script[n])
    requires c' == ApplyAll(t.state, PageOps(cfg, retryAbsent, StopAllowed(c0, retryAbsent), t.state, w, script[n]))
    ensures OnWay(cfg, retryAbsent, c0, script, n + 1, trail', next, c', verdict)
    ensures trail'.ops == trail.ops + PageOps(cfg, retryAbsent, StopAllowed(c0, retryAbsent), t.state, w, script[n])
  {
    var allowed, c := StopAllowed(c0, retryAbsent), t.state;
    var more := PageOps(cfg, retryAbsent, allowed, c, w, script[n]);
    RetriedIs(c0, retryAbsent);
    assert allowed == MayStop(c0, retryAbsent);
    assert script[n..][0] == script[n] && script[n..][1..] == script[n + 1..];
    var rest := AfterPage(cfg, retryAbsent, allowed, c, w, script[n..]);
    hide WalkFrom, PageOps, PageVerdict, NextProgress, TurnOk, PageClosed, Moves, TurnsOk, Walked, Walking, ApplyAll, AnyMoved, Met,
         StopAllowed, MayStop, Tracked;
    WalkOn(cfg, retryAbsent, c0, trail.turns, trail.ops, w, t, script[n], more, next, c', verdict);
    ServedMore(trail.turns, t);
    MetMore(script, trail.turns, trail.turns + [t]);
    trail' := Trail(trail.turns + [t], trail.ops + more, rest);
    ApplyAllConcat(c0, trail.ops, more);
    ConcatAssoc(trail.ops, more, rest.ops);
  }

  lemma ServedMore(turns: seq<Turn>, t: Turn)
    ensures AllServed(turns + [t]) == AllServed(turns) + t.items
  {
    assert (turns + [t])[..|turns|] == turns;
  }

  /** The walk: a page loop over the handle.  `turns` are the pages it met. */
  method Walk(cfg: Config, retryAbsent: bool, col: Collection, script: seq<Fetch>) returns (end: End, ghost turns: seq<Turn>)
    modifies col
    ensures end == WalkRun(cfg, retryAbsent, old(col.State()), script).end
    ensures col.trace == old(col.trace) + WalkRun(cfg, retryAbsent, old(col.State()), script).ops
    ensures col.State() == ApplyAll(old(col.State()), WalkRun(cfg, retryAbsent, old(col.State()), script).ops)
    ensures old(col.trace) <= col.trace && Met(script, turns)
    ensures Walked(cfg, retryAbsent, old(col.State()), turns, col.trace[|old(col.trace)|..], col.State(), end)
  {
    var open := HasUnsettled(col.State(), retryAbsent);
    var allowed := col.complete && col.settled && !open;
    ghost var trail;
    end, trail := WalkPages(cfg, retryAbsent, allowed, col, script);
    turns := trail.turns;
    assert trail.ops + [] == trail.ops && col.trace[|old(col.trace)|..] == trail.ops;
  }

  method WalkPages(cfg: Config, retryAbsent: bool, allowed: bool, col: Collection, script: seq<Fetch>)
    returns (end: End, ghost trail: Trail)
    requires allowed == StopAllowed(col.State(), retryAbsent)
    modifies col
    ensures col.trace == old(col.trace) + trail.ops && exists n, w ::
              OnWay(cfg, retryAbsent, old(col.State()), script, n, trail, w, col.State(), Some(end))
  {
    ghost var c0 := col.State();
    OnWayStarts(cfg, retryAbsent, c0, script);
    hide OnWay, StopAllowed;
    var w, verdict, pageNum := START, None, 0;
    trail := Trail([], [], WalkRun(cfg, retryAbsent, c0, script));
    assert col.trace + [] == col.trace;
    while verdict.None? && pageNum < |script|
      invariant 0 <= pageNum <= |script| && col.trace == old(col.trace) + trail.ops
      invariant OnWay(cfg, retryAbsent, c0, script, pageNum, trail, w, col.State(), verdict)
      decreases verdict.None?, |script| - pageNum
    {
      var page := script[pageNum];
      if page.Failed? {
        OnWayEnds(cfg, retryAbsent, c0, script, pageNum, trail, w, col.State());
        verdict := Some(PageError);
      } else {
        w, verdict, trail := StepPage(cfg, retryAbsent, allowed, col, w, page, script, pageNum, c0, trail, old(col.trace));
        pageNum := pageNum + 1;
      }
    }
    if verdict.None? { OnWayEnds(cfg, retryAbsent, c0, script, pageNum, trail, w, col.State()); }
    end := if verdict.Some? then verdict.value else Unfinished;
  }

  /** One turn of the page loop. */
  method StepPage(cfg: Config, retryAbsent: bool, allowed: bool, col: Collection, w: Progress, page: Fetch,
                  ghost script: seq<Fetch>, ghost n: nat, ghost c0: Col, ghost trail: Trail, ghost was: seq<Op>)
    returns (next: Progress, verdict: Option<End>, ghost trail': Trail)
    requires n < |script| && script[n] == page && page.Page? && allowed == StopAllowed(c0, retryAbsent)
    requires OnWay(cfg, retryAbsent, c0, script, n, trail, w, col.State(), None) && col.trace == was + trail.ops
    modifies col
    ensures OnWay(cfg, retryAbsent, c0, script, n + 1, trail', next, col.State(), verdict) && col.trace == was + trail'.ops
  {
    OnWayTracks(cfg, retryAbsent, c0, script, n, trail, w, col.State());
    hide OnWay, StopAllowed, TurnOk, PageClosed, Moves, NextProgress, PageVerdict, PageOps, ApplyAll, Tracked, AllKept;
    ghost var t;
    next, verdict, t := col.VisitPage(cfg, retryAbsent, allowed, w, page, AllKept(trail.turns));
    trail' := OnWayMore(cfg, retryAbsent, c0, script, n, trail, w, t, next, col.State(), verdict);
    ConcatAssoc(was, trail.ops, PageOps(cfg, retryAbsent, allowed, t.state, w, page));
  }

  lemma OnWayTracks(cfg: Config, retryAbsent: bool, c0: Col, script: seq<Fetch>, n: nat, trail: Trail, w: Progress, c: Col)
    requires OnWay(cfg, retryAbsent, c0, script, n, trail, w, c, None)
    ensures Tracked(w, AllKept(trail.turns))
  {
    hide Tracked, AllKept, TurnsOk, Through, AnyMoved;
  }

  /** Unrolls one fetched page of a walk. */
  lemma AfterPage(cfg: Config, retryAbsent: bool, allowed: bool, c: Col, w: Progress, script: seq<Fetch>)
    returns (rest: Run)
    requires script != [] && script[0].Page?
    ensures
      var ops := PageOps(cfg, retryAbsent, allowed, c, w, script[0]);
      var verdict := PageVerdict(cfg, retryAbsent, allowed, c, w, script[0]);
      var whole := WalkFrom(cfg, retryAbsent, allowed, c, w, script);
      && whole == Run(ops + rest.ops, rest.end)
      && (verdict.Some? ==> rest == Run([], verdict.value))
      && (verdict.None? ==> rest == WalkFrom(cfg, retryAbsent, allowed, ApplyAll(c, ops),
                                             NextProgress(cfg, allowed, c, w, script[0]), script[1..]))
  {
    var ops := PageOps(cfg, retryAbsent, allowed, c, w, script[0]);
    var verdict := PageVerdict(cfg, retryAbsent, allowed, c, w, script[0]);
    if verdict.Some? {
      rest := Run([], verdict.value);
      assert ops + [] == ops;
    } else {
      rest := WalkFrom(cfg, retryAbsent, allowed, ApplyAll(c, ops),
                       NextProgress(cfg, allowed, c, w, script[0]), script[1..]);
    }
  }
}
