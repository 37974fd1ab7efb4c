/** Historical spellings of a path under rename aliases (pkg/collect/sync.go,
    `aliasRewrites`): a bounded breadth-first search over prefix substitutions. */
module Renames {
  import opened Records

  /** Aliases, each naming the path that owns what it links to. */
  type Aliases = map<Path, Path>

  /** Rewrites an owner prefix back to the alias: only strictly beneath it, and
      never for the archive root, whose relative name prefixes nothing. */
  function Substitute(aliases: Aliases, alias: Path, p: Path): Option<Path>
    requires alias in aliases
  {
    var owner := aliases[alias];
    if owner != [] && owner < p then Some(alias + p[|owner|..]) else None
  }

  ghost predicate OneStep(aliases: Aliases, p: Path, q: Path) {
    exists alias, rest ::
      alias in aliases && aliases[alias] != [] && rest != [] && p == aliases[alias] + rest && q == alias + rest
  }

  /** Trying the aliases one by one finds exactly the one-step spellings. */
  lemma OneStepIs(aliases: Aliases, p: Path, q: Path)
    ensures OneStep(aliases, p, q) <==> exists alias :: alias in aliases && Substitute(aliases, alias, p) == Some(q)
  {
    if OneStep(aliases, p, q) {
      var alias, rest :| alias in aliases && aliases[alias] != [] && rest != [] && p == aliases[alias] + rest && q == alias + rest;
      assert p[|aliases[alias]|..] == rest && Substitute(aliases, alias, p) == Some(q);
    }
    if alias :| alias in aliases && Substitute(aliases, alias, p) == Some(q) {
      assert p == aliases[alias] + p[|aliases[alias]|..];
    }
  }

  /** `q` spells `p` after exactly `k` substitutions. */
  ghost predicate Spells(aliases: Aliases, k: nat, p: Path, q: Path) {
    if k == 0 then p == q
    else exists m :: Spells(aliases, k - 1, p, m) && OneStep(aliases, m, q)
  }

  function Successors(aliases: Aliases, s: set<Path>): set<Path> {
    set p, alias | p in s && alias in aliases && Substitute(aliases, alias, p).Some? ::
      Substitute(aliases, alias, p).value
  }

  /** Every spelling within `k` substitutions. */
  function Within(aliases: Aliases, k: nat, p: Path): set<Path> {
    if k == 0 then {p} else Within(aliases, k - 1, p) + Successors(aliases, Within(aliases, k - 1, p))
  }

  lemma SuccessorsAre(aliases: Aliases, s: set<Path>, q: Path)
    ensures q in Successors(aliases, s) <==> exists p :: p in s && OneStep(aliases, p, q)
  {
    forall p ensures OneStep(aliases, p, q) <==> exists alias :: alias in aliases && Substitute(aliases, alias, p) == Some(q) {
      OneStepIs(aliases, p, q);
    }
    hide OneStep;
    if p :| p in s && OneStep(aliases, p, q) {
      var alias :| alias in aliases && Substitute(aliases, alias, p) == Some(q);
    }
  }

  lemma {:induction false} SpelledWithin(aliases: Aliases, j: nat, k: nat, p: Path, q: Path)
    requires j <= k && Spells(aliases, j, p, q)
    ensures q in Within(aliases, k, p)
    decreases k
  {
    hide OneStep, Successors, Substitute;
    if j < k {
      SpelledWithin(aliases, j, k - 1, p, q);
    } else if k > 0 {
      var m :| Spells(aliases, k - 1, p, m) && OneStep(aliases, m, q);
      SpelledWithin(aliases, k - 1, k - 1, p, m);
      SuccessorsAre(aliases, Within(aliases, k - 1, p), q);
    }
  }

  lemma {:induction false} WithinSpells(aliases: Aliases, k: nat, p: Path, q: Path) returns (j: nat)
    requires q in Within(aliases, k, p)
    ensures j <= k && Spells(aliases, j, p, q)
  {
    hide OneStep, Successors, Substitute;
    if k == 0 {
      j := 0;
    } else if q in Within(aliases, k - 1, p) {
      j := WithinSpells(aliases, k - 1, p, q);
    } else {
      SuccessorsAre(aliases, Within(aliases, k - 1, p), q);
      var m :| m in Within(aliases, k - 1, p) && OneStep(aliases, m, q);
      j := WithinSpells(aliases, k - 1, p, m);
      hide Within;
      j := j + 1;
      assert Spells(aliases, j - 1, p, m);
    }
  }

  /** `q` is another spelling of `p`, at most `n` substitutions away. */
  ghost predicate Respells(aliases: Aliases, n: nat, p: Path, q: Path) {
    q != p && exists k: nat :: 1 <= k <= n && Spells(aliases, k, p, q)
  }

  lemma {:induction false} WithinGrows(aliases: Aliases, j: nat, k: nat, p: Path)
    requires j <= k
    ensures Within(aliases, j, p) <= Within(aliases, k, p)
  {
    if j < k { WithinGrows(aliases, j, k - 1, p); }
  }

  /** Once a round adds nothing, no later round does. */
  lemma {:induction false} WithinSettles(aliases: Aliases, j: nat, k: nat, p: Path)
    requires j <= k && Within(aliases, j + 1, p) == Within(aliases, j, p)
    ensures Within(aliases, k, p) == Within(aliases, j, p)
  {
    if j < k { WithinSettles(aliases, j, k - 1, p); }
  }

  /** No spelling comes before one that takes fewer substitutions. */
  ghost predicate BreadthFirst(aliases: Aliases, p: Path, out: seq<Path>) {
    forall i, j, r: nat | 0 <= i < j < |out| && out[j] in Within(aliases, r, p) :: out[i] in Within(aliases, r, p)
  }

  ghost predicate NoRepeats<T>(s: seq<T>) {
    forall i, j | 0 <= i < j < |s| :: s[i] != s[j]
  }

  function Elements<T>(s: seq<T>): set<T> {
    set x | x in s
  }

  /** One candidate, met from `cur`. */
  lemma Meet(aliases: Aliases, p: Path, round: nat, out: seq<Path>, candidate: Path, cur: Path)
    requires NoRepeats(out) && BreadthFirst(aliases, p, out) && candidate !in out
    requires Elements(out) <= Within(aliases, round + 1, p) && candidate !in Within(aliases, round, p)
    ensures NoRepeats(out + [candidate]) && BreadthFirst(aliases, p, out + [candidate])
  {
    var all := out + [candidate];
    forall i, r: nat | 0 <= i < |out| && candidate in Within(aliases, r, p) ensures out[i] in Within(aliases, r, p) {
      if r <= round { WithinGrows(aliases, r, round, p); }
      WithinGrows(aliases, round + 1, if r > round then r else round + 1, p);
      assert out[i] in Elements(out);
    }
  }

  /** Every spelling other than the path itself that 1 to N substitutions reach,
      N being the number of aliases: each once, fewest substitutions first. */
  method AliasRewrites(aliases: Aliases, sorted: seq<Path>, p: Path) returns (out: seq<Path>)
    requires Elements(sorted) == aliases.Keys && |sorted| == |aliases|
    ensures forall q :: q in out <==> Respells(aliases, |aliases|, p, q)
    ensures NoRepeats(out) && BreadthFirst(aliases, p, out)
  {
    hide Spells, Within;
    var seen, queue, round := {p}, [p], 0;
    out := [];
    Begin(aliases, p);
    while round < |sorted| && |queue| > 0
      invariant 0 <= round <= |sorted| && seen == Within(aliases, round, p) && Elements(out) == seen - {p}
      invariant NoRepeats(out) && BreadthFirst(aliases, p, out)
      invariant Successors(aliases, seen - Elements(queue)) <= seen && Elements(queue) <= seen
      decreases |sorted| - round
    {
      seen, out, queue := Round(aliases, sorted, p, round, seen, out, queue);
      round := round + 1;
    }
    Ends(aliases, p, round, |sorted|, queue);
    hide Respells;
    forall q ensures q in out <==> Respells(aliases, |aliases|, p, q) {
      assert q in out <==> q in Elements(out);
      AtLeastOnce(aliases, p, q);
    }
  }

  lemma Begin(aliases: Aliases, p: Path)
    ensures Within(aliases, 0, p) == {p} && Elements([p]) == {p} && {p} - {p} == {} && Successors(aliases, {}) == {}
  {
  }

  lemma AtLeastOnce(aliases: Aliases, p: Path, q: Path)
    ensures q in Within(aliases, |aliases|, p) && q != p <==> Respells(aliases, |aliases|, p, q)
  {
    if q in Within(aliases, |aliases|, p) && q != p {
      var j := WithinSpells(aliases, |aliases|, p, q);
      assert j > 0;
    }
    if Respells(aliases, |aliases|, p, q) {
      var k: nat :| 1 <= k <= |aliases| && Spells(aliases, k, p, q);
      SpelledWithin(aliases, k, |aliases|, p, q);
    }
  }

  /** Another spelling lies strictly beneath an alias and keeps the path's own
      name. */
  lemma RespelledBeneath(aliases: Aliases, n: nat, p: Path, q: Path) returns (alias: Path)
    requires Respells(aliases, n, p, q)
    ensures alias in aliases && alias < q
    ensures p != [] ==> q[|q| - 1] == p[|p| - 1]
  {
    var k: nat :| 1 <= k <= n && Spells(aliases, k, p, q);
    alias := SpelledBeneath(aliases, k, p, q);
  }

  lemma {:induction false} SpelledBeneath(aliases: Aliases, k: nat, p: Path, q: Path) returns (alias: Path)
    requires k > 0 && Spells(aliases, k, p, q)
    ensures alias in aliases && alias < q
    ensures p != [] ==> q[|q| - 1] == p[|p| - 1]
  {
    var m :| Spells(aliases, k - 1, p, m) && OneStep(aliases, m, q);
    OneStepIs(aliases, m, q);
    alias :| alias in aliases && Substitute(aliases, alias, m) == Some(q);
    if k > 1 { var _ := SpelledBeneath(aliases, k - 1, p, m); }
  }

  /** A search that runs dry has found everything. */
  lemma Ends(aliases: Aliases, p: Path, round: nat, n: nat, queue: seq<Path>)
    requires round <= n && (round == n || queue == [])
    requires Successors(aliases, Within(aliases, round, p) - Elements(queue)) <= Within(aliases, round, p)
    ensures Within(aliases, n, p) == Within(aliases, round, p)
  {
    if round < n {
      assert Within(aliases, round, p) - Elements(queue) == Within(aliases, round, p);
      WithinSettles(aliases, round, n, p);
    }
  }

  /** One round: every alias tried on every path the last round found. */
  method Round(aliases: Aliases, sorted: seq<Path>, p: Path, ghost round: nat, seen: set<Path>, out: seq<Path>,
               level: seq<Path>) returns (seen': set<Path>, out': seq<Path>, queue: seq<Path>)
    requires Elements(sorted) == aliases.Keys && seen == Within(aliases, round, p) && Elements(out) == seen - {p}
    requires NoRepeats(out) && BreadthFirst(aliases, p, out)
    requires Successors(aliases, seen - Elements(level)) <= seen && Elements(level) <= seen
    ensures seen' == Within(aliases, round + 1, p) && Elements(out') == seen' - {p}
    ensures NoRepeats(out') && BreadthFirst(aliases, p, out')
    ensures Successors(aliases, seen' - Elements(queue)) <= seen' && Elements(queue) <= seen'
  {
    hide Within, BreadthFirst, NoRepeats;
    seen', out', queue := seen, out, [];
    assert seen <= Within(aliases, round + 1, p) by { WithinGrows(aliases, round, round + 1, p); }
    for i := 0 to |level|
      invariant seen' == seen + Successors(aliases, Elements(level[..i])) && seen' <= Within(aliases, round + 1, p)
      invariant Elements(out') == seen' - {p} && Elements(queue) == seen' - seen
      invariant NoRepeats(out') && BreadthFirst(aliases, p, out')
    {
      seen', out', queue := Expand(aliases, sorted, p, round, seen, level[i], seen', out', queue);
      OneMore(aliases, level, i);
    }
    assert level[..|level|] == level;
    RoundEnds(aliases, p, round, seen, level, seen');
    assert seen' - Elements(queue) == seen;
  }

  lemma OneMore(aliases: Aliases, level: seq<Path>, i: nat)
    requires i < |level|
    ensures Successors(aliases, Elements(level[..i + 1]))
            == Successors(aliases, Elements(level[..i])) + Successors(aliases, {level[i]})
  {
    assert Elements(level[..i + 1]) == Elements(level[..i]) + {level[i]};
  }

  lemma RoundEnds(aliases: Aliases, p: Path, round: nat, seen: set<Path>, level: seq<Path>, seen': set<Path>)
    requires seen == Within(aliases, round, p) && Elements(level) <= seen
    requires Successors(aliases, seen - Elements(level)) <= seen
    requires seen' == seen + Successors(aliases, Elements(level))
    ensures seen' == Within(aliases, round + 1, p) && Successors(aliases, seen) <= seen'
  {
    assert (seen - Elements(level)) + Elements(level) == seen;
    assert Successors(aliases, seen) == Successors(aliases, seen - Elements(level)) + Successors(aliases, Elements(level));
  }

  /** Every alias tried on one path. */
  method Expand(aliases: Aliases, sorted: seq<Path>, p: Path, ghost round: nat, ghost base: set<Path>, cur: Path,
                seen: set<Path>, out: seq<Path>, queue: seq<Path>)
    returns (seen': set<Path>, out': seq<Path>, queue': seq<Path>)
    requires Elements(sorted) == aliases.Keys && base == Within(aliases, round, p) && cur in base && base <= seen
    requires Elements(out) == seen - {p} && Elements(queue) == seen - base && seen <= Within(aliases, round + 1, p)
    requires NoRepeats(out) && BreadthFirst(aliases, p, out)
    ensures seen' == seen + Successors(aliases, {cur}) && seen' <= Within(aliases, round + 1, p)
    ensures Elements(out') == seen' - {p} && Elements(queue') == seen' - base
    ensures NoRepeats(out') && BreadthFirst(aliases, p, out')
  {
    hide BreadthFirst, NoRepeats;
    seen', out', queue' := seen, out, queue;
    NextRound(aliases, p, round, cur);
    hide Within;
    for i := 0 to |sorted|
      invariant seen' == seen + Tried(aliases, sorted[..i], cur)
      invariant seen' <= Within(aliases, round + 1, p)
      invariant Elements(out') == seen' - {p} && Elements(queue') == seen' - base
      invariant NoRepeats(out') && BreadthFirst(aliases, p, out')
    {
      assert sorted[i] in Elements(sorted);
      TriedMore(aliases, sorted, i, cur);
      var candidate := Substitute(aliases, sorted[i], cur);
      if candidate.Some? && candidate.value !in seen' {
        assert candidate.value in Successors(aliases, {cur});
        assert candidate.value !in Elements(out');
        Meet(aliases, p, round, out', candidate.value, cur);
        ElementsPush(out', candidate.value);
        ElementsPush(queue', candidate.value);
        seen', out', queue' := seen' + {candidate.value}, out' + [candidate.value], queue' + [candidate.value];
      }
    }
    assert sorted[..|sorted|] == sorted;
    TriedAll(aliases, sorted, cur);
  }

  lemma ElementsPush<T>(s: seq<T>, x: T)
    ensures Elements(s + [x]) == Elements(s) + {x}
  {
  }

  lemma NextRound(aliases: Aliases, p: Path, round: nat, cur: Path)
    requires cur in Within(aliases, round, p)
    ensures Successors(aliases, {cur}) <= Within(aliases, round + 1, p)
    ensures p in Within(aliases, round, p)
  {
    WithinGrows(aliases, 0, round, p);
  }

  ghost function Tried(aliases: Aliases, some: seq<Path>, cur: Path): set<Path> {
    set alias | alias in some && alias in aliases && Substitute(aliases, alias, cur).Some? ::
      Substitute(aliases, alias, cur).value
  }

  lemma TriedMore(aliases: Aliases, sorted: seq<Path>, i: nat, cur: Path)
    requires i < |sorted| && sorted[i] in aliases
    ensures
      var c := Substitute(aliases, sorted[i], cur);
      Tried(aliases, sorted[..i + 1], cur) == Tried(aliases, sorted[..i], cur) + if c.Some? then {c.value} else {}
  {
    assert sorted[..i + 1] == sorted[..i] + [sorted[i]];
  }

  lemma TriedAll(aliases: Aliases, sorted: seq<Path>, cur: Path)
    requires Elements(sorted) == aliases.Keys
    ensures Tried(aliases, sorted, cur) == Successors(aliases, {cur})
  {
    assert forall alias :: alias in sorted <==> alias in Elements(sorted);
  }
}
