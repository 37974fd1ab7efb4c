/** Log records, their durability classes and the replay that folds them back
    into ledger state (pkg/manifest/wal.go, pkg/manifest/shard.go).

    A shard's four keyed maps and its run metadata are one map here, from a
    `Cell` (which map, which key) to a `Value`.  Every log record is then an
    upsert of one cell. */
module Records {
  import opened Statuses

  /** An archive-relative key, split at its slashes. */
  type Path = seq<string>

  /** The canonical identity of a shard's directory. */
  type Phys = seq<string>

  datatype Option<+T> = None | Some(value: T)

  /** `terminal` and `mirrored` are history variables: whether the upstream
      element was terminal when its bytes were archived, and, on a reference
      gate, how often each mirrored object had been recorded when the gate
      settled.  Every other detail of an entry is its `attempts`-th rewrite. */
  datatype Entry = Entry(status: Status, attempts: nat, terminal: bool, mirrored: map<Path, nat>)

  datatype Cell =
    | EntryCell(path: Path)
    | MarkCell(key: Path)
    | CompletedCell(key: Path)
    | SettledCell(key: Path)
    | RunCell

  datatype Value =
    | EntryVal(entry: Entry)
    | MarkVal(at: int)
    | CompletedVal
    | SettledVal(settled: bool)
    | RunVal(count: nat)

  predicate Typed(c: Cell, v: Value) {
    match c
    case EntryCell(_) => v.EntryVal?
    case MarkCell(_) => v.MarkVal?
    case CompletedCell(_) => v.CompletedVal?
    case SettledCell(_) => v.SettledVal?
    case RunCell => v.RunVal?
  }

  /** One line of the log: the shard tag it was drained under, and its upsert. */
  datatype Rec = Rec(shard: Path, cell: Cell, val: Value)

  /** The shard that owns a key: a workspace or stack subtree, the
      configuration versions, or the organization root (the empty key). */
  function ShardKey(key: Path): Path {
    if |key| >= 4 && key[0] == "projects" && (key[2] == "workspaces" || key[2] == "stacks")
    then key[..4]
    else if |key| > 0 && key[0] == "config-versions" then ["config-versions"]
    else []
  }

  /** A workspace, a stack and the configuration versions each have a shard, which
      holds everything at or beneath them. */
  lemma ShardKeyIs(project: string, kind: string, name: string, rest: Path)
    requires kind in {"workspaces", "stacks"}
    ensures ShardKey(["projects", project, kind, name] + rest) == ["projects", project, kind, name]
    ensures ShardKey(["config-versions"] + rest) == ["config-versions"]
  {
  }

  /** Every other key is in the root shard. */
  lemma ShardKeyElse(key: Path)
    ensures
      var sk := ShardKey(key);
      sk <= key && (sk in {[], ["config-versions"]} || (|sk| == 4 && sk[0] == "projects" && sk[2] in {"workspaces", "stacks"}))
  {
  }

  /** The shard a cell's own payload routes to. */
  function OwnShardKey(c: Cell): Path {
    match c
    case EntryCell(p) => ShardKey(p)
    case MarkCell(k) => ShardKey(k)
    case CompletedCell(k) => ShardKey(k)
    case SettledCell(k) => ShardKey(k)
    case RunCell => []
  }

  /** The durability rank of a record within one appended batch. */
  function Class(v: Value): (c: nat)
    ensures c <= 4
  {
    match v
    case SettledVal(s) => if s then 3 else 0
    case EntryVal(e) =>
      if !e.status.Settled() then 1
      else if e.status.IsGate() then 3
      else 2
    case MarkVal(_) => 3
    case CompletedVal => 3
    case RunVal(_) => 4
  }

  // ------------------------------------------------------------- flat states

  /** A cell of a given shard directory. */
  datatype Key = Key(phys: Phys, cell: Cell)

  type State = map<Key, Value>

  datatype Upsert = Upsert(key: Key, val: Value)

  function At<K, V>(m: map<K, V>, k: K): Option<V> {
    if k in m then Some(m[k]) else None
  }

  /** Applies upserts oldest first. */
  function Replay(base: State, us: seq<Upsert>): State {
    if us == [] then base
    else Replay(base, us[..|us| - 1])[us[|us| - 1].key := us[|us| - 1].val]
  }

  /** The newest value the upserts give a key. */
  function LastOf(us: seq<Upsert>, k: Key): Option<Value> {
    if us == [] then None
    else if us[|us| - 1].key == k then Some(us[|us| - 1].val)
    else LastOf(us[..|us| - 1], k)
  }

  lemma {:induction false} ReplayAt(base: State, us: seq<Upsert>, k: Key)
    ensures At(Replay(base, us), k) == (if LastOf(us, k).Some? then LastOf(us, k) else At(base, k))
  {
    if us != [] {
      ReplayAt(base, us[..|us| - 1], k);
    }
  }

  lemma {:induction false} ReplayConcat(base: State, a: seq<Upsert>, b: seq<Upsert>)
    ensures Replay(base, a + b) == Replay(Replay(base, a), b)
  {
    if b == [] {
      assert a + b == a;
    } else {
      assert (a + b)[..|a + b| - 1] == a + b[..|b| - 1];
      ReplayConcat(base, a, b[..|b| - 1]);
    }
  }

  lemma {:induction false} LastOfSome(us: seq<Upsert>, k: Key) returns (i: nat)
    requires LastOf(us, k).Some?
    ensures i < |us| && us[i] == Upsert(k, LastOf(us, k).value)
    ensures forall j :: i < j < |us| ==> us[j].key != k
  {
    if us[|us| - 1].key == k {
      i := |us| - 1;
    } else {
      i := LastOfSome(us[..|us| - 1], k);
    }
  }

  lemma {:induction false} LastOfNone(us: seq<Upsert>, k: Key)
    requires LastOf(us, k).None?
    ensures forall j :: 0 <= j < |us| ==> us[j].key != k
  {
    if us != [] {
      LastOfNone(us[..|us| - 1], k);
    }
  }

  lemma StatesEqual(a: State, b: State)
    requires forall k :: At(a, k) == At(b, k)
    ensures a == b
  {
    forall k ensures k in a <==> k in b {
      assert At(a, k) == At(b, k);
    }
    forall k | k in a ensures a[k] == b[k] {
      assert At(a, k) == At(b, k);
    }
  }

  /** Replaying a log over snapshots some of which already hold what the log
      says changes nothing: `mixed` is any mix, key by key, of the old snapshot
      and the fully replayed state. */
  lemma ReplayOverMixedSnapshots(before: State, mixed: State, us: seq<Upsert>)
    requires forall k :: At(mixed, k) == At(before, k) || At(mixed, k) == At(Replay(before, us), k)
    ensures Replay(mixed, us) == Replay(before, us)
  {
    forall k ensures At(Replay(mixed, us), k) == At(Replay(before, us), k) {
      ReplayAt(mixed, us, k);
      ReplayAt(before, us, k);
    }
    StatesEqual(Replay(mixed, us), Replay(before, us));
  }

  // --------------------------------------------------------- the stable sort

  /** The records of one class, in their given order. */
  function OfClass(us: seq<Rec>, c: nat): (r: seq<Rec>) {
    if us == [] then []
    else OfClass(us[..|us| - 1], c) + (if Class(us[|us| - 1].val) == c then [us[|us| - 1]] else [])
  }

  /** A stable sort by class: there are five classes. */
  function ByClass(us: seq<Rec>): seq<Rec> {
    OfClass(us, 0) + OfClass(us, 1) + OfClass(us, 2) + OfClass(us, 3) + OfClass(us, 4)
  }

  predicate Sorted(us: seq<Rec>) {
    forall i, j :: 0 <= i < j < |us| ==> Class(us[i].val) <= Class(us[j].val)
  }

  lemma {:induction false} OfClassMembers(us: seq<Rec>, c: nat)
    ensures forall r :: r in OfClass(us, c) <==> r in us && Class(r.val) == c
    ensures multiset(OfClass(us, c)) <= multiset(us)
  {
    if us != [] {
      OfClassMembers(us[..|us| - 1], c);
      assert us == us[..|us| - 1] + [us[|us| - 1]];
    }
  }

  lemma {:induction false} OfClassCount(us: seq<Rec>, c: nat, r: Rec)
    ensures multiset(OfClass(us, c))[r] == if Class(r.val) == c then multiset(us)[r] else 0
  {
    if us != [] {
      OfClassCount(us[..|us| - 1], c, r);
      assert us == us[..|us| - 1] + [us[|us| - 1]];
    }
  }

  lemma ByClassCount(us: seq<Rec>)
    ensures multiset(ByClass(us)) == multiset(us)
  {
    hide OfClass;
    forall r ensures multiset(ByClass(us))[r] == multiset(us)[r] {
      OfClassCount(us, 0, r); OfClassCount(us, 1, r); OfClassCount(us, 2, r); OfClassCount(us, 3, r); OfClassCount(us, 4, r);
    }
  }

  /** The merged batch is in class order and holds exactly the drained records. */
  lemma ByClassSorts(us: seq<Rec>)
    ensures Sorted(ByClass(us))
    ensures multiset(ByClass(us)) == multiset(us)
    ensures forall r :: r in ByClass(us) <==> r in us
  {
    ByClassCount(us);
    var b := ByClass(us);
    forall r ensures r in b <==> r in us {
      assert r in b <==> r in multiset(b);
      assert r in us <==> r in multiset(us);
    }
    OfClassMembers(us, 0); OfClassMembers(us, 1); OfClassMembers(us, 2);
    OfClassMembers(us, 3); OfClassMembers(us, 4);
    SortedParts(OfClass(us, 0), OfClass(us, 1), OfClass(us, 2), OfClass(us, 3), OfClass(us, 4));
  }

  /** Within one class the merged batch keeps the drained order. */
  lemma ByClassStable(us: seq<Rec>, c: nat)
    requires c <= 4
    ensures OfClass(ByClass(us), c) == OfClass(us, c)
  {
    var ab, abc, abcd := OfClass(us, 0) + OfClass(us, 1), OfClass(us, 0) + OfClass(us, 1) + OfClass(us, 2),
      OfClass(us, 0) + OfClass(us, 1) + OfClass(us, 2) + OfClass(us, 3);
    assert OfClass(ab, c) == (if c <= 1 then OfClass(us, c) else []) by {
      OfClassConcat(OfClass(us, 0), OfClass(us, 1), c);
      OfClassOfClass(us, 0, c); OfClassOfClass(us, 1, c);
    }
    assert OfClass(abc, c) == (if c <= 2 then OfClass(us, c) else []) by {
      OfClassConcat(ab, OfClass(us, 2), c);
      OfClassOfClass(us, 2, c);
    }
    assert OfClass(abcd, c) == (if c <= 3 then OfClass(us, c) else []) by {
      OfClassConcat(abc, OfClass(us, 3), c);
      OfClassOfClass(us, 3, c);
    }
    OfClassConcat(abcd, OfClass(us, 4), c);
    OfClassOfClass(us, 4, c);
  }

  lemma {:induction false} OfClassOfClass(us: seq<Rec>, own: nat, c: nat)
    ensures OfClass(OfClass(us, own), c) == if c == own then OfClass(us, own) else []
  {
    if us != [] {
      var r := us[|us| - 1];
      OfClassOfClass(us[..|us| - 1], own, c);
      if Class(r.val) == own {
        OfClassConcat(OfClass(us[..|us| - 1], own), [r], c);
        assert [r][..0] == [];
      } else {
        assert OfClass(us, own) == OfClass(us[..|us| - 1], own);
      }
    }
  }

  lemma SortedParts(a: seq<Rec>, b: seq<Rec>, c: seq<Rec>, d: seq<Rec>, e: seq<Rec>)
    requires forall r | r in a :: Class(r.val) == 0
    requires forall r | r in b :: Class(r.val) == 1
    requires forall r | r in c :: Class(r.val) == 2
    requires forall r | r in d :: Class(r.val) == 3
    requires forall r | r in e :: Class(r.val) == 4
    ensures Sorted(a + b + c + d + e)
  {
    SortedConcat(a, b, 0);
    SortedConcat(a + b, c, 1);
    SortedConcat(a + b + c, d, 2);
    SortedConcat(a + b + c + d, e, 3);
  }

  lemma SortedConcat(a: seq<Rec>, b: seq<Rec>, c: nat)
    requires Sorted(a) && forall r | r in a :: Class(r.val) <= c
    requires forall r | r in b :: Class(r.val) == c + 1
    ensures Sorted(a + b)
    ensures forall r | r in a + b :: Class(r.val) <= c + 1
  {
    var s := a + b;
    forall i, j | 0 <= i < j < |s| ensures Class(s[i].val) <= Class(s[j].val) {
      assert s[i] in s && s[j] in s;
      assert i < |a| ==> s[i] in a;
      assert i >= |a| ==> s[i] in b;
      assert j < |a| ==> s[j] in a;
      assert j >= |a| ==> s[j] in b;
    }
  }

  lemma {:induction false} OfClassConcat(a: seq<Rec>, b: seq<Rec>, c: nat)
    ensures OfClass(a + b, c) == OfClass(a, c) + OfClass(b, c)
  {
    if b == [] {
      assert a + b == a;
    } else {
      assert (a + b)[..|a + b| - 1] == a + b[..|b| - 1];
      OfClassConcat(a, b[..|b| - 1], c);
    }
  }
}
