/** Archiving one object (pkg/collect/archive.go over pkg/store): its history, its
    file and its ledger entry, written in that order, so a done entry never
    outruns the bytes it is done with. */
module Archives {
  import opened Records
  import opened AppendLogs
  import opened Histories
  import opened Timelines

  datatype Outcome = Done(content: Content) | Absent | Denied | Errored

  /** How a fetch ends, a disappearance already confirmed by a second probe. */
  datatype Fetched = Payload(content: Content) | Gone | Refused | Broken | Canceled

  datatype Committed = Unwritten | NotClosed | Whole

  /** How the writes of one attempt end. */
  datatype Writes = Writes(supersede: Ending, replace: bool, restore: Ending, flush: Ending, mark: Ending)

  predicate Plausible(w: Writes) {
    Torn(w.supersede) && Torn(w.restore) && Torn(w.flush) && Torn(w.mark)
  }

  /** Some part of a commit, in order: all of it is there on success, and the new
      content on any outcome but a failure. */
  ghost predicate Commits(utf8: Content -> bool, k: Kept, data: Content, at: int, now: int, k': Kept, r: Committed) {
    exists steps: nat ::
      && k' == Committing(utf8, k, data, at, now, steps)
      && (r.Whole? ==> steps == 3) && (r.NotClosed? ==> steps >= 2) && (r.Unwritten? ==> steps <= 1)
  }

  ghost predicate Buries(utf8: Content -> bool, k: Kept, at: int, gone: int, k': Kept, ok: bool) {
    exists steps: nat :: k' == BuryingFile(utf8, k, at, gone, steps) && (ok ==> steps == 2)
  }

  /** A plain commit keeps only the current content. */
  ghost predicate Replaces(k: Kept, data: Content, k': Kept, r: Committed) {
    && k'.side == k.side
    && (r.Unwritten? ==> k' == k)
    && (!r.Unwritten? ==> k'.file == Some(data) && k'.versions == if k.file == Some(data) then k.versions else k.versions + [data])
  }

  ghost predicate Stores(utf8: Content -> bool, history: bool, k: Kept, data: Content, at: int, now: int, k': Kept, r: Committed) {
    if history then Commits(utf8, k, data, at, now, k', r) else Replaces(k, data, k', r)
  }

  /** Recorded done with exactly this content while the file is gone: its bytes
      were sealed into another form. */
  predicate SealedElsewhere(k: Kept, e: Option<Outcome>, data: Content) {
    e == Some(Done(data)) && k.file.None?
  }

  /** What an attempt that ran to its end did: the entry is done exactly when the
      payload is in the file, absent only behind its tombstone, and untouched by a
      cancellation. */
  ghost predicate Attempted(utf8: Content -> bool, history: bool, k: Kept, e: Option<Outcome>, fetch: Fetched, at: int, now: int,
                            k': Kept, e': Option<Outcome>) {
    match fetch
    case Canceled => k' == k && e' == e
    case Refused => k' == k && e' == Some(Denied)
    case Broken => k' == k && e' == Some(Errored)
    case Gone => e' == Some(Absent) && if history then exists ok :: Buries(utf8, k, at, now, k', ok) else k' == k
    case Payload(data) =>
      || (SealedElsewhere(k, e, data) && k' == k && e' == e)
      || exists r :: Stores(utf8, history, k, data, at, now, k', r) && e' == Some(if r.Unwritten? then Errored else Done(data))
  }

  /** A tombstone is newest, over the file's last content if that can be recorded;
      with nothing to record there is no tombstone either. */
  predicate Tombstoned(utf8: Content -> bool, k: Kept) {
    var keepable := k.file.Some? && Recordable(utf8, k.file.value);
    if k.side == [] then !keepable
    else k.side[|k.side| - 1].Tombstone? && (keepable ==> NewestVersion(k.side) == k.file)
  }

  lemma BuriedWhole(utf8: Content -> bool, k: Kept, at: int, gone: int, k': Kept)
    requires Buries(utf8, k, at, gone, k', true)
    ensures Tombstoned(utf8, k')
  {
    assert k' == BuryingFile(utf8, k, at, gone, 2);
    var content := ToBury(utf8, k);
    var flushed := if content.Some? then Superseding(utf8, k.side, content.value, at) else k.side;
    if k'.side != k.side {
      assert k'.side[..|k'.side| - 1] == flushed;
      if flushed != k.side { assert flushed[..|flushed| - 1] == k.side; }
    }
  }

  /** No tombstone is newest; where one was, the content that came back is. */
  predicate Alive(utf8: Content -> bool, k: Kept, data: Content, k': Kept) {
    && (k'.side != [] ==> k'.side[|k'.side| - 1].Version?)
    && (k.side != [] && k.side[|k.side| - 1].Tombstone? ==>
          NewestVersion(k'.side) == Some(data) || NewestVersion(k'.side) == k.file)
  }

  lemma CommittedAlive(utf8: Content -> bool, k: Kept, data: Content, at: int, now: int, k': Kept)
    requires Commits(utf8, k, data, at, now, k', Whole) && Recordable(utf8, data)
    ensures Alive(utf8, k, data, k')
  {
    assert k' == Committing(utf8, k, data, at, now, 3);
  }

  class Shelf {
    const side: Sidecar
    var file: Option<Content>
    ghost var versions: seq<Content>
    var entry: Option<Outcome>

    constructor (side: Sidecar)
      ensures this.side == side && file == None && versions == [] && entry == None
    {
      this.side := side;
      file, versions, entry := None, [], None;
    }

    ghost predicate Valid() {
      Faithful(side.codec)
    }

    ghost function K(): Kept
      reads this, side
    {
      Kept(side.Records(), file, versions)
    }

    /** Commits a payload: the outgoing content is superseded before the file is
        replaced, and a trailing tombstone closed after it. */
    method WriteJSONBytes(data: Content, at: int, now: int, w: Writes) returns (r: Committed)
      requires Valid() && Plausible(w)
      modifies this`file, this`versions, side
      ensures Commits(side.utf8, old(K()), data, at, now, K(), r)
      ensures !r.Unwritten? ==> file == Some(data)
      ensures r.Whole? && Recordable(side.utf8, data) ==> Alive(side.utf8, old(K()), data, K())
      ensures w.supersede.Written? && w.replace ==> !r.Unwritten? && (w.restore.Written? && side.utf8(data) ==> r.Whole?)
    {
      ghost var k := K();
      var changed := file != Some(data);
      if changed && file.Some? && Recordable(side.utf8, file.value) {
        var _, failed := side.Supersede(file.value, at, w.supersede);
        if failed {
          assert K() == Committing(side.utf8, k, data, at, now, if side.Records() == k.side then 0 else 1);
          return Unwritten;
        }
      }
      assert K() == Committing(side.utf8, k, data, at, now, 1);
      if changed {
        if !w.replace { return Unwritten; }
        file := Some(data);
        versions := versions + [data];
      }
      assert K() == Committing(side.utf8, k, data, at, now, 2);
      ghost var replaced := K();
      var _, failed := side.Restore(data, now, w.restore);
      assert K() == Committing(side.utf8, k, data, at, now, if failed && K() == replaced then 2 else 3);
      r := if failed then NotClosed else Whole;
      if !failed && Recordable(side.utf8, data) { CommittedAlive(side.utf8, k, data, at, now, K()); }
    }

    /** Records a disappearance; the file stays. */
    method BuryHistory(at: int, gone: int, w: Writes) returns (ok: bool)
      requires Valid() && Plausible(w)
      modifies side
      ensures Buries(side.utf8, old(K()), at, gone, K(), ok)
      ensures w.flush.Written? && w.mark.Written? ==> ok
    {
      ghost var k := K();
      var content := if file.Some? && Recordable(side.utf8, file.value) then file else None;
      var _, failed := side.Bury(content, at, gone, w.flush, w.mark);
      ok := !failed;
      assert ok ==> K() == BuryingFile(side.utf8, k, at, gone, 2);
      assert K() == BuryingFile(side.utf8, k, at, gone, 0) || K() == BuryingFile(side.utf8, k, at, gone, 1)
             || K() == BuryingFile(side.utf8, k, at, gone, 2);
    }

    /** Replaces the file with nothing kept of what it held. */
    method WritePlain(data: Content, w: Writes) returns (r: Committed)
      modifies this`file, this`versions
      ensures Replaces(old(K()), data, K(), r) && (w.replace ==> !r.Unwritten?)
    {
      if file == Some(data) { return Whole; }
      if !w.replace { return Unwritten; }
      file := Some(data);
      versions := versions + [data];
      r := Whole;
    }

    /** Fetches, writes, and only then records; a disappearance is buried before
        it is recorded. */
    method ArchiveJSON(fetch: Fetched, history: bool, at: int, now: int, stat: bool, w: Writes)
      requires Valid() && Plausible(w)
      modifies this, side
      ensures Attempted(side.utf8, history, old(K()), old(entry), fetch, at, now, K(), entry)
      ensures fetch.Payload? && w.supersede.Written? && w.replace ==> entry == Some(Done(fetch.content))
      ensures fetch.Payload? && stat && SealedElsewhere(old(K()), old(entry), fetch.content) ==> K() == old(K()) && entry == old(entry)
      ensures fetch.Gone? && history && w.flush.Written? && w.mark.Written? ==> Tombstoned(side.utf8, K())
    {
      match fetch {
        case Canceled =>
        case Refused => entry := Some(Denied);
        case Broken => entry := Some(Errored);
        case Gone =>
          if history {
            var ok := BuryHistory(at, now, w);
            if ok { BuriedWhole(side.utf8, old(K()), at, now, K()); }
          }
          entry := Some(Absent);
        case Payload(data) =>
          if stat && entry == Some(Done(data)) && file.None? {
            return;
          }
          var r;
          if history {
            r := WriteJSONBytes(data, at, now, w);
          } else {
            r := WritePlain(data, w);
          }
          assert Stores(side.utf8, history, old(K()), data, at, now, K(), r);
          entry := Some(if r.Unwritten? then Errored else Done(data));
      }
    }
  }

  // ------------------------------------------------------------- whole runs

  /** One object across runs: what is on disk, the entry in memory, and the entry
      a restart would load. */
  datatype Instant = Instant(k: Kept, mem: Option<Outcome>, saved: Option<Outcome>)

  /** An attempt, one cut off by a crash before it recorded anything, a flush of
      the ledger, or a restart. */
  datatype Step =
    | Attempt(fetch: Fetched, at: int, now: int)
    | CutWrite(data: Content, at: int, now: int, steps: nat)
    | CutBury(at: int, now: int, steps: nat)
    | Flush
    | Restart

  predicate ToFetch(e: Option<Outcome>) {
    e.None? || !e.value.Done?
  }

  /** A history-kept object is always read again; a plain one only while it is not
      done. */
  ghost predicate Next(utf8: Content -> bool, history: bool, x: Instant, s: Step, y: Instant) {
    match s
    case Attempt(fetch, at, now) =>
      && (history || ToFetch(x.mem)) && y.saved == x.saved
      && Attempted(utf8, history, x.k, x.mem, fetch, at, now, y.k, y.mem)
    case CutWrite(data, at, now, steps) =>
      && (history || ToFetch(x.mem)) && y.saved == x.saved && y.mem == x.mem
      && exists r :: if history then y.k == Committing(utf8, x.k, data, at, now, steps) else Replaces(x.k, data, y.k, r)
    case CutBury(at, now, steps) => history && y == x.(k := BuryingFile(utf8, x.k, at, now, steps))
    case Flush => y == x.(saved := x.mem)
    case Restart => y == x.(mem := x.saved)
  }

  predicate Keepable(utf8: Content -> bool, s: Step) {
    match s
    case Attempt(fetch, _, _) => fetch.Payload? ==> Recordable(utf8, fetch.content)
    case CutWrite(data, _, _, _) => Recordable(utf8, data)
    case _ => true
  }

  ghost predicate IsRun(utf8: Content -> bool, history: bool, xs: seq<Instant>, steps: seq<Step>) {
    && |xs| == |steps| + 1 && xs[0] == Instant(NOTHING, None, None)
    && forall i | 0 <= i < |steps| :: Keepable(utf8, steps[i]) && Next(utf8, history, xs[i], steps[i], xs[i + 1])
  }

  /** What the entry is done with was committed. */
  predicate Backed(k: Kept, e: Option<Outcome>) {
    e.Some? && e.value.Done? ==> e.value.content in k.versions
  }

  ghost predicate Safe(utf8: Content -> bool, x: Instant) {
    Told(utf8, x.k) && Backed(x.k, x.mem) && Backed(x.k, x.saved)
  }

  lemma {:induction false} DistinctHolds<T>(s: seq<T>, x: T)
    ensures x in Distinct(s) <==> x in s
  {
    if |s| > 1 {
      DistinctHolds(s[..|s| - 1], x);
      assert s == s[..|s| - 1] + [s[|s| - 1]];
    }
  }

  /** A commit, cut anywhere, keeps the timeline and every version. */
  lemma CommitsSafe(utf8: Content -> bool, k: Kept, data: Content, at: int, now: int, steps: nat)
    requires Told(utf8, k) && Recordable(utf8, data)
    ensures
      var k' := Committing(utf8, k, data, at, now, steps);
      Told(utf8, k') && k.versions <= k'.versions && (steps >= 2 ==> data in k'.versions)
  {
    CommitKeeps(utf8, k, data, at, now, steps);
  }

  lemma CommittedSafe(utf8: Content -> bool, k: Kept, data: Content, at: int, now: int, k': Kept, r: Committed)
    requires Told(utf8, k) && Recordable(utf8, data) && Commits(utf8, k, data, at, now, k', r)
    ensures Told(utf8, k') && k.versions <= k'.versions && (!r.Unwritten? ==> data in k'.versions)
  {
    hide Told, Committing;
    var steps: nat :| k' == Committing(utf8, k, data, at, now, steps) && (r.Whole? ==> steps == 3)
                      && (r.NotClosed? ==> steps >= 2) && (r.Unwritten? ==> steps <= 1);
    CommitsSafe(utf8, k, data, at, now, steps);
  }

  lemma StepSafe(utf8: Content -> bool, x: Instant, s: Step, y: Instant)
    requires Safe(utf8, x) && Keepable(utf8, s) && Next(utf8, true, x, s, y)
    ensures Safe(utf8, y)
  {
    hide Told, Committing, BuryingFile;
    match s
    case Attempt(fetch, at, now) =>
      if fetch.Payload? && !(SealedElsewhere(x.k, x.mem, fetch.content) && y.k == x.k && y.mem == x.mem) {
        var r :| Commits(utf8, x.k, fetch.content, at, now, y.k, r)
                 && y.mem == Some(if r.Unwritten? then Errored else Done(fetch.content));
        CommittedSafe(utf8, x.k, fetch.content, at, now, y.k, r);
      } else if fetch.Gone? {
        var ok :| Buries(utf8, x.k, at, now, y.k, ok);
        var steps: nat :| y.k == BuryingFile(utf8, x.k, at, now, steps) && (ok ==> steps == 2);
        BuryKeeps(utf8, x.k, at, now, steps);
        BuriedVersions(utf8, x.k, at, now, steps);
      }
    case CutWrite(data, at, now, steps) => CommitsSafe(utf8, x.k, data, at, now, steps);
    case CutBury(at, now, steps) =>
      BuryKeeps(utf8, x.k, at, now, steps);
      BuriedVersions(utf8, x.k, at, now, steps);
    case Flush =>
    case Restart =>
  }

  lemma BuriedVersions(utf8: Content -> bool, k: Kept, at: int, gone: int, steps: nat)
    ensures BuryingFile(utf8, k, at, gone, steps).versions == k.versions
  {
  }

  lemma NothingSafe(utf8: Content -> bool)
    ensures Safe(utf8, Instant(NOTHING, None, None))
  {
  }

  lemma {:induction false} RunSafe(utf8: Content -> bool, xs: seq<Instant>, steps: seq<Step>)
    requires IsRun(utf8, true, xs, steps)
    ensures Safe(utf8, xs[|steps|])
    decreases |steps|
  {
    hide Next, Keepable, Safe;
    if steps == [] {
      NothingSafe(utf8);
    } else {
      var n := |steps| - 1;
      RunSafe(utf8, xs[..n + 1], steps[..n]);
      StepSafe(utf8, xs[n], steps[n], xs[n + 1]);
    }
  }

  /** Over any run of a history-kept object, with attempts cut anywhere and
      restarts from any flushed entry, the bytes an entry in memory or on disk is
      done with can be read back from the sidecar or the file. */
  lemma DoneIsKept(utf8: Content -> bool, xs: seq<Instant>, steps: seq<Step>, c: Content)
    requires IsRun(utf8, true, xs, steps)
    requires xs[|steps|].mem == Some(Done(c)) || xs[|steps|].saved == Some(Done(c))
    ensures c in Timeline(xs[|steps|].k)
  {
    RunSafe(utf8, xs, steps);
    var k := xs[|steps|].k;
    DistinctHolds(Timeline(k), c);
    DistinctHolds(k.versions, c);
  }

  /** Over any run of a plain object, an entry done in memory or on disk is done
      with what the file holds. */
  lemma {:induction false} DoneIsCurrent(utf8: Content -> bool, xs: seq<Instant>, steps: seq<Step>)
    requires IsRun(utf8, false, xs, steps)
    ensures
      var x := xs[|steps|];
      && (x.mem.Some? && x.mem.value.Done? ==> x.k.file == Some(x.mem.value.content))
      && (x.saved.Some? && x.saved.value.Done? ==> x.saved == x.mem)
    decreases |steps|
  {
    if steps != [] {
      var n := |steps| - 1;
      DoneIsCurrent(utf8, xs[..n + 1], steps[..n]);
      assert Next(utf8, false, xs[n], steps[n], xs[n + 1]);
    }
  }
}
