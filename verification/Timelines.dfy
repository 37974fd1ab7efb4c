/** What the commit order of a history-kept object (pkg/store/store.go,
    `WriteJSONBytes` and `BuryHistory`) promises: no version is lost or reordered,
    whatever step a crash interrupts. */
module Timelines {
  import opened Records
  import opened AppendLogs
  import opened Histories

  /** The sidecar, the object file, and (history) every content committed to it. */
  datatype Kept = Kept(side: seq<Record>, file: Option<Content>, versions: seq<Content>)

  predicate Recordable(utf8: Content -> bool, c: Content) {
    c != [] && utf8(c)
  }

  /** A commit of `data` cut short after `steps` of its three steps: the outgoing
      content superseded, the file replaced, a trailing tombstone closed. */
  function Committing(utf8: Content -> bool, k: Kept, data: Content, at: int, now: int, steps: nat): Kept {
    var changed := k.file != Some(data);
    var side := if changed && k.file.Some? && Recordable(utf8, k.file.value)
                then Superseding(utf8, k.side, k.file.value, at) else k.side;
    if steps == 0 then k
    else if steps == 1 then k.(side := side)
    else
      var versions := if changed then k.versions + [data] else k.versions;
      Kept(if steps == 2 then side else Restoring(utf8, side, data, now), Some(data), versions)
  }

  /** What a disappearance flushes: the file's content, if it can be recorded. */
  function ToBury(utf8: Content -> bool, k: Kept): Option<Content> {
    if k.file.Some? && Recordable(utf8, k.file.value) then k.file else None
  }

  /** A bury cut short after `steps` of its two appends. */
  function BuryingFile(utf8: Content -> bool, k: Kept, at: int, gone: int, steps: nat): Kept {
    var content := ToBury(utf8, k);
    if steps == 0 then k
    else if steps == 1 then
      k.(side := if content.Some? then Superseding(utf8, k.side, content.value, at) else k.side)
    else k.(side := Burying(utf8, k.side, content, at, gone))
  }

  datatype Event =
    | Commit(data: Content, at: int, now: int, steps: nat)
    | Bury(at: int, gone: int, steps: nat)

  function After(utf8: Content -> bool, k: Kept, e: Event): Kept {
    match e
    case Commit(data, at, now, steps) => Committing(utf8, k, data, at, now, steps)
    case Bury(at, gone, steps) => BuryingFile(utf8, k, at, gone, steps)
  }

  /** The versions among some records, oldest first. */
  function Contents(side: seq<Record>): seq<Content> {
    if side == [] then []
    else
      var last := side[|side| - 1];
      Contents(side[..|side| - 1]) + if last.Version? then [last.content] else []
  }

  /** Adjacent repeats removed. */
  function Distinct<T(==)>(s: seq<T>): seq<T> {
    if |s| <= 1 then s
    else if s[|s| - 1] == s[|s| - 2] then Distinct(s[..|s| - 1])
    else Distinct(s[..|s| - 1]) + [s[|s| - 1]]
  }

  /** What a reader reconstructs: the sidecar's versions and then the file. */
  function Timeline(k: Kept): seq<Content> {
    Contents(k.side) + if k.file.Some? then [k.file.value] else []
  }

  /** Two neighbours are never two tombstones, nor two records of one content. */
  predicate NoEchoes(side: seq<Record>) {
    forall i | 0 < i < |side| ::
      && !(side[i - 1].Tombstone? && side[i].Tombstone?)
      && !(side[i - 1].Version? && side[i].Version? && side[i - 1].content == side[i].content)
  }

  ghost predicate Told(utf8: Content -> bool, k: Kept) {
    && (k.file.None? ==> k.side == [] && k.versions == [])
    && (k.file.Some? ==> k.versions != [] && k.versions[|k.versions| - 1] == k.file.value
                         && Recordable(utf8, k.file.value))
    && Distinct(Timeline(k)) == Distinct(k.versions)
    && NoEchoes(k.side)
  }

  // ------------------------------------------------------------------- lemmas

  lemma ContentsPush(side: seq<Record>, r: Record)
    ensures Contents(side + [r]) == Contents(side) + if r.Version? then [r.content] else []
  {
    assert (side + [r])[..|side|] == side;
  }

  lemma DistinctPush<T>(s: seq<T>, x: T)
    ensures Distinct(s + [x]) == if s != [] && s[|s| - 1] == x then Distinct(s) else Distinct(s) + [x]
  {
    assert (s + [x])[..|s|] == s;
  }

  lemma {:induction false} NewestIsLast(side: seq<Record>)
    ensures NewestVersion(side) == if Contents(side) == [] then None else Some(Contents(side)[|Contents(side)| - 1])
  {
    if side != [] { NewestIsLast(side[..|side| - 1]); }
  }

  /** Superseding a content makes it the newest version, once. */
  lemma SupersedeEnds(utf8: Content -> bool, side: seq<Record>, c: Content, at: int)
    requires Recordable(utf8, c) && NoEchoes(side)
    ensures
      var s := Superseding(utf8, side, c, at);
      && Contents(s) != [] && Contents(s)[|Contents(s)| - 1] == c && NewestVersion(s) == Some(c)
      && Distinct(Contents(s)) == Distinct(Contents(side) + [c])
      && NoEchoes(s) && (s != side ==> s[|s| - 1].Version?)
  {
    NewestIsLast(side);
    if NewestVersion(side) == Some(c) {
      DistinctPush(Contents(side), c);
    } else {
      ContentsPush(side, Version(c, at));
      assert (side + [Version(c, at)])[..|side|] == side;
    }
  }

  lemma RestoreEnds(utf8: Content -> bool, side: seq<Record>, c: Content, at: int)
    requires NoEchoes(side)
    ensures
      var s := Restoring(utf8, side, c, at);
      NoEchoes(s) && Distinct(Contents(s) + [c]) == Distinct(Contents(side) + [c])
  {
    if Restoring(utf8, side, c, at) != side {
      ContentsPush(side, Version(c, at));
      DistinctPush(Contents(side) + [c], c);
      hide Contents, Distinct;
      assert NoEchoes(side + [Version(c, at)]);
    }
  }

  /** Flushing the file's content to the sidecar tells the same story. */
  lemma FlushKeeps(utf8: Content -> bool, k: Kept, at: int)
    requires Told(utf8, k) && k.file.Some?
    ensures
      var side := Superseding(utf8, k.side, k.file.value, at);
      && Told(utf8, k.(side := side)) && Distinct(Contents(side)) == Distinct(k.versions)
      && Contents(side) != [] && Contents(side)[|Contents(side)| - 1] == k.file.value
      && (Buried(side) ==> side == k.side)
  {
    var side := Superseding(utf8, k.side, k.file.value, at);
    SupersedeEnds(utf8, k.side, k.file.value, at);
    DistinctPush(Contents(side), k.file.value);
  }

  /** Replacing a file whose content the sidecar ends with adds one version. */
  lemma ReplaceKeeps(utf8: Content -> bool, k: Kept, data: Content)
    requires Told(utf8, k) && Recordable(utf8, data) && k.file != Some(data)
    requires k.file.Some? ==> Distinct(Contents(k.side)) == Distinct(k.versions)
                              && Contents(k.side) != [] && Contents(k.side)[|Contents(k.side)| - 1] == k.file.value
    ensures Told(utf8, Kept(k.side, Some(data), k.versions + [data]))
  {
    DistinctPush(Contents(k.side), data);
    DistinctPush(k.versions, data);
  }

  lemma CloseKeeps(utf8: Content -> bool, k: Kept, now: int)
    requires Told(utf8, k) && k.file.Some?
    ensures Told(utf8, k.(side := Restoring(utf8, k.side, k.file.value, now)))
  {
    RestoreEnds(utf8, k.side, k.file.value, now);
  }

  lemma CommitKeeps(utf8: Content -> bool, k: Kept, data: Content, at: int, now: int, steps: nat)
    requires Told(utf8, k) && Recordable(utf8, data)
    ensures Told(utf8, Committing(utf8, k, data, at, now, steps))
  {
    hide Told, Contents, Distinct, Superseding, Restoring, NoEchoes;
    var replaced := Committing(utf8, k, data, at, now, 2);
    ToldFile(utf8, k);
    if k.file != Some(data) {
      if k.file.Some? { FlushKeeps(utf8, k, at); }
      ReplaceKeeps(utf8, Committing(utf8, k, data, at, now, 1), data);
    }
    CloseKeeps(utf8, replaced, now);
  }

  lemma ToldFile(utf8: Content -> bool, k: Kept)
    requires Told(utf8, k)
    ensures k.file.Some? ==> Recordable(utf8, k.file.value)
  {
  }

  lemma MarkKeeps(utf8: Content -> bool, k: Kept, gone: int)
    requires Told(utf8, k) && !Buried(k.side) && k.file.Some?
    ensures Told(utf8, k.(side := k.side + [Tombstone(gone)]))
  {
    ContentsPush(k.side, Tombstone(gone));
    assert Contents(k.side) + [] == Contents(k.side);
  }

  lemma BuryIs(utf8: Content -> bool, k: Kept, at: int, gone: int, steps: nat)
    requires k.file.Some? && Recordable(utf8, k.file.value)
    requires
      var side := Superseding(utf8, k.side, k.file.value, at);
      Buried(side) ==> side == k.side
    ensures
      var flushed := k.(side := Superseding(utf8, k.side, k.file.value, at));
      BuryingFile(utf8, k, at, gone, steps)
      == if steps == 0 || (steps > 1 && Buried(flushed.side)) then k
         else if steps == 1 then flushed
         else flushed.(side := flushed.side + [Tombstone(gone)])
  {
    hide Superseding;
  }

  lemma BuryKeeps(utf8: Content -> bool, k: Kept, at: int, gone: int, steps: nat)
    requires Told(utf8, k)
    ensures Told(utf8, BuryingFile(utf8, k, at, gone, steps))
  {
    ToldFile(utf8, k);
    if k.file.Some? {
      FlushKeeps(utf8, k, at);
      BuryIs(utf8, k, at, gone, steps);
      hide Contents, Distinct, NoEchoes, Told, Superseding, BuryingFile, Buried;
      var flushed := k.(side := Superseding(utf8, k.side, k.file.value, at));
      if !Buried(flushed.side) { MarkKeeps(utf8, flushed, gone); }
    } else {
      assert k.side == [];
    }
  }

  /** A bury retried after a crash between its appends leaves the records of one
      that was never interrupted. */
  lemma RetriedBury(utf8: Content -> bool, k: Kept, at: int, gone: int, steps: nat)
    requires steps <= 1
    ensures BuryingFile(utf8, BuryingFile(utf8, k, at, gone, steps), at, gone, 2) == BuryingFile(utf8, k, at, gone, 2)
  {
    var content := ToBury(utf8, k);
    if steps == 1 && content.Some? {
      var side := Superseding(utf8, k.side, content.value, at);
      if side != k.side { assert NewestVersion(side) == Some(content.value) && !Buried(side); }
    }
  }

  const NOTHING := Kept([], None, [])

  /** No version is lost or reordered: after any commits and disappearances, each
      cut short at any step, the sidecar followed by the file tells exactly the
      versions committed, adjacent repeats aside, and no record is an echo. */
  lemma {:induction false} NothingLost(utf8: Content -> bool, ks: seq<Kept>, es: seq<Event>)
    requires |ks| == |es| + 1 && ks[0] == NOTHING && forall i | 0 <= i < |es| :: ks[i + 1] == After(utf8, ks[i], es[i])
    requires forall e | e in es && e.Commit? :: Recordable(utf8, e.data)
    ensures
      var k := ks[|es|];
      && Distinct(Timeline(k)) == Distinct(k.versions)
      && NoEchoes(k.side)
      && Told(utf8, k)
    decreases |es|
  {
    hide After;
    if es != [] {
      var n := |es| - 1;
      assert es[n] in es;
      NothingLost(utf8, ks[..n + 1], es[..n]);
      OneEvent(utf8, ks[n], es[n]);
    }
  }

  lemma OneEvent(utf8: Content -> bool, k: Kept, e: Event)
    requires Told(utf8, k) && (e.Commit? ==> Recordable(utf8, e.data))
    ensures Told(utf8, After(utf8, k, e))
  {
    hide Told;
    match e
    case Commit(data, at, now, steps) => CommitKeeps(utf8, k, data, at, now, steps);
    case Bury(at, gone, steps) => BuryKeeps(utf8, k, at, gone, steps);
  }

  /** Exactly what a commit can lose: replacing a content that is neither
      recordable nor already the newest version drops it from the timeline. */
  lemma CommitLosesIff(utf8: Content -> bool, k: Kept, data: Content, at: int, now: int)
    requires k.file.Some? && k.file.value != data && k.versions != [] && k.versions[|k.versions| - 1] == k.file.value
    requires Distinct(Timeline(k)) == Distinct(k.versions) && NoEchoes(k.side)
    ensures
      var k' := Committing(utf8, k, data, at, now, 2);
      Distinct(Timeline(k')) == Distinct(k'.versions)
      <==> Recordable(utf8, k.file.value) || NewestVersion(k.side) == k.file
  {
    var k', was := Committing(utf8, k, data, at, now, 2), k.file.value;
    NewestIsLast(k.side);
    DistinctPush(k.versions, data);
    DistinctPush(Contents(k.side), was);
    DistinctPush(Contents(k'.side), data);
    CommitIs(utf8, k, data, at, now);
    hide Contents, Distinct, Superseding, Committing, NewestVersion, NoEchoes;
    if Recordable(utf8, was) {
      SupersedeEnds(utf8, k.side, was, at);
    } else if NewestVersion(k.side) != k.file {
      // The file's content was the timeline's last; now nothing holds it.
      assert Distinct(k.versions) == Distinct(Contents(k.side)) + [was];
      assert |Distinct(Timeline(k'))| <= |Distinct(Contents(k.side))| + 1;
    }
  }

  lemma CommitIs(utf8: Content -> bool, k: Kept, data: Content, at: int, now: int)
    requires k.file.Some? && k.file.value != data
    ensures
      var side := if Recordable(utf8, k.file.value) then Superseding(utf8, k.side, k.file.value, at) else k.side;
      Committing(utf8, k, data, at, now, 2) == Kept(side, Some(data), k.versions + [data])
  {
  }
}
