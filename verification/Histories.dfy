/** History sidecars (pkg/history/history.go) and the commit order that feeds
    them (pkg/store/store.go, pkg/collect/archive.go): superseded versions and
    tombstones, one record a line. */
module Histories {
  import opened Records
  import opened AppendLogs
  import opened Sidecars

  type Content = seq<Byte>

  /** A superseded version, or a tombstone.  Digests are taken to be collision
      free, so contents stand for them. */
  datatype Record = Version(content: Content, at: int) | Tombstone(at: int)

  // ------------------------------------------------- the sidecar's record list

  /** The content of the newest version, behind any trailing tombstones. */
  function NewestVersion(side: seq<Record>): Option<Content> {
    if side == [] then None
    else if side[|side| - 1].Version? then Some(side[|side| - 1].content)
    else NewestVersion(side[..|side| - 1])
  }

  predicate Buried(side: seq<Record>) {
    side != [] && side[|side| - 1].Tombstone?
  }

  function Superseding(utf8: Content -> bool, side: seq<Record>, content: Content, at: int): seq<Record> {
    if !utf8(content) || content == [] || NewestVersion(side) == Some(content) then side
    else side + [Version(content, at)]
  }

  function Restoring(utf8: Content -> bool, side: seq<Record>, content: Content, at: int): seq<Record> {
    if !Buried(side) || !utf8(content) || content == [] then side else side + [Version(content, at)]
  }

  function Burying(utf8: Content -> bool, side: seq<Record>, content: Option<Content>, at: int, gone: int): seq<Record> {
    if content.None? && side == [] then side
    else
      var flushed := if content.Some? then Superseding(utf8, side, content.value, at) else side;
      if content.Some? && !utf8(content.value) then side
      else if Buried(side) && flushed == side then side
      else flushed + [Tombstone(gone)]
  }

  // --------------------------------------------------------- over the file

  /** The records a sidecar's committed lines hold, unparseable ones skipped. */
  function Readable<R>(c: Codec<R>, ls: seq<Line>): seq<R> {
    if ls == [] then []
    else
      var init, last := Readable(c, ls[..|ls| - 1]), ls[|ls| - 1].text;
      if !Blank(last) && c.parse(last).Some? then init + [c.parse(last).value] else init
  }

  function Recs(c: Codec<Record>, bytes: seq<Byte>): seq<Record> {
    Readable(c, LinesFrom(bytes, 0))
  }

  function LastMatch<R>(rs: seq<R>, match_: R -> bool): (r: Option<R>)
    ensures r.Some? ==> match_(r.value)
  {
    if rs == [] then None
    else if match_(rs[|rs| - 1]) then Some(rs[|rs| - 1])
    else LastMatch(rs[..|rs| - 1], match_)
  }

  lemma {:induction false} WalkReads<R>(c: Codec<R>, match_: R -> bool, ls: seq<Line>)
    ensures Walk(c, match_, ls).rec == LastMatch(Readable(c, ls), match_)
  {
    if ls != [] {
      WalkReads(c, match_, ls[..|ls| - 1]);
      var init, last := Readable(c, ls[..|ls| - 1]), ls[|ls| - 1].text;
      if !Blank(last) && c.parse(last).Some? {
        assert (init + [c.parse(last).value])[..|init|] == init;
      }
    }
  }

  lemma {:induction false} ReadableConcat<R>(c: Codec<R>, a: seq<Line>, b: seq<Line>)
    ensures Readable(c, a + b) == Readable(c, a) + Readable(c, b)
  {
    if b == [] {
      assert a + b == a;
    } else {
      assert (a + b)[..|a + b| - 1] == a + b[..|b| - 1];
      ReadableConcat(c, a, b[..|b| - 1]);
    }
  }

  /** Where the lines are laid does not change what they say. */
  lemma {:induction false} ReadableShift<R>(c: Codec<R>, s: seq<Byte>, a: nat, b: nat)
    ensures Readable(c, LinesFrom(s, a)) == Readable(c, LinesFrom(s, b))
    decreases |s|
  {
    hide LinesFrom, LineEnd;
    if LineEnd(s) == |s| {
      assert s[..|s|] == s;
      NoLines(s, a);
      NoLines(s, b);
    } else {
      var line, rest := Cut(s);
      UnfoldLines(line, rest, a);
      UnfoldLines(line, rest, b);
      ReadableConcat(c, [Line(a, line)], LinesFrom(rest, a + |line| + 1));
      ReadableConcat(c, [Line(b, line)], LinesFrom(rest, b + |line| + 1));
      ReadableShift(c, rest, a + |line| + 1, b + |line| + 1);
      assert [Line(a, line)][..0] == [] && [Line(b, line)][..0] == [];
    }
  }

  lemma RecsConcat(c: Codec<Record>, head: seq<Byte>, tail: seq<Byte>)
    requires head == [] || head[|head| - 1] == NEWLINE
    ensures Recs(c, head + tail) == Recs(c, head) + Recs(c, tail)
  {
    hide LinesFrom;
    LinesConcat(head, tail, 0);
    ReadableConcat(c, LinesFrom(head, 0), LinesFrom(tail, |head|));
    ReadableShift(c, tail, |head|, 0);
  }

  /** A write behind the last record boundary adds what it holds. */
  lemma BehindBoundary(c: Codec<Record>, s: seq<Byte>, more: seq<Byte>)
    ensures Recs(c, s[..Boundary(s)] + more) == Recs(c, s) + Recs(c, more)
  {
    var kept, torn := s[..Boundary(s)], s[Boundary(s)..];
    hide Boundary, Recs;
    assert s == kept + torn;
    RecsConcat(c, kept, torn);
    NoRecs(c, torn);
    assert Recs(c, kept) + [] == Recs(c, kept);
    RecsConcat(c, kept, more);
  }

  lemma OneLine(c: Codec<Record>, r: Record, torn: seq<Byte>)
    requires Faithful(c) && NEWLINE !in torn
    ensures Recs(c, Encoded(c, [r]) + torn) == [r]
  {
    assert [r][1..] == [] && Encoded(c, [r]) == c.encode(r) + [NEWLINE];
    UnfoldLines(c.encode(r), torn, 0);
    NoLines(torn, |c.encode(r)| + 1);
    hide LinesFrom;
    var line := Line(0, c.encode(r));
    assert [line] + [] == [line] && [line][..0] == [] && Readable(c, []) == [];
    assert Readable(c, [line]) == [r];
  }

  lemma NoRecs(c: Codec<Record>, torn: seq<Byte>)
    requires NEWLINE !in torn
    ensures Recs(c, torn) == []
  {
    NoLines(torn, 0);
  }

  /** How an append of one record ends: written, or not, with or without a torn
      fragment left behind it. */
  datatype Ending = Written | Lost(torn: seq<Byte>) | Landed(torn: seq<Byte>)

  predicate Torn(e: Ending) {
    e.Written? || NEWLINE !in e.torn
  }

  class Sidecar {
    const codec: Codec<Record>
    const utf8: Content -> bool
    var bytes: seq<Byte>

    constructor (codec: Codec<Record>, utf8: Content -> bool)
      ensures bytes == [] && this.codec == codec && this.utf8 == utf8
    {
      this.codec, this.utf8, bytes := codec, utf8, [];
    }

    function Records(): seq<Record>
      reads this`bytes
    {
      Recs(codec, bytes)
    }

    /** Appends one record on the last record boundary.  An append that reports
        failure, or that a crash cut short, may still have landed. */
    method AppendRecord(r: Record, end: Ending) returns (ok: bool)
      requires Faithful(codec) && Torn(end)
      modifies this
      ensures ok <==> end.Written?
      ensures Records() == if end.Lost? then old(Records()) else old(Records()) + [r]
    {
      var start := Boundary(bytes);
      ghost var s := bytes;
      var tail := match end
        case Written => Encoded(codec, [r])
        case Lost(torn) => torn
        case Landed(torn) => Encoded(codec, [r]) + torn;
      bytes := bytes[..start] + tail;
      BehindBoundary(codec, s, tail);
      match end {
        case Written => OneLine(codec, r, []); assert tail + [] == tail;
        case Lost(torn) => NoRecs(codec, torn);
        case Landed(torn) => OneLine(codec, r, torn);
      }
      ok := end.Written?;
    }

    /** The newest committed record. */
    method Newest() returns (r: Option<Record>)
      ensures r == if Records() == [] then None else Some(Records()[|Records()| - 1])
    {
      var w := NewestMatching(codec, _ => true, bytes);
      WalkReads(codec, _ => true, LinesFrom(bytes, 0));
      r := w.rec;
    }

    method NewestContent() returns (r: Option<Content>)
      ensures r == NewestVersion(Records())
    {
      var w := NewestMatching(codec, (r: Record) => r.Version?, bytes);
      WalkReads(codec, (r: Record) => r.Version?, LinesFrom(bytes, 0));
      LastVersion(Records());
      r := if w.rec.Some? then Some(w.rec.value.content) else None;
    }

    static lemma {:induction false} LastVersion(side: seq<Record>)
      ensures
        var m := LastMatch(side, (r: Record) => r.Version?);
        NewestVersion(side) == if m.Some? then Some(m.value.content) else None
    {
      if side != [] { LastVersion(side[..|side| - 1]); }
    }

    /** Keeps the outgoing content of a changed object. */
    method Supersede(content: Content, at: int, end: Ending) returns (appended: bool, failed: bool)
      requires Faithful(codec) && Torn(end)
      modifies this
      ensures Records() == old(Records()) || Records() == Superseding(utf8, old(Records()), content, at)
      ensures !failed ==> Records() == Superseding(utf8, old(Records()), content, at)
      ensures !failed ==> utf8(content) && (appended <==> Records() != old(Records()))
      ensures utf8(content) && end.Written? ==> !failed
    {
      appended, failed := false, false;
      if !utf8(content) {
        failed := true;
        return;
      }
      if content == [] {
        return;
      }
      var newest := NewestContent();
      if newest == Some(content) {
        return;
      }
      var ok := AppendRecord(Version(content, at), end);
      appended, failed := ok, !ok;
    }

    /** Closes a trailing tombstone with the content that came back. */
    method Restore(content: Content, at: int, end: Ending) returns (appended: bool, failed: bool)
      requires Faithful(codec) && Torn(end)
      modifies this
      ensures Records() == old(Records()) || Records() == Restoring(utf8, old(Records()), content, at)
      ensures !failed ==> Records() == Restoring(utf8, old(Records()), content, at)
      ensures !failed ==> (appended <==> Records() != old(Records()))
      ensures utf8(content) && end.Written? ==> !failed
    {
      appended, failed := false, false;
      var newest := Newest();
      if newest.None? || !newest.value.Tombstone? {
        return;
      }
      if !utf8(content) {
        failed := true;
        return;
      }
      if content == [] {
        return;
      }
      var ok := AppendRecord(Version(content, at), end);
      appended, failed := ok, !ok;
    }

    /** Records a disappearance: the last-known content, then a tombstone. */
    method Bury(content: Option<Content>, at: int, gone: int, flush: Ending, mark: Ending) returns (appended: bool, failed: bool)
      requires Faithful(codec) && Torn(flush) && Torn(mark)
      modifies this
      ensures !failed ==> Records() == Burying(utf8, old(Records()), content, at, gone)
      ensures !failed ==> (appended <==> Records() != old(Records()))
      ensures (content.Some? ==> utf8(content.value)) && flush.Written? && mark.Written? ==> !failed
      ensures
        || Records() == old(Records())
        || (content.Some? && Records() == Superseding(utf8, old(Records()), content.value, at))
        || Records() == Burying(utf8, old(Records()), content, at, gone)
    {
      appended, failed := false, false;
      var newest := Newest();
      if content.None? && newest.None? {
        return;
      }
      var flushed := false;
      if content.Some? {
        flushed, failed := Supersede(content.value, at, flush);
        if failed {
          return;
        }
      }
      if newest.Some? && newest.value.Tombstone? && !flushed {
        return;
      }
      var ok := AppendRecord(Tombstone(gone), mark);
      appended, failed := ok, !ok;
    }
  }
}
