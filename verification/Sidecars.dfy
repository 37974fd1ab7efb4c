/** The backward scan of a history sidecar (pkg/history/history.go): a doubling
    window read from the end of the file, which must answer as a parse of the
    whole file from its start would. */
module Sidecars {
  import opened Records
  import opened AppendLogs

  /** One committed line and the file offset it starts at. */
  datatype Line = Line(start: nat, text: seq<Byte>)

  /** Every committed line, parsed forward; `base` is the offset of the first. */
  function LinesFrom(s: seq<Byte>, base: nat): (ls: seq<Line>)
    decreases |s|
  {
    var n := LineEnd(s);
    if n == |s| then [] else [Line(base, s[..n])] + LinesFrom(s[n + 1..], base + n + 1)
  }

  /** What a scan answers: the record it stopped on, how many unparseable lines
      it walked past, and the offset of the newest of those. */
  datatype Walked<+R> = Walked(rec: Option<R>, n: nat, offset: nat)

  predicate Lost<R>(c: Codec<R>, l: Line) {
    !Blank(l.text) && c.parse(l.text).None?
  }

  predicate Answers<R>(c: Codec<R>, match_: R -> bool, l: Line) {
    !Blank(l.text) && c.parse(l.text).Some? && match_(c.parse(l.text).value)
  }

  /** The newest line the predicate admits, from the end. */
  function Walk<R>(c: Codec<R>, match_: R -> bool, ls: seq<Line>): Walked<R> {
    if ls == [] then Walked(None, 0, 0)
    else
      var init, last := ls[..|ls| - 1], ls[|ls| - 1];
      if Answers(c, match_, last) then Walked(c.parse(last.text), 0, 0)
      else
        var w := Walk(c, match_, init);
        if Lost(c, last) then Walked(w.rec, w.n + 1, last.start) else w
  }

  function LostCount<R>(c: Codec<R>, ls: seq<Line>): nat {
    if ls == [] then 0
    else LostCount(c, ls[..|ls| - 1]) + if Lost(c, ls[|ls| - 1]) then 1 else 0
  }

  /** The newest line the predicate admits. */
  function AnswerAt<R>(c: Codec<R>, match_: R -> bool, ls: seq<Line>): (i: int)
    ensures -1 <= i < |ls| && (i >= 0 ==> Answers(c, match_, ls[i]))
    ensures forall k | i < k < |ls| :: !Answers(c, match_, ls[k])
  {
    if ls == [] then -1
    else if Answers(c, match_, ls[|ls| - 1]) then |ls| - 1
    else AnswerAt(c, match_, ls[..|ls| - 1])
  }

  /** The newest line that does not parse. */
  function LostAt<R>(c: Codec<R>, ls: seq<Line>): (i: int)
    ensures -1 <= i < |ls| && (i >= 0 ==> Lost(c, ls[i]))
    ensures forall k | i < k < |ls| :: !Lost(c, ls[k])
  {
    if ls == [] then -1 else if Lost(c, ls[|ls| - 1]) then |ls| - 1 else LostAt(c, ls[..|ls| - 1])
  }

  lemma LostCountLast<R>(c: Codec<R>, ls: seq<Line>, i: int)
    requires -1 <= i < |ls| - 1
    ensures LostCount(c, ls[i + 1..]) == LostCount(c, ls[..|ls| - 1][i + 1..]) + if Lost(c, ls[|ls| - 1]) then 1 else 0
  {
    assert ls[i + 1..][..|ls[i + 1..]| - 1] == ls[..|ls| - 1][i + 1..];
  }

  lemma {:induction false} WalkAnswers<R>(c: Codec<R>, match_: R -> bool, ls: seq<Line>)
    ensures
      var i := AnswerAt(c, match_, ls);
      Walk(c, match_, ls).rec == if i >= 0 then c.parse(ls[i].text) else None
  {
    if ls != [] { WalkAnswers(c, match_, ls[..|ls| - 1]); }
  }

  lemma {:induction false} WalkTallies<R>(c: Codec<R>, match_: R -> bool, ls: seq<Line>)
    ensures Walk(c, match_, ls).n == LostCount(c, ls[AnswerAt(c, match_, ls) + 1..])
  {
    if ls != [] {
      var i := AnswerAt(c, match_, ls);
      if Answers(c, match_, ls[|ls| - 1]) {
        assert ls[i + 1..] == [];
      } else {
        WalkTallies(c, match_, ls[..|ls| - 1]);
        LostCountLast(c, ls, i);
      }
    }
  }

  lemma {:induction false} WalkNames<R>(c: Codec<R>, match_: R -> bool, ls: seq<Line>)
    ensures
      var w, j := Walk(c, match_, ls), LostAt(c, ls);
      w.n > 0 ==> j > AnswerAt(c, match_, ls) && w.offset == ls[j].start
  {
    if ls != [] { WalkNames(c, match_, ls[..|ls| - 1]); }
  }

  /** A walk answers with the newest line the predicate admits; its tally counts
      each unparseable line behind that answer once, and names the newest. */
  lemma WalkMeans<R>(c: Codec<R>, match_: R -> bool, ls: seq<Line>)
    ensures
      var w, i, j := Walk(c, match_, ls), AnswerAt(c, match_, ls), LostAt(c, ls);
      && w.rec == (if i >= 0 then c.parse(ls[i].text) else None)
      && w.n == LostCount(c, ls[i + 1..])
      && (w.n > 0 ==> j > i && w.offset == ls[j].start)
  {
    WalkAnswers(c, match_, ls);
    WalkTallies(c, match_, ls);
    WalkNames(c, match_, ls);
  }

  /** Older lines matter only when the newer ones hold no answer. */
  lemma {:induction false} WalkConcat<R>(c: Codec<R>, match_: R -> bool, a: seq<Line>, b: seq<Line>)
    ensures
      var w, v := Walk(c, match_, b), Walk(c, match_, a);
      Walk(c, match_, a + b)
      == if w.rec.Some? then w else Walked(v.rec, v.n + w.n, if w.n > 0 then w.offset else v.offset)
  {
    if b == [] {
      assert a + b == a;
    } else {
      assert (a + b)[..|a + b| - 1] == a + b[..|b| - 1];
      WalkConcat(c, match_, a, b[..|b| - 1]);
    }
  }

  lemma UnfoldLines(line: seq<Byte>, rest: seq<Byte>, base: nat)
    requires NEWLINE !in line
    ensures LinesFrom(line + [NEWLINE] + rest, base) == [Line(base, line)] + LinesFrom(rest, base + |line| + 1)
  {
    FirstLine(line, rest);
  }

  lemma NoLines(s: seq<Byte>, base: nat)
    requires NEWLINE !in s
    ensures LinesFrom(s, base) == []
  {
    LineEndIs(s, |s|);
  }

  /** Lines do not straddle a newline. */
  lemma {:induction false} LinesConcat(head: seq<Byte>, tail: seq<Byte>, base: nat)
    requires head == [] || head[|head| - 1] == NEWLINE
    ensures LinesFrom(head + tail, base) == LinesFrom(head, base) + LinesFrom(tail, base + |head|)
    decreases |head|
  {
    hide LinesFrom, LineEnd;
    if head == [] {
      NoLines(head, base);
      assert head + tail == tail;
    } else {
      assert LineEnd(head) < |head| by { NotTorn(head); }
      var line, rest := Cut(head);
      assert rest != [] ==> rest[|rest| - 1] == head[|head| - 1];
      UnfoldLines(line, rest, base);
      UnfoldLines(line, rest + tail, base);
      ConcatAssoc(line + [NEWLINE], rest, tail);
      LinesConcat(rest, tail, base + |line| + 1);
      ConcatAssoc([Line(base, line)], LinesFrom(rest, base + |line| + 1), LinesFrom(tail, base + |head|));
    }
  }

  lemma NotTorn(s: seq<Byte>)
    requires s != [] && s[|s| - 1] == NEWLINE
    ensures LineEnd(s) < |s|
  {
    assert s[..|s|][|s| - 1] == NEWLINE;
  }

  // ------------------------------------------------------------- the windows

  /** The lines a window sees whole: behind its first newline, or from its start
      when the window is the whole file. */
  function WindowLines(buf: seq<Byte>, off: nat): seq<Line> {
    if off == 0 then LinesFrom(buf, 0)
    else if LineEnd(buf) == |buf| then []
    else LinesFrom(buf[LineEnd(buf) + 1..], off + LineEnd(buf) + 1)
  }

  lemma WindowIsSuffix(s: seq<Byte>, off: nat) returns (older: seq<Line>)
    requires off <= |s|
    ensures LinesFrom(s, 0) == older + WindowLines(s[off..], off)
    ensures off == 0 ==> older == []
  {
    hide LinesFrom, LineEnd;
    var buf := s[off..];
    if off == 0 {
      older := [];
      assert buf == s;
    } else if LineEnd(buf) == |buf| {
      older := LinesFrom(s, 0);
    } else {
      var line, rest := Cut(buf);
      var head := s[..off] + line + [NEWLINE];
      DropLine(s, off, line, rest);
      assert s == head + rest by { assert s == s[..off] + buf; }
      LinesConcat(head, rest, 0);
      older := LinesFrom(head, 0);
    }
  }

  function Split(s: seq<Byte>): (parts: seq<seq<Byte>>)
    ensures |parts| > 0
    decreases |s|
  {
    var n := LineEnd(s);
    if n == |s| then [s] else [s[..n]] + Split(s[n + 1..])
  }

  method SplitLines(s: seq<Byte>) returns (parts: seq<seq<Byte>>)
    ensures parts == Split(s)
  {
    hide Split;
    parts := [];
    var at: nat := 0;
    assert s[0..] == s;
    while at + LineEnd(s[at..]) < |s|
      invariant at <= |s|
      invariant parts + Split(s[at..]) == Split(s)
    {
      ghost var line, rest := Cut(s[at..]);
      DropLine(s, at, line, rest);
      UnfoldSplit(line, rest);
      ConcatAssoc(parts, [line], Split(rest));
      var n := LineEnd(s[at..]);
      parts := parts + [s[at..at + n]];
      at := at + n + 1;
    }
    LastPart(s[at..]);
    parts := parts + [s[at..]];
  }

  lemma LastPart(s: seq<Byte>)
    requires LineEnd(s) == |s|
    ensures Split(s) == [s]
  {
  }

  lemma UnfoldSplit(line: seq<Byte>, rest: seq<Byte>)
    requires NEWLINE !in line
    ensures Split(line + [NEWLINE] + rest) == [line] + Split(rest)
  {
    FirstLine(line, rest);
  }

  /** Lines laid end to end, the last of them ending at `end`. */
  ghost predicate Laid(ls: seq<Line>, parts: seq<seq<Byte>>, base: nat, end: nat) {
    && |ls| == |parts| > 0 && ls[0].start == base
    && (forall i | 0 <= i < |ls| :: ls[i].text == parts[i])
    && (forall i | 0 < i < |ls| :: ls[i].start == ls[i - 1].start + |parts[i - 1]| + 1)
    && ls[|ls| - 1].start + |parts[|ls| - 1]| == end
  }

  lemma LaidMore(first: Line, ls: seq<Line>, parts: seq<seq<Byte>>, base: nat, end: nat)
    requires Laid(ls, parts, base, end) && first.start + |first.text| + 1 == base
    ensures Laid([first] + ls, [first.text] + parts, first.start, end)
  {
  }

  /** The pieces between newlines are the texts of the lines they terminate. */
  lemma {:induction false} SplitIsLines(region: seq<Byte>, torn: seq<Byte>, base: nat)
    requires NEWLINE !in torn
    ensures Laid(LinesFrom(region + [NEWLINE] + torn, base), Split(region), base, base + |region|)
    decreases |region|
  {
    if LineEnd(region) == |region| {
      assert region[..|region|] == region;
      UnfoldLines(region, torn, base);
      NoLines(torn, base + |region| + 1);
    } else {
      var line, rest := Cut(region);
      hide LinesFrom, LineEnd, Split, Laid;
      SplitIsLines(rest, torn, base + |line| + 1);
      UnfoldSplit(line, rest);
      UnfoldLines(line, rest + [NEWLINE] + torn, base);
      Regroup(line, rest, torn);
      LaidMore(Line(base, line), LinesFrom(rest + [NEWLINE] + torn, base + |line| + 1), Split(rest), base + |line| + 1,
               base + |region|);
    }
  }

  lemma Regroup(line: seq<Byte>, rest: seq<Byte>, torn: seq<Byte>)
    ensures line + [NEWLINE] + rest + [NEWLINE] + torn == line + [NEWLINE] + (rest + [NEWLINE] + torn)
  {
  }

  // ---------------------------------------------------------------- the scan

  const SEED := 4096

  /** What is left of a walk over `ls[..i]` once the lines behind it were passed. */
  function Resumed<R>(c: Codec<R>, match_: R -> bool, ls: seq<Line>, n: nat, offset: nat): Walked<R> {
    var w := Walk(c, match_, ls);
    Walked(w.rec, w.n + n, if n > 0 then offset else w.offset)
  }

  lemma WalkStep<R>(c: Codec<R>, match_: R -> bool, ls: seq<Line>, i: nat, n: nat, offset: nat)
    requires 0 < i <= |ls|
    ensures
      var l := ls[i - 1];
      Resumed(c, match_, ls[..i], n, offset)
      == if Answers(c, match_, l) then Walked(c.parse(l.text), n, if n > 0 then offset else 0)
         else if Lost(c, l) then Resumed(c, match_, ls[..i - 1], n + 1, if n > 0 then offset else l.start)
         else Resumed(c, match_, ls[..i - 1], n, offset)
  {
    assert ls[..i][..i - 1] == ls[..i - 1];
  }

  /** The region between a window's first whole line and its last newline, laid
      out as the lines a forward parse finds there. */
  lemma RegionLaid(s: seq<Byte>, base: nat, region: seq<Byte>, torn: seq<Byte>)
    requires s == region + [NEWLINE] + torn && NEWLINE !in torn
    ensures Laid(LinesFrom(s, base), Split(region), base, base + |region|)
  {
    SplitIsLines(region, torn, base);
  }

  lemma WindowIs(buf: seq<Byte>, off: nat, start: nat)
    requires start <= |buf| && start == if off == 0 then 0 else LineEnd(buf) + 1
    ensures WindowLines(buf, off) == LinesFrom(buf[start..], off + start)
  {
    assert buf[0..] == buf;
  }

  lemma Region(buf: seq<Byte>, start: nat, end: nat)
    requires start <= end < |buf| && buf[end] == NEWLINE && forall i | end < i < |buf| :: buf[i] != NEWLINE
    ensures buf[start..] == buf[start..end] + [NEWLINE] + buf[end + 1..] && NEWLINE !in buf[end + 1..]
  {
  }

  /** A region that is one empty line answers nothing. */
  lemma EmptyRegion<R>(c: Codec<R>, match_: R -> bool, buf: seq<Byte>, off: nat, end: nat)
    requires Laid(WindowLines(buf, off), Split([]), off + end, off + end)
    ensures Walk(c, match_, WindowLines(buf, off)) == Walked(None, 0, 0)
  {
    assert Split([]) == [[]];
    assert WindowLines(buf, off) == [Line(off + end, [])];
  }

  /** A window whose first newline is its last holds no whole line. */
  lemma NoRegion(buf: seq<Byte>, off: nat, end: int)
    requires -1 <= end < |buf| && (end >= 0 ==> buf[end] == NEWLINE) && forall i | end < i < |buf| :: buf[i] != NEWLINE
    requires end < 0 || (off > 0 && LineEnd(buf) + 1 > end)
    ensures WindowLines(buf, off) == []
  {
    if end < 0 {
      NoLines(buf, 0);
      LineEndIs(buf, |buf|);
    } else {
      var torn := buf[LineEnd(buf) + 1..];
      forall k | 0 <= k < |torn| ensures torn[k] != NEWLINE { assert torn[k] == buf[LineEnd(buf) + 1 + k]; }
      NoLines(buf[LineEnd(buf) + 1..], off + LineEnd(buf) + 1);
    }
  }

  /** Parses one window newest-first. */
  method ScanWindow<R>(c: Codec<R>, match_: R -> bool, buf: seq<Byte>, off: nat) returns (w: Walked<R>)
    ensures w == Walk(c, match_, WindowLines(buf, off))
  {
    hide Walk, WindowLines, LinesFrom, Split, Laid;
    var end := LastNewline(buf);
    var start := if off == 0 then 0 else LineEnd(buf) + 1;
    if end < 0 || start > end {
      NoRegion(buf, off, end);
      WalkNothing(c, match_);
      return Walked(None, 0, 0);
    }
    Region(buf, start, end);
    WindowIs(buf, off, start);
    RegionLaid(buf[start..], off + start, buf[start..end], buf[end + 1..]);
    if start == end {
      assert buf[start..end] == [];
      EmptyRegion(c, match_, buf, off, end);
      return Walked(None, 0, 0);
    }
    var lines := SplitLines(buf[start..end]);
    w := WalkLines(c, match_, lines, WindowLines(buf, off), off + start, off + end);
  }

  lemma WalkNothing<R>(c: Codec<R>, match_: R -> bool)
    ensures Walk(c, match_, []) == Walked(None, 0, 0)
  {
  }

  /** Walks the lines of a region from its end, `end` being where the last one
      ends. */
  method WalkLines<R>(c: Codec<R>, match_: R -> bool, lines: seq<seq<Byte>>, ghost ls: seq<Line>, ghost base: nat, end: nat)
    returns (w: Walked<R>)
    requires Laid(ls, lines, base, end)
    ensures w == Walk(c, match_, ls)
  {
    hide Walk;
    var n, offset, i, lineEnd: int := 0, 0, |lines|, end;
    assert ls[..|ls|] == ls;
    while i > 0
      invariant 0 <= i <= |ls| && 0 <= n && 0 <= offset && (n == 0 ==> offset == 0)
      invariant i > 0 ==> lineEnd == ls[i - 1].start + |lines[i - 1]|
      invariant Walk(c, match_, ls) == Resumed(c, match_, ls[..i], n, offset)
    {
      i := i - 1;
      WalkStep(c, match_, ls, i + 1, n, offset);
      var line := lines[i];
      var lineStart := lineEnd - |line|;
      lineEnd := lineStart - 1;
      if !Blank(line) {
        var r := c.parse(line);
        if r.None? {
          if n == 0 { offset := lineStart; }
          n := n + 1;
        } else if match_(r.value) {
          return Walked(r, n, offset);
        }
      }
    }
    WalkNothing(c, match_);
    w := Walked(None, n, offset);
  }

  /** Scans backward in a doubling window until a record answers or the whole
      file was seen: the answer, and the tally, of a parse of the whole file. */
  method NewestMatching<R>(c: Codec<R>, match_: R -> bool, bytes: seq<Byte>) returns (w: Walked<R>)
    ensures w == Walk(c, match_, LinesFrom(bytes, 0))
  {
    hide Walk, WindowLines, LinesFrom;
    if bytes == [] {
      NoLines(bytes, 0);
      WalkNothing(c, match_);
      return Walked(None, 0, 0);
    }
    var window := SEED;
    while true
      invariant 0 < window
      decreases |bytes| - window
    {
      window := if window < |bytes| then window else |bytes|;
      var off := |bytes| - window;
      w := ScanWindow(c, match_, bytes[off..], off);
      ghost var older := WindowIsSuffix(bytes, off);
      WalkConcat(c, match_, older, WindowLines(bytes[off..], off));
      if w.rec.Some? || off == 0 {
        assert older == [] ==> older + WindowLines(bytes[off..], off) == WindowLines(bytes[off..], off);
        return;
      }
      window := window * 2;
    }
  }
}
