/** Append-only record files (pkg/atomicfile/atomicfile.go, pkg/manifest/wal.go):
    a record is one newline-terminated line, an append lands on the last record
    boundary, and a replay trusts complete lines up to the first that does not
    parse. */
module AppendLogs {
  import opened Records

  newtype Byte = x: int | 0 <= x < 256

  const NEWLINE: Byte := 10
  const CHUNK := 4096

  /** White space, as a blank line may hold it. */
  predicate IsSpace(c: Byte) {
    c in {9, 10, 11, 12, 13, 32}
  }

  predicate Blank(line: seq<Byte>) {
    forall c | c in line :: IsSpace(c)
  }

  /** An encoder that never emits a newline, and the parser that reads it back. */
  datatype Codec<!R> = Codec(encode: R -> seq<Byte>, parse: seq<Byte> -> Option<R>)

  ghost predicate Faithful<R(!new)>(c: Codec<R>) {
    forall r :: c.parse(c.encode(r)) == Some(r) && NEWLINE !in c.encode(r) && !Blank(c.encode(r))
  }

  /** The first newline, or the end. */
  function LineEnd(s: seq<Byte>): (n: nat)
    ensures n <= |s| && NEWLINE !in s[..n] && (n < |s| ==> s[n] == NEWLINE)
  {
    if s == [] || s[0] == NEWLINE then 0 else 1 + LineEnd(s[1..])
  }

  /** The offset just past the last newline. */
  function Boundary(s: seq<Byte>): (n: nat)
    ensures n <= |s| && NEWLINE !in s[n..] && (n > 0 ==> s[n - 1] == NEWLINE)
  {
    if s == [] then 0 else if s[|s| - 1] == NEWLINE then |s| else Boundary(s[..|s| - 1])
  }

  lemma NonePast(s: seq<Byte>, n: nat)
    requires n <= |s| && NEWLINE !in s[n..]
    ensures forall i | n <= i < |s| :: s[i] != NEWLINE
  {
    forall i | n <= i < |s| ensures s[i] != NEWLINE {
      assert s[n..][i - n] == s[i];
    }
  }

  lemma BoundaryIs(s: seq<Byte>, n: nat)
    requires n <= |s| && NEWLINE !in s[n..] && (n > 0 ==> s[n - 1] == NEWLINE)
    ensures Boundary(s) == n
  {
    hide Boundary;
    NonePast(s, n);
    NonePast(s, Boundary(s));
  }

  /** The records a replay trusts. */
  function Trusted<R>(c: Codec<R>, s: seq<Byte>): seq<R>
    decreases |s|
  {
    var n := LineEnd(s);
    if n == |s| then []
    else if Blank(s[..n]) then Trusted(c, s[n + 1..])
    else if c.parse(s[..n]).None? then []
    else [c.parse(s[..n]).value] + Trusted(c, s[n + 1..])
  }

  /** The bytes a replay trusts: up to the last newline, or to the first complete
      line that does not parse. */
  function TrustedSize<R>(c: Codec<R>, s: seq<Byte>): (n: nat)
    ensures n <= |s|
    decreases |s|
  {
    var n := LineEnd(s);
    if n == |s| then 0
    else if Blank(s[..n]) || c.parse(s[..n]).Some? then n + 1 + TrustedSize(c, s[n + 1..])
    else 0
  }

  /** Every complete line parses. */
  predicate Intact<R>(c: Codec<R>, s: seq<Byte>) {
    TrustedSize(c, s) == Boundary(s)
  }

  function Encoded<R>(c: Codec<R>, rs: seq<R>): seq<Byte> {
    if rs == [] then [] else c.encode(rs[0]) + [NEWLINE] + Encoded(c, rs[1..])
  }

  // ------------------------------------------------------------------- lemmas

  lemma LineEndIs(s: seq<Byte>, n: nat)
    requires n <= |s| && NEWLINE !in s[..n] && (n < |s| ==> s[n] == NEWLINE)
    ensures LineEnd(s) == n
  {
    var m := LineEnd(s);
    assert forall i | 0 <= i < n :: s[i] == s[..n][i];
    assert forall i | 0 <= i < m :: s[i] == s[..m][i];
  }

  lemma FirstLine(line: seq<Byte>, rest: seq<Byte>)
    requires NEWLINE !in line
    ensures LineEnd(line + [NEWLINE] + rest) == |line|
    ensures (line + [NEWLINE] + rest)[..|line|] == line && (line + [NEWLINE] + rest)[|line| + 1..] == rest
  {
    var s := line + [NEWLINE] + rest;
    assert s[..|line|] == line;
    LineEndIs(s, |line|);
  }

  /** The first line of a file, and what follows it. */
  lemma Cut(s: seq<Byte>) returns (line: seq<Byte>, rest: seq<Byte>)
    requires LineEnd(s) < |s|
    ensures NEWLINE !in line && s == line + [NEWLINE] + rest && |rest| < |s|
    ensures line == s[..LineEnd(s)] && rest == s[LineEnd(s) + 1..]
  {
    var n := LineEnd(s);
    line, rest := s[..n], s[n + 1..];
    hide LineEnd;
    assert s[n] == NEWLINE;
    assert s == line + [NEWLINE] + rest;
  }

  /** What a replay makes of a file's first line. */
  lemma Unfold<R>(c: Codec<R>, line: seq<Byte>, rest: seq<Byte>)
    requires NEWLINE !in line
    ensures
      var s := line + [NEWLINE] + rest;
      if Blank(line) then Trusted(c, s) == Trusted(c, rest) && TrustedSize(c, s) == |line| + 1 + TrustedSize(c, rest)
      else if c.parse(line).None? then Trusted(c, s) == [] && TrustedSize(c, s) == 0
      else Trusted(c, s) == [c.parse(line).value] + Trusted(c, rest)
           && TrustedSize(c, s) == |line| + 1 + TrustedSize(c, rest)
  {
    FirstLine(line, rest);
  }

  /** A file with no complete line holds nothing. */
  lemma NoLine<R>(c: Codec<R>, s: seq<Byte>)
    requires LineEnd(s) == |s|
    ensures Trusted(c, s) == [] && TrustedSize(c, s) == 0 && Boundary(s) == 0
  {
    assert s[..|s|] == s == s[0..];
    BoundaryIs(s, 0);
  }

  lemma BoundaryAfterLine(line: seq<Byte>, rest: seq<Byte>)
    ensures Boundary(line + [NEWLINE] + rest) == |line| + 1 + Boundary(rest)
  {
    var s := line + [NEWLINE] + rest;
    var n := |line| + 1 + Boundary(rest);
    assert s[n..] == rest[Boundary(rest)..];
    BoundaryIs(s, n);
  }

  lemma ConcatAssoc<T>(a: seq<T>, b: seq<T>, c: seq<T>)
    ensures a + (b + c) == a + b + c
  {
  }

  lemma TakeLine(line: seq<Byte>, rest: seq<Byte>, m: nat)
    requires m <= |rest|
    ensures (line + [NEWLINE] + rest)[..|line| + 1 + m] == line + [NEWLINE] + rest[..m]
    ensures (line + [NEWLINE] + rest)[..0] == []
  {
  }

  lemma DropLine(s: seq<Byte>, from: nat, line: seq<Byte>, rest: seq<Byte>)
    requires from <= |s| && s[from..] == line + [NEWLINE] + rest
    ensures from + |line| + 1 <= |s| && s[from..from + |line|] == line && s[from + |line| + 1..] == rest
  {
    assert s[from..from + |line|] == s[from..][..|line|];
    assert s[from + |line| + 1..] == s[from..][|line| + 1..];
  }

  /** Trusted lines are a prefix the rest of the file does not disturb. */
  lemma {:induction false} TrustedConcat<R>(c: Codec<R>, s: seq<Byte>, t: seq<Byte>)
    requires TrustedSize(c, s) == |s|
    ensures Trusted(c, s + t) == Trusted(c, s) + Trusted(c, t)
    ensures TrustedSize(c, s + t) == |s| + TrustedSize(c, t)
    decreases |s|
  {
    hide Trusted, TrustedSize, LineEnd, Boundary;
    if LineEnd(s) == |s| {
      NoLine(c, s);
      assert s + t == t;
    } else {
      var line, rest := Cut(s);
      Unfold(c, line, rest);
      Unfold(c, line, rest + t);
      ConcatAssoc(line + [NEWLINE], rest, t);
      TrustedConcat(c, rest, t);
    }
  }

  lemma {:induction false} TrustedIsBounded<R>(c: Codec<R>, s: seq<Byte>)
    ensures TrustedSize(c, s) <= Boundary(s)
    decreases |s|
  {
    hide Trusted, TrustedSize, LineEnd, Boundary;
    if LineEnd(s) == |s| {
      NoLine(c, s);
    } else {
      var line, rest := Cut(s);
      Unfold(c, line, rest);
      BoundaryAfterLine(line, rest);
      TrustedIsBounded(c, rest);
    }
  }

  /** Cutting a file back to what a replay trusts loses nothing it trusts. */
  lemma {:induction false} TrustedPrefix<R>(c: Codec<R>, s: seq<Byte>)
    ensures TrustedSize(c, s[..TrustedSize(c, s)]) == TrustedSize(c, s)
    ensures Trusted(c, s[..TrustedSize(c, s)]) == Trusted(c, s)
    decreases |s|
  {
    hide Trusted, TrustedSize, LineEnd, Boundary, Blank;
    NoLine(c, []);
    assert s[..0] == [];
    if LineEnd(s) == |s| {
      NoLine(c, s);
    } else {
      var line, rest := Cut(s);
      Unfold(c, line, rest);
      TrustedPrefix(c, rest);
      var m := TrustedSize(c, rest);
      Unfold(c, line, rest[..m]);
      TakeLine(line, rest, m);
    }
  }

  lemma {:induction false} EncodedTrusted<R(!new)>(c: Codec<R>, rs: seq<R>)
    requires Faithful(c)
    ensures TrustedSize(c, Encoded(c, rs)) == |Encoded(c, rs)| && Trusted(c, Encoded(c, rs)) == rs
  {
    hide Trusted, TrustedSize, Blank;
    if rs == [] {
      NoLine(c, []);
    } else {
      EncodedTrusted(c, rs[1..]);
      EncodedLine(c, rs[0], Encoded(c, rs[1..]));
      assert [rs[0]] + rs[1..] == rs;
    }
  }

  lemma EncodedLine<R(!new)>(c: Codec<R>, r: R, rest: seq<Byte>)
    requires Faithful(c)
    ensures
      var s := c.encode(r) + [NEWLINE] + rest;
      Trusted(c, s) == [r] + Trusted(c, rest) && TrustedSize(c, s) == |c.encode(r)| + 1 + TrustedSize(c, rest)
  {
    assert c.parse(c.encode(r)) == Some(r);
    hide Trusted, TrustedSize, Blank;
    Unfold(c, c.encode(r), rest);
  }

  /** Any cut through an encoded batch leaves whole lines and a torn fragment. */
  lemma {:induction false} CutBatch<R(!new)>(c: Codec<R>, rs: seq<R>, m: nat) returns (k: nat)
    requires Faithful(c) && m <= |Encoded(c, rs)|
    ensures k <= |rs| && |Encoded(c, rs[..k])| <= m && Encoded(c, rs)[..m][..|Encoded(c, rs[..k])|] == Encoded(c, rs[..k])
    ensures NEWLINE !in Encoded(c, rs)[..m][|Encoded(c, rs[..k])|..]
  {
    if rs == [] {
      k := 0;
    } else {
      var line, rest := c.encode(rs[0]) + [NEWLINE], Encoded(c, rs[1..]);
      if m < |line| {
        k := 0;
        assert Encoded(c, rs)[..m] == c.encode(rs[0])[..m];
      } else {
        var k0 := CutBatch(c, rs[1..], m - |line|);
        k := k0 + 1;
        assert rs[..k][0] == rs[0] && rs[..k][1..] == rs[1..][..k0];
        assert Encoded(c, rs)[..m] == line + rest[..m - |line|];
        assert Encoded(c, rs[..k]) == line + Encoded(c, rs[1..][..k0]);
        assert Encoded(c, rs)[..m][|Encoded(c, rs[..k])|..] == rest[..m - |line|][|Encoded(c, rs[1..][..k0])|..];
      }
    }
  }

  /** A line of nothing but spaces, tabs and other breaks is passed over, and no
      other line is. */
  lemma BlankSkipped<R>(c: Codec<R>, line: seq<Byte>, rest: seq<Byte>)
    requires NEWLINE !in line
    ensures (forall i | 0 <= i < |line| :: line[i] == 32 || 9 <= line[i] <= 13) ==>
              Trusted(c, line + [NEWLINE] + rest) == Trusted(c, rest)
    ensures (exists i :: 0 <= i < |line| && !(line[i] == 32 || 9 <= line[i] <= 13)) && c.parse(line).Some? ==>
              Trusted(c, line + [NEWLINE] + rest) == [c.parse(line).value] + Trusted(c, rest)
  {
    Unfold(c, line, rest);
    if i :| 0 <= i < |line| && !(line[i] == 32 || 9 <= line[i] <= 13) { assert line[i] in line && !IsSpace(line[i]); }
  }

  /** A torn fragment, or a complete line that does not parse and whatever is
      behind it: what a crash may leave past the whole lines. */
  predicate Junk<R>(c: Codec<R>, s: seq<Byte>) {
    LineEnd(s) == |s| || (!Blank(s[..LineEnd(s)]) && c.parse(s[..LineEnd(s)]).None?)
  }

  lemma JunkTrusted<R>(c: Codec<R>, s: seq<Byte>)
    requires Junk(c, s)
    ensures Trusted(c, s) == [] && TrustedSize(c, s) == 0
  {
  }

  /** A record boundary on an intact file keeps every record. */
  lemma KeptWhole<R>(c: Codec<R>, s: seq<Byte>)
    requires Intact(c, s)
    ensures
      var kept := s[..Boundary(s)];
      TrustedSize(c, kept) == |kept| && Trusted(c, kept) == Trusted(c, s)
  {
    TrustedPrefix(c, s);
  }

  /** Appending to an intact log and replaying it gives the old records and then
      the new, whatever torn or unparseable bytes end up behind them. */
  lemma AppendReplays<R(!new)>(c: Codec<R>, s: seq<Byte>, rs: seq<R>, junk: seq<Byte>)
    requires Faithful(c) && Intact(c, s) && Junk(c, junk)
    ensures
      var s' := s[..Boundary(s)] + Encoded(c, rs) + junk;
      Trusted(c, s') == Trusted(c, s) + rs && TrustedSize(c, s') == Boundary(s) + |Encoded(c, rs)|
  {
    hide Trusted, TrustedSize, Boundary;
    var kept := s[..Boundary(s)];
    KeptWhole(c, s);
    EncodedTrusted(c, rs);
    TrustedConcat(c, kept, Encoded(c, rs));
    TrustedConcat(c, kept + Encoded(c, rs), junk);
    JunkTrusted(c, junk);
    assert Trusted(c, s) + rs + [] == Trusted(c, s) + rs;
  }

  /** A batch cut at any byte leaves a whole-line prefix of its records. */
  lemma CutAppendReplays<R(!new)>(c: Codec<R>, s: seq<Byte>, rs: seq<R>, m: nat) returns (k: nat)
    requires Faithful(c) && Intact(c, s) && m <= |Encoded(c, rs)|
    ensures
      var s' := s[..Boundary(s)] + Encoded(c, rs)[..m];
      k <= |rs| && Trusted(c, s') == Trusted(c, s) + rs[..k] && Intact(c, s')
  {
    hide Trusted, TrustedSize, LineEnd;
    k := CutBatch(c, rs, m);
    var kept, lines := s[..Boundary(s)], Encoded(c, rs[..k]);
    var torn := Encoded(c, rs)[..m][|lines|..];
    TornIsJunk(c, torn);
    AppendReplays(c, s, rs[..k], torn);
    assert Encoded(c, rs)[..m] == lines + torn;
    ConcatAssoc(kept, lines, torn);
    EncodedEnds(c, rs[..k]);
    BoundaryEnds(kept + lines, torn);
  }

  lemma TornIsJunk<R>(c: Codec<R>, torn: seq<Byte>)
    requires NEWLINE !in torn
    ensures Junk(c, torn)
  {
    LineEndIs(torn, |torn|);
  }

  lemma {:induction false} EncodedEnds<R>(c: Codec<R>, rs: seq<R>)
    ensures rs != [] ==> Encoded(c, rs) != [] && Encoded(c, rs)[|Encoded(c, rs)| - 1] == NEWLINE
  {
    if |rs| > 1 { EncodedEnds(c, rs[1..]); }
  }

  lemma BoundaryEnds(whole: seq<Byte>, torn: seq<Byte>)
    requires NEWLINE !in torn && (whole != [] ==> whole[|whole| - 1] == NEWLINE)
    ensures Boundary(whole + torn) == |whole|
  {
    assert (whole + torn)[|whole|..] == torn;
    BoundaryIs(whole + torn, |whole|);
  }

  // ------------------------------------------------------------- the operations

  /** How a write of a batch ends: flushed; failed with some of its bytes on the
      medium, which then refuses or accepts the trim; or cut short by a crash. */
  datatype Outcome = Flushed | Failed(landed: nat, trimmed: bool) | Crashed(lines: nat, junk: seq<Byte>)

  /** What one append leaves on the medium, and what the load after a crash
      makes of it. */
  function After<R>(c: Codec<R>, s: seq<Byte>, rs: seq<R>, outcome: Outcome): seq<Byte> {
    var kept := s[..Boundary(s)];
    match outcome
    case Flushed => kept + Encoded(c, rs)
    case Failed(landed, trimmed) => if trimmed then kept else kept + Prefix(Encoded(c, rs), landed)
    case Crashed(lines, junk) =>
      var left := kept + Encoded(c, Prefix(rs, lines)) + junk;
      if Intact(c, left) then left else left[..TrustedSize(c, left)]
  }

  /** One append of an intact file leaves an intact file that gained all of a
      flushed batch, none of a trimmed one, and a whole-line prefix otherwise. */
  lemma AfterAppend<R(!new)>(c: Codec<R>, s: seq<Byte>, rs: seq<R>, outcome: Outcome) returns (k: nat)
    requires Faithful(c) && Intact(c, s) && (outcome.Crashed? ==> Junk(c, outcome.junk))
    ensures k <= |rs| && (outcome.Flushed? ==> k == |rs|) && (outcome.Failed? && outcome.trimmed ==> k == 0)
    ensures Intact(c, After(c, s, rs, outcome)) && Trusted(c, After(c, s, rs, outcome)) == Trusted(c, s) + rs[..k]
  {
    hide Trusted, TrustedSize, Boundary;
    var kept := s[..Boundary(s)];
    match outcome
    case Flushed =>
      k := |rs|;
      var m := CutAppendReplays(c, s, rs, |Encoded(c, rs)|);
      TornIsJunk(c, []);
      AppendReplays(c, s, rs, []);
      assert kept + Encoded(c, rs) + [] == kept + Encoded(c, rs) == kept + Encoded(c, rs)[..|Encoded(c, rs)|];
      assert rs[..k] == rs;
    case Failed(landed, trimmed) =>
      var m := if trimmed then 0 else if landed <= |Encoded(c, rs)| then landed else |Encoded(c, rs)|;
      k := CutAppendReplays(c, s, rs, m);
      assert kept + Encoded(c, rs)[..0] == kept;
      assert Encoded(c, rs)[..|Encoded(c, rs)|] == Encoded(c, rs);
      if trimmed {
        k := 0;
        KeptWhole(c, s);
        assert Trusted(c, s) + rs[..0] == Trusted(c, s);
      }
    case Crashed(lines, junk) =>
      k := if lines <= |rs| then lines else |rs|;
      assert Prefix(rs, lines) == rs[..k];
      AppendReplays(c, s, rs[..k], junk);
      var left := kept + Encoded(c, rs[..k]) + junk;
      TrustedPrefix(c, left);
      TrustedIsBounded(c, left[..TrustedSize(c, left)]);
  }

  datatype Event<R> = Event(records: seq<R>, outcome: Outcome)

  function AfterAll<R>(c: Codec<R>, s: seq<Byte>, events: seq<Event<R>>): seq<Byte> {
    if events == [] then s
    else
      var last := events[|events| - 1];
      After(c, AfterAll(c, s, events[..|events| - 1]), last.records, last.outcome)
  }

  /** The records each event contributes, of which `ks` says how many. */
  function Contributed<R>(events: seq<Event<R>>, ks: seq<nat>): seq<R>
    requires |ks| == |events|
  {
    if events == [] then []
    else Contributed(events[..|events| - 1], ks[..|events| - 1]) + Prefix(events[|events| - 1].records, ks[|ks| - 1])
  }

  /** After any mix of flushed, failed and crashed appends the log holds the
      flushed batches whole and in order, and of every other batch at most a
      whole-line prefix, in its place among them. */
  lemma {:induction false} AppendRun<R(!new)>(c: Codec<R>, s: seq<Byte>, events: seq<Event<R>>) returns (ks: seq<nat>)
    requires Faithful(c) && Intact(c, s)
    requires forall e | e in events && e.outcome.Crashed? :: Junk(c, e.outcome.junk)
    ensures |ks| == |events|
    ensures forall i | 0 <= i < |events| ::
              && ks[i] <= |events[i].records|
              && (events[i].outcome.Flushed? ==> ks[i] == |events[i].records|)
              && (events[i].outcome.Failed? && events[i].outcome.trimmed ==> ks[i] == 0)
    ensures Intact(c, AfterAll(c, s, events))
    ensures Trusted(c, AfterAll(c, s, events)) == Trusted(c, s) + Contributed(events, ks)
  {
    hide Trusted, Intact, After, Junk;
    if events == [] {
      ks := [];
      assert Trusted(c, s) + [] == Trusted(c, s);
    } else {
      var n := |events| - 1;
      var init, last := events[..n], events[n];
      assert last in events;
      var before := AppendRun(c, s, init);
      var k := AfterAppend(c, AfterAll(c, s, init), last.records, last.outcome);
      ks := before + [k];
      assert AfterAll(c, s, events) == After(c, AfterAll(c, s, init), last.records, last.outcome);
      ContributedMore(events, before, k);
      hide AfterAll, Contributed;
      ConcatAssoc(Trusted(c, s), Contributed(init, before), last.records[..k]);
    }
  }

  lemma ContributedMore<R>(events: seq<Event<R>>, before: seq<nat>, k: nat)
    requires |events| == |before| + 1 && k <= |events[|before|].records|
    ensures
      Contributed(events, before + [k])
      == Contributed(events[..|before|], before) + events[|before|].records[..k]
  {
    assert (before + [k])[..|before|] == before;
  }

  class AppendFile<R(!new)> {
    const codec: Codec<R>
    var bytes: seq<Byte>

    constructor (codec: Codec<R>)
      ensures bytes == [] && this.codec == codec
    {
      this.codec := codec;
      bytes := [];
    }

    /** Reads backward, a chunk at a time, for the last newline. */
    method LastRecordBoundary() returns (n: nat)
      ensures n == Boundary(bytes)
    {
      var off := |bytes|;
      while off > 0
        invariant 0 <= off <= |bytes| && NEWLINE !in bytes[off..]
      {
        var size := if CHUNK < off then CHUNK else off;
        off := off - size;
        var buf := bytes[off..off + size];
        var idx := LastNewline(buf);
        if idx >= 0 {
          n := off + idx + 1;
          assert bytes[n - 1] == buf[idx];
          forall i | n <= i < |bytes| ensures bytes[i] != NEWLINE {
            if i < off + size { assert bytes[i] == buf[i - off]; } else { assert bytes[i] == bytes[off + size..][i - off - size]; }
          }
          BoundaryIs(bytes, n);
          return;
        }
        forall i | off <= i < |bytes| ensures bytes[i] != NEWLINE {
          if i < off + size { assert bytes[i] == buf[i - off]; } else { assert bytes[i] == bytes[off + size..][i - off - size]; }
        }
      }
      assert bytes[0..] == bytes;
      BoundaryIs(bytes, 0);
      n := 0;
    }

    /** Trims any torn fragment, writes the batch at the record boundary, and
        flushes it; a failed write is trimmed back off. */
    method Append(rs: seq<R>, outcome: Outcome) returns (ok: bool)
      requires Faithful(codec) && (outcome.Crashed? ==> Junk(codec, outcome.junk))
      modifies this
      ensures ok <==> outcome.Flushed?
      ensures
        var kept := old(bytes)[..Boundary(old(bytes))];
        match outcome
        case Flushed => bytes == kept + Encoded(codec, rs)
        case Failed(landed, trimmed) =>
          bytes == if trimmed then kept else kept + Prefix(Encoded(codec, rs), landed)
        case Crashed(lines, junk) => bytes == kept + Encoded(codec, Prefix(rs, lines)) + junk
    {
      var data := EncodeAll(rs);
      var start := LastRecordBoundary();
      bytes := bytes[..start];
      match outcome
      case Flushed =>
        bytes := bytes + data;
        ok := true;
      case Failed(landed, trimmed) =>
        bytes := bytes + Prefix(data, landed);
        if trimmed { bytes := bytes[..start]; }
        ok := false;
      case Crashed(lines, junk) =>
        bytes := bytes + Encoded(codec, Prefix(rs, lines)) + junk;
        ok := false;
    }

    method EncodeAll(rs: seq<R>) returns (data: seq<Byte>)
      ensures data == Encoded(codec, rs)
    {
      data := [];
      for i := 0 to |rs|
        invariant data + Encoded(codec, rs[i..]) == Encoded(codec, rs)
      {
        assert rs[i..][0] == rs[i] && rs[i..][1..] == rs[i + 1..];
        var line := codec.encode(rs[i]) + [NEWLINE];
        assert data + (line + Encoded(codec, rs[i + 1..])) == data + line + Encoded(codec, rs[i + 1..]);
        data := data + line;
      }
      assert data + [] == data;
    }

    /** Reads the committed records, cutting the file back at the first complete
        line that does not parse. */
    method Replay() returns (rs: seq<R>, size: nat)
      modifies this
      ensures rs == Trusted(codec, old(bytes)) && size == TrustedSize(codec, old(bytes))
      ensures bytes == if Intact(codec, old(bytes)) then old(bytes) else old(bytes)[..size]
      ensures Intact(codec, bytes) && Trusted(codec, bytes) == rs
    {
      hide Trusted, TrustedSize, LineEnd, Boundary, Scanned;
      rs, size := [], 0;
      ghost var all := bytes;
      ScanStarts(codec, all);
      while size + LineEnd(bytes[size..]) < |bytes|
        invariant size <= |bytes| && bytes == all && Scanned(codec, all, size, rs)
      {
        var nl := LineEnd(bytes[size..]);
        var line := bytes[size..size + nl];
        ScanLine(codec, all, size, rs);
        if !Blank(line) {
          var r := codec.parse(line);
          if r.None? {
            bytes := bytes[..size];
            BoundaryWhole(codec, all, size);
            return;
          }
          rs := rs + [r.value];
        }
        size := size + nl + 1;
      }
      ScanEnds(codec, all, size, rs);
    }

    /** The records behind the offset a replay has reached. */
    static ghost predicate Scanned(codec: Codec<R>, all: seq<Byte>, size: nat, rs: seq<R>) {
      && size <= |all|
      && rs + Trusted(codec, all[size..]) == Trusted(codec, all)
      && size + TrustedSize(codec, all[size..]) == TrustedSize(codec, all)
      && Boundary(all) == size + Boundary(all[size..])
    }

    static lemma ScanStarts(codec: Codec<R>, all: seq<Byte>)
      ensures Scanned(codec, all, 0, [])
    {
      assert all[0..] == all;
    }

    static lemma ScanStep(codec: Codec<R>, all: seq<Byte>, size: nat, rs: seq<R>, line: seq<Byte>, rest: seq<Byte>)
      requires Scanned(codec, all, size, rs) && all[size..] == line + [NEWLINE] + rest && NEWLINE !in line
      requires size + |line| + 1 <= |all| && all[size + |line| + 1..] == rest
      ensures Blank(line) ==> Scanned(codec, all, size + |line| + 1, rs)
      ensures !Blank(line) && codec.parse(line).Some? ==>
                Scanned(codec, all, size + |line| + 1, rs + [codec.parse(line).value])
      ensures !Blank(line) && codec.parse(line).None? ==>
                rs == Trusted(codec, all) && size == TrustedSize(codec, all)
    {
      hide Trusted, TrustedSize, LineEnd, Boundary, Blank;
      Unfold(codec, line, rest);
      BoundaryAfterLine(line, rest);
      if codec.parse(line).Some? { ConcatAssoc(rs, [codec.parse(line).value], Trusted(codec, rest)); }
      assert rs + [] == rs;
    }

    static lemma ScanLine(codec: Codec<R>, all: seq<Byte>, size: nat, rs: seq<R>)
      requires size <= |all| && Scanned(codec, all, size, rs) && size + LineEnd(all[size..]) < |all|
      ensures
        var nl := LineEnd(all[size..]);
        var line := all[size..size + nl];
        if Blank(line) then Scanned(codec, all, size + nl + 1, rs)
        else if codec.parse(line).Some? then Scanned(codec, all, size + nl + 1, rs + [codec.parse(line).value])
        else rs == Trusted(codec, all) && size == TrustedSize(codec, all)
    {
      hide Scanned, Trusted, TrustedSize, LineEnd, Boundary, Blank;
      var line, rest := Cut(all[size..]);
      DropLine(all, size, line, rest);
      ScanStep(codec, all, size, rs, line, rest);
    }

    static lemma BoundaryWhole(codec: Codec<R>, all: seq<Byte>, size: nat)
      requires size == TrustedSize(codec, all)
      ensures Intact(codec, all[..size]) && Trusted(codec, all[..size]) == Trusted(codec, all)
    {
      TrustedPrefix(codec, all);
      TrustedIsBounded(codec, all[..size]);
    }

    static lemma ScanEnds(codec: Codec<R>, all: seq<Byte>, size: nat, rs: seq<R>)
      requires size <= |all| && Scanned(codec, all, size, rs) && LineEnd(all[size..]) == |all| - size
      ensures Intact(codec, all) && size == TrustedSize(codec, all) && rs == Trusted(codec, all)
    {
      NoLine(codec, all[size..]);
      assert rs + [] == rs;
    }
  }

  function Prefix<T>(s: seq<T>, n: nat): seq<T> {
    if n <= |s| then s[..n] else s
  }

  method LastNewline(buf: seq<Byte>) returns (idx: int)
    ensures -1 <= idx < |buf|
    ensures idx >= 0 ==> buf[idx] == NEWLINE
    ensures forall i | idx < i < |buf| :: buf[i] != NEWLINE
  {
    idx := |buf| - 1;
    while idx >= 0 && buf[idx] != NEWLINE
      invariant -1 <= idx < |buf|
      invariant forall i | idx < i < |buf| :: buf[i] != NEWLINE
    {
      idx := idx - 1;
    }
  }
}
