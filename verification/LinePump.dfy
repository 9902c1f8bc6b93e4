/**
 The worker's stdout reader (`pump_worker_lines` in `src/worker_session.rs`): a bounded read
 loop over one reused buffer that must behave as "split into lines, cut each one". The runner
 caps lines at 10 MiB; everything below holds for any positive cap.
 */
module LinePump {
  import opened LineIndex

  // ── The specification ─────────────────────────────────────────────────────────────────

  // The length of the first logical line, its newline included.
  function LineLength(s: seq<Byte>): (n: nat)
    ensures n <= |s|
    ensures s != [] ==> n > 0
  {
    if s == [] then 0 else if s[0] == NEWLINE then 1 else 1 + LineLength(s[1..])
  }

  function Lines(s: seq<Byte>): seq<seq<Byte>>
    decreases |s|
  {
    if s == [] then [] else [s[..LineLength(s)]] + Lines(s[LineLength(s)..])
  }

  function Cut(line: seq<Byte>, cap: nat): seq<Byte> {
    if |line| <= cap then line else line[..cap]
  }

  function CutAll(lines: seq<seq<Byte>>, cap: nat): seq<seq<Byte>> {
    if lines == [] then [] else [Cut(lines[0], cap)] + CutAll(lines[1..], cap)
  }

  predicate Terminated(line: seq<Byte>) {
    line != [] && line[|line| - 1] == NEWLINE
  }

  /** What a stream yields. A stream that breaks off with a read error loses an unterminated
      last line, unless the cap was already reached in it. */
  function Messages(s: seq<Byte>, cap: nat, fails: bool): seq<seq<Byte>>
    decreases |s|
  {
    if s == [] then []
    else
      var line := s[..LineLength(s)];
      if fails && !Terminated(line) && |line| < cap then []
      else [Cut(line, cap)] + Messages(s[|line|..], cap, fails)
  }

  function Prefix(messages: seq<seq<Byte>>, n: nat): seq<seq<Byte>> {
    if n <= |messages| then messages[..n] else messages
  }

  /** Without a read error: exactly one message per logical line, cut to the cap, in order. */
  lemma {:induction false} MessagesAreCutLines(s: seq<Byte>, cap: nat)
    ensures Messages(s, cap, false) == CutAll(Lines(s), cap)
    decreases |s|
  {
    if s == [] {
    } else {
      MessagesAreCutLines(s[LineLength(s)..], cap);
    }
  }

  function Join(lines: seq<seq<Byte>>): seq<Byte> {
    if lines == [] then [] else lines[0] + Join(lines[1..])
  }

  lemma {:induction false} LineShape(s: seq<Byte>)
    ensures forall i | 0 <= i < LineLength(s) - 1 :: s[i] != NEWLINE
    ensures LineLength(s) < |s| ==> s[LineLength(s) - 1] == NEWLINE
  {
    if s != [] && s[0] != NEWLINE {
      LineShape(s[1..]);
      assert forall i | 1 <= i < |s| :: s[i] == s[1..][i - 1];
    }
  }

  ghost predicate IsLine(line: seq<Byte>) {
    line != [] && forall i | 0 <= i < |line| - 1 :: line[i] != 10
  }

  lemma {:induction false} LinesJoin(s: seq<Byte>)
    ensures Join(Lines(s)) == s
    decreases |s|
  {
    if s == [] {
    } else {
      LinesJoin(s[LineLength(s)..]);
      assert s[..LineLength(s)] + s[LineLength(s)..] == s;
    }
  }

  /** The lines put together are the stream, and it is cut after each newline and nowhere else. */
  lemma {:induction false} LinesSplitTheStream(s: seq<Byte>)
    ensures Join(Lines(s)) == s
    ensures forall k | 0 <= k < |Lines(s)| :: IsLine(Lines(s)[k]) && (k < |Lines(s)| - 1 ==> Terminated(Lines(s)[k]))
    decreases |s|
  {
    LinesJoin(s);
    if s != [] {
      LineShape(s);
      var first, rest := s[..LineLength(s)], Lines(s[LineLength(s)..]);
      LinesSplitTheStream(s[LineLength(s)..]);
      assert IsLine(first) && (rest != [] ==> Terminated(first));
      forall k | 0 <= k < |Lines(s)|
        ensures IsLine(Lines(s)[k]) && (k < |Lines(s)| - 1 ==> Terminated(Lines(s)[k]))
      {
        if k > 0 {
          assert Lines(s)[k] == rest[k - 1];
        }
      }
    }
  }

  // ── The reader ────────────────────────────────────────────────────────────────────────

  datatype ReadResult = Read(count: nat) | Failed

  class ByteReader {
    const data: seq<Byte>
    const fails: bool   // whether the stream ends in an error rather than at its end
    var pos: nat

    ghost predicate Valid()
      reads this
    {
      pos <= |data|
    }

    constructor (data: seq<Byte>, fails: bool)
      ensures Valid() && this.data == data && this.fails == fails && pos == 0
    {
      this.data, this.fails, pos := data, fails, 0;
    }

    /** `take(limit).read_until(b'\n')` into a cleared buffer. */
    method ReadUntil(limit: nat) returns (r: ReadResult, buf: seq<Byte>)
      requires Valid()
      modifies this
      ensures Valid() && |buf| <= limit
      ensures r.Failed? <==> fails && |old(Line())| < limit && !Terminated(old(Line()))
      ensures r.Read? ==> r.count == |buf| && buf == Cut(old(Line()), limit) && pos == old(pos) + |buf|
    {
      buf := [];
      ghost var rest := data[pos..];
      LineShape(rest);
      while |buf| < limit && pos < |data| && !(buf != [] && buf[|buf| - 1] == NEWLINE)
        invariant pos == old(pos) + |buf| <= |data| && |buf| <= limit
        invariant |buf| <= LineLength(rest) && buf == rest[..|buf|]
        decreases |data| - pos
      {
        assert |buf| < LineLength(rest);
        buf, pos := buf + [data[pos]], pos + 1;
      }
      if fails && |buf| < limit && !(buf != [] && buf[|buf| - 1] == NEWLINE) {
        return Failed, buf;
      }
      return Read(|buf|), buf;
    }

    // `skip_until(b'\n')`: false on a read error.
    method SkipUntil() returns (ok: bool)
      requires Valid()
      modifies this
      ensures Valid()
      ensures ok <==> !fails || Terminated(old(Line()))
      ensures pos == old(pos) + |old(Line())|
    {
      ghost var rest := data[pos..];
      LineShape(rest);
      var done := false;
      while pos < |data| && !done
        invariant old(pos) <= pos <= |data|
        invariant pos - old(pos) <= LineLength(rest)
        invariant done ==> pos - old(pos) == LineLength(rest) && Terminated(rest[..LineLength(rest)])
        invariant !done ==> forall i | 0 <= i < pos - old(pos) :: rest[i] != NEWLINE
        decreases |data| - pos, !done
      {
        assert data[pos] == rest[pos - old(pos)];
        done := data[pos] == NEWLINE;
        pos := pos + 1;
      }
      ok := done || !fails;
    }

    // The logical line the reader stands at the start of.
    ghost function Line(): seq<Byte>
      requires Valid()
      reads this
    {
      data[pos..][..LineLength(data[pos..])]
    }
  }

  // ── The pump ──────────────────────────────────────────────────────────────────────────

  lemma CutThenSkip(s: seq<Byte>, cap: nat)
    requires 0 < cap
    requires s != []
    ensures
      var line := s[..LineLength(s)];
      |line| > cap ==>
        && !Terminated(Cut(line, cap))
        && var rest := s[cap..];
        rest[..LineLength(rest)] == line[cap..] && (Terminated(line[cap..]) <==> Terminated(line))
  {
    LineShape(s);
    var n := LineLength(s);
    if n > cap {
      SkipLength(s, cap);
    }
  }

  lemma {:induction false} SkipLength(s: seq<Byte>, k: nat)
    requires k < LineLength(s)
    ensures LineLength(s[k..]) == LineLength(s) - k
  {
    if k == 0 {
    } else {
      SkipLength(s[1..], k - 1);
      assert s[1..][k - 1..] == s[k..];
    }
  }

  // One bounded read: nothing at the end of the stream, else the next message.
  method ReadMessage(reader: ByteReader, cap: nat, ghost rest: seq<Byte>) returns (got: bool, buf: seq<Byte>)
    requires reader.Valid() && 0 < cap && rest == reader.data[reader.pos..]
    modifies reader
    ensures reader.Valid() && |buf| <= cap
    ensures !got ==> Messages(rest, cap, reader.fails) == []
    ensures got ==> buf == Cut(rest[..LineLength(rest)], cap) && rest != [] && reader.pos > old(reader.pos)
    ensures got ==> reader.data[reader.pos..] == rest[|buf|..]
    ensures got ==> Messages(rest, cap, reader.fails) == [buf] + Messages(rest[LineLength(rest)..], cap, reader.fails)
  {
    var r;
    r, buf := reader.ReadUntil(cap);
    got := !r.Failed? && r.count > 0;
    assert got ==> reader.data[reader.pos..] == rest[|buf|..];
  }

  // After a message: if its line is longer than what was read, pass over the remainder.
  method DiscardRest(reader: ByteReader, cap: nat, buf: seq<Byte>, ghost rest: seq<Byte>) returns (ok: bool)
    requires reader.Valid() && 0 < cap && rest != []
    requires buf == Cut(rest[..LineLength(rest)], cap) && reader.data[reader.pos..] == rest[|buf|..]
    modifies reader
    ensures reader.Valid() && reader.pos >= old(reader.pos)
    ensures ok ==> reader.data[reader.pos..] == rest[LineLength(rest)..]
    ensures !ok ==> rest[LineLength(rest)..] == []
  {
    ghost var line := rest[..LineLength(rest)];
    LineShape(rest);
    CutThenSkip(rest, cap);
    ok := true;
    if |buf| >= cap && buf[|buf| - 1] != NEWLINE {
      if |line| > cap {
        assert reader.Line() == line[cap..];
      } else {
        assert rest[|buf|..] == [] && reader.Line() == [];
      }
      ok := reader.SkipUntil();
      assert reader.data[reader.pos..] == rest[|line|..];
    } else {
      assert buf == line;
    }
  }

  lemma Shift(sent: seq<seq<Byte>>, buf: seq<Byte>, later: seq<seq<Byte>>, left: seq<seq<Byte>>, all: seq<seq<Byte>>)
    requires left == [buf] + later && sent + left == all
    ensures (sent + [buf]) + later == all
  {
  }

  lemma PrefixReached(sent: seq<seq<Byte>>, left: seq<seq<Byte>>, all: seq<seq<Byte>>, room: nat)
    requires sent + left == all && |sent| <= room && (left == [] || |sent| == room)
    ensures sent == Prefix(all, room)
  {
  }

  /** Forwards the stream's messages until the receiver, which takes `room` of them, goes away.
      The buffer never exceeds the cap. */
  method Pump(reader: ByteReader, cap: nat, room: nat) returns (sent: seq<seq<Byte>>, peak: nat)
    requires reader.Valid() && reader.pos == 0 && 0 < cap
    modifies reader
    ensures sent == Prefix(Messages(reader.data, cap, reader.fails), room)
    ensures peak <= cap
  {
    sent, peak := [], 0;
    var open := true;
    ghost var all := Messages(reader.data, cap, reader.fails);
    ghost var rest, left := reader.data, all;
    while open
      invariant reader.Valid() && peak <= cap && |sent| <= room
      invariant open ==> rest == reader.data[reader.pos..]
      invariant left == Messages(rest, cap, reader.fails) && sent + left == all
      invariant !open ==> left == [] || |sent| == room
      decreases open, |reader.data| - reader.pos
    {
      var got, buf := ReadMessage(reader, cap, rest);
      peak := if |buf| > peak then |buf| else peak;
      if !got || |sent| == room {
        open := false;
      } else {
        open := DiscardRest(reader, cap, buf, rest);
        rest := rest[LineLength(rest)..];
        Shift(sent, buf, Messages(rest, cap, reader.fails), left, all);
        sent, left := sent + [buf], Messages(rest, cap, reader.fails);
      }
    }
    PrefixReached(sent, left, all, room);
  }
}
