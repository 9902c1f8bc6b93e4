/**
 Reading one group's results from a worker (`src/parallel/drain.rs`): which lines count, when
 the watchdog fires, and what is made up for the tests a lost worker never reported.
 */
module Draining {
  import opened Options
  import opened Grouping

  // A line of worker stdout, as the parser sees it.
  datatype Wire =
    | Blank
    | Diagnostic | Trace | UnknownType
    | NonProtocol
    | GoodResult(id: string)
    | SalvagedResult(id: string)   // says it is a result but only its ID can be read
    | BadResult                    // says it is a result but nothing in it can be read

  datatype LineKind = Consumed | AnswersWith(id: string) | Noise

  const MALFORMED := "<worker>::malformed_output"

  function Classify(wire: Wire): LineKind {
    match wire
    case Blank => Noise
    case NonProtocol => Noise
    case Diagnostic => Consumed
    case Trace => Consumed
    case UnknownType => Consumed
    case GoodResult(id) => AnswersWith(id)
    case SalvagedResult(id) => AnswersWith(id)
    case BadResult => AnswersWith(MALFORMED)
  }

  // A line and the time it reaches the drain.
  datatype Arrival = Arrival(time: nat, wire: Wire)

  datatype End = Complete | TimedOut | Disconnected

  /** What draining `need` results comes to. `closes` is when stdout closes, if it ever does. */
  function Drain(lines: seq<Arrival>, closes: Option<nat>, need: nat, deadline: nat, watchdog: nat): (End, seq<string>)
    decreases lines
  {
    if need == 0 then (Complete, [])
    else if lines == [] then
      (if closes.Some? && closes.value < deadline then Disconnected else TimedOut, [])
    else if lines[0].time >= deadline then (TimedOut, [])
    else
      match Classify(lines[0].wire)
      case Noise => Drain(lines[1..], closes, need, deadline, watchdog)
      case Consumed => Drain(lines[1..], closes, need, lines[0].time + watchdog, watchdog)
      case AnswersWith(id) =>
        var (end, ids) := Drain(lines[1..], closes, need - 1, lines[0].time + watchdog, watchdog);
        (end, [id] + ids)
  }

  // ── What is read, line by line ────────────────────────────────────────────────────────

  // The lines that answer for a test, and under which ID.
  predicate IsAnswer(wire: Wire) {
    wire.GoodResult? || wire.SalvagedResult? || wire.BadResult?
  }

  function AnswerId(wire: Wire): string
    requires IsAnswer(wire)
  {
    if wire.BadResult? then "<worker>::malformed_output" else wire.id
  }

  // The lines that show the worker alive: protocol traffic, an answer or not.
  predicate IsTraffic(wire: Wire) {
    IsAnswer(wire) || wire.Diagnostic? || wire.Trace? || wire.UnknownType?
  }

  function Answers(lines: seq<Arrival>): seq<string> {
    if lines == [] then []
    else
      var last := lines[|lines| - 1].wire;
      Answers(lines[..|lines| - 1]) + if IsAnswer(last) then [AnswerId(last)] else []
  }

  /** When the watchdog fires unless line `k` comes before: a whole watchdog after the last
      protocol line, or after the start if there was none. Other output does not matter. */
  function FiresAt(lines: seq<Arrival>, k: nat, deadline: nat, watchdog: nat): nat
    requires k <= |lines|
  {
    if k == 0 then deadline
    else if IsTraffic(lines[k - 1].wire) then lines[k - 1].time + watchdog
    else FiresAt(lines, k - 1, deadline, watchdog)
  }

  // The first `n` lines all come before the watchdog fires.
  ghost predicate ReadInTime(lines: seq<Arrival>, n: nat, deadline: nat, watchdog: nat) {
    n <= |lines| && forall k | 0 <= k < n :: lines[k].time < FiresAt(lines, k, deadline, watchdog)
  }

  // Why the drain stops after the first `n` lines.
  ghost predicate StopsAt(lines: seq<Arrival>, n: nat, closes: Option<nat>, need: nat, deadline: nat, watchdog: nat, end: End)
    requires n <= |lines|
  {
    match end
    case Complete => |Answers(lines[..n])| == need
    case TimedOut =>
      && |Answers(lines[..n])| < need
      && if n < |lines| then lines[n].time >= FiresAt(lines, n, deadline, watchdog)
         else closes.Some? ==> closes.value >= FiresAt(lines, n, deadline, watchdog)
    case Disconnected =>
      |Answers(lines[..n])| < need && n == |lines| && closes.Some? && closes.value < FiresAt(lines, n, deadline, watchdog)
  }

  /** The drain read the first `n` lines, all in time, sent on exactly their answers, in order, and
      stopped for the reason it gives. */
  ghost predicate Reads(lines: seq<Arrival>, n: nat, closes: Option<nat>, need: nat, deadline: nat, watchdog: nat, end: End, sent: seq<string>) {
    && ReadInTime(lines, n, deadline, watchdog)
    && sent == Answers(lines[..n])
    && StopsAt(lines, n, closes, need, deadline, watchdog, end)
  }

  lemma {:induction false} AnswersCons(first: Arrival, lines: seq<Arrival>)
    ensures Answers([first] + lines) == (if IsAnswer(first.wire) then [AnswerId(first.wire)] else []) + Answers(lines)
  {
    var all := [first] + lines;
    if lines == [] {
      assert all[..0] == [];
    } else {
      var n := |lines| - 1;
      AnswersCons(first, lines[..n]);
      assert all[..n + 1] == [first] + lines[..n];
    }
  }

  // When the watchdog fires, seen from the second line on.
  lemma {:induction false} FiresCons(lines: seq<Arrival>, k: nat, deadline: nat, watchdog: nat)
    requires lines != [] && k < |lines|
    ensures FiresAt(lines, k + 1, deadline, watchdog)
         == FiresAt(lines[1..], k, if IsTraffic(lines[0].wire) then lines[0].time + watchdog else deadline, watchdog)
  {
    if k == 0 {
    } else {
      FiresCons(lines, k - 1, deadline, watchdog);
    }
  }

  // What is still needed, and when the watchdog fires, after one line.
  function NeedAfter(wire: Wire, need: nat): nat {
    if IsAnswer(wire) && need > 0 then need - 1 else need
  }

  function DeadlineAfter(line: Arrival, deadline: nat, watchdog: nat): nat {
    if IsTraffic(line.wire) then line.time + watchdog else deadline
  }

  function AnswerOf(wire: Wire): seq<string> {
    if IsAnswer(wire) then [AnswerId(wire)] else []
  }

  lemma InTimeOneMore(lines: seq<Arrival>, n: nat, deadline: nat, watchdog: nat)
    requires lines != [] && lines[0].time < deadline
    requires ReadInTime(lines[1..], n, DeadlineAfter(lines[0], deadline, watchdog), watchdog)
    ensures ReadInTime(lines, n + 1, deadline, watchdog)
    ensures FiresAt(lines, n + 1, deadline, watchdog) == FiresAt(lines[1..], n, DeadlineAfter(lines[0], deadline, watchdog), watchdog)
  {
    FiresCons(lines, n, deadline, watchdog);
    forall k | 0 <= k < n + 1 ensures lines[k].time < FiresAt(lines, k, deadline, watchdog) {
      if k > 0 {
        FiresCons(lines, k - 1, deadline, watchdog);
        assert lines[1..][k - 1] == lines[k];
      }
    }
  }

  lemma ReadOneMore(lines: seq<Arrival>, n: nat, closes: Option<nat>, need: nat, deadline: nat, watchdog: nat, end: End, sent: seq<string>)
    requires lines != [] && lines[0].time < deadline && need > 0
    requires Reads(lines[1..], n, closes, NeedAfter(lines[0].wire, need), DeadlineAfter(lines[0], deadline, watchdog), watchdog, end, sent)
    ensures Reads(lines, n + 1, closes, need, deadline, watchdog, end, AnswerOf(lines[0].wire) + sent)
  {
    InTimeOneMore(lines, n, deadline, watchdog);
    AnswersOneMore(lines, n);
    assert n < |lines[1..]| ==> lines[1..][n] == lines[n + 1];
  }

  lemma AnswersOneMore(lines: seq<Arrival>, n: nat)
    requires lines != [] && n < |lines|
    ensures Answers(lines[..n + 1]) == AnswerOf(lines[0].wire) + Answers(lines[1..][..n])
  {
    AnswersCons(lines[0], lines[1..][..n]);
    assert lines[..n + 1] == [lines[0]] + lines[1..][..n];
  }

  // The drain's own step.
  lemma DrainUnfolds(lines: seq<Arrival>, closes: Option<nat>, need: nat, deadline: nat, watchdog: nat)
    requires need > 0 && lines != [] && lines[0].time < deadline
    ensures
      var r := Drain(lines[1..], closes, NeedAfter(lines[0].wire, need), DeadlineAfter(lines[0], deadline, watchdog), watchdog);
      Drain(lines, closes, need, deadline, watchdog) == (r.0, AnswerOf(lines[0].wire) + r.1)
  {
    var r := Drain(lines[1..], closes, NeedAfter(lines[0].wire, need), DeadlineAfter(lines[0], deadline, watchdog), watchdog);
    assert [] + r.1 == r.1;
  }

  lemma NothingRead(lines: seq<Arrival>, closes: Option<nat>, need: nat, deadline: nat, watchdog: nat)
    requires need == 0 || lines == [] || lines[0].time >= deadline
    ensures var r := Drain(lines, closes, need, deadline, watchdog); Reads(lines, 0, closes, need, deadline, watchdog, r.0, r.1)
  {
    assert lines[..0] == [];
  }

  /** What draining comes to, on the lines themselves. */
  lemma {:induction false} DrainReads(lines: seq<Arrival>, closes: Option<nat>, need: nat, deadline: nat, watchdog: nat) returns (n: nat)
    ensures var r := Drain(lines, closes, need, deadline, watchdog); Reads(lines, n, closes, need, deadline, watchdog, r.0, r.1)
    decreases lines
  {
    if need > 0 && lines != [] && lines[0].time < deadline {
      var need', deadline' := NeedAfter(lines[0].wire, need), DeadlineAfter(lines[0], deadline, watchdog);
      var k := DrainReads(lines[1..], closes, need', deadline', watchdog);
      var r := Drain(lines[1..], closes, need', deadline', watchdog);
      DrainUnfolds(lines, closes, need, deadline, watchdog);
      ReadOneMore(lines, k, closes, need, deadline, watchdog, r.0, r.1);
      n := k + 1;
    } else {
      NothingRead(lines, closes, need, deadline, watchdog);
      n := 0;
    }
  }

  ghost predicate Drained(lines: seq<Arrival>, closes: Option<nat>, need: nat, deadline: nat, watchdog: nat, end: End, sent: seq<string>) {
    exists n: nat :: Reads(lines, n, closes, need, deadline, watchdog, end, sent)
  }

  lemma DrainIsRight(lines: seq<Arrival>, closes: Option<nat>, need: nat, deadline: nat, watchdog: nat, r: (End, seq<string>))
    requires r == Drain(lines, closes, need, deadline, watchdog)
    ensures Drained(lines, closes, need, deadline, watchdog, r.0, r.1)
  {
    var n := DrainReads(lines, closes, need, deadline, watchdog);
  }

  lemma {:induction false} AnswersGrow(lines: seq<Arrival>, m: nat, n: nat)
    requires m <= n <= |lines|
    ensures Answers(lines[..m]) <= Answers(lines[..n])
    decreases n
  {
    if m < n {
      AnswersGrow(lines, m, n - 1);
      assert lines[..n][..n - 1] == lines[..n - 1];
    }
  }

  /** The drain is complete exactly if the answers it needs are reached before the watchdog fires:
      with no gap of a whole watchdog after a protocol line. */
  lemma CompleteExactly(lines: seq<Arrival>, closes: Option<nat>, need: nat, deadline: nat, watchdog: nat)
    ensures Drain(lines, closes, need, deadline, watchdog).0.Complete? <==>
      exists n: nat :: ReadInTime(lines, n, deadline, watchdog) && |Answers(lines[..n])| == need
  {
    var end := Drain(lines, closes, need, deadline, watchdog).0;
    var n := DrainReads(lines, closes, need, deadline, watchdog);
    if m: nat :| ReadInTime(lines, m, deadline, watchdog) && |Answers(lines[..m])| == need {
      if !end.Complete? {
        assert m <= n;
        AnswersGrow(lines, m, n);
      }
    }
  }

  // ── The loop ──────────────────────────────────────────────────────────────────────────

  // One line, read in time.
  method TakeLine(line: Arrival, received: nat, sent: seq<string>, deadline: nat, watchdog: nat)
    returns (received': nat, sent': seq<string>, deadline': nat)
    ensures received' == received + |AnswerOf(line.wire)| && sent' == sent + AnswerOf(line.wire)
    ensures deadline' == DeadlineAfter(line, deadline, watchdog)
  {
    received', sent', deadline' := received, sent, deadline;
    match Classify(line.wire) {
      case Noise =>
      case Consumed => deadline' := line.time + watchdog;
      case AnswersWith(id) =>
        received', sent', deadline' := received + 1, sent + [id], line.time + watchdog;
    }
  }

  method ReadLines(lines: seq<Arrival>, closes: Option<nat>, start: nat, expected: nat, watchdog: nat)
    returns (end: End, received: nat, sent: seq<string>)
    ensures (end, sent) == Drain(lines, closes, expected, start + watchdog, watchdog)
    ensures received == |sent| <= expected
    ensures end.Complete? <==> received == expected
  {
    received, sent := 0, [];
    var deadline: nat := start + watchdog;
    var at := 0;
    ghost var whole := Drain(lines, closes, expected, deadline, watchdog);
    ghost var left := whole;
    assert lines[0..] == lines;
    while true
      invariant 0 <= at <= |lines| && received == |sent| && received <= expected
      invariant left == Drain(lines[at..], closes, expected - received, deadline, watchdog)
      invariant whole.0 == left.0 && whole.1 == sent + left.1
      decreases |lines| - at
    {
      assert sent + [] == sent;
      if received >= expected {
        return Complete, received, sent;
      }
      if at == |lines| {
        end := if closes.Some? && closes.value < deadline then Disconnected else TimedOut;
        return;
      }
      var line := lines[at];
      assert lines[at..][1..] == lines[at + 1..] && lines[at..][0] == line;
      if line.time >= deadline {
        return TimedOut, received, sent;
      }
      DrainUnfolds(lines[at..], closes, expected - received, deadline, watchdog);
      at := at + 1;
      received, sent, deadline := TakeLine(line, received, sent, deadline, watchdog);
      left := Drain(lines[at..], closes, expected - received, deadline, watchdog);
    }
  }

  /** The results of one group: the lines are read until enough of them answer, the watchdog fires
      or stdout closes. */
  method DrainWorkerResults(lines: seq<Arrival>, closes: Option<nat>, start: nat, expected: nat, watchdog: nat)
    returns (end: End, received: nat, sent: seq<string>)
    ensures (end, sent) == Drain(lines, closes, expected, start + watchdog, watchdog)
    ensures received == |sent| <= expected
    ensures end.Complete? <==> received == expected
    ensures Drained(lines, closes, expected, start + watchdog, watchdog, end, sent)
  {
    end, received, sent := ReadLines(lines, closes, start, expected, watchdog);
    DrainIsRight(lines, closes, expected, start + watchdog, watchdog, (end, sent));
  }

  // ── Stray output changes nothing ──────────────────────────────────────────────────────

  function WithoutNoise(lines: seq<Arrival>): seq<Arrival> {
    if lines == [] then []
    else (if IsTraffic(lines[0].wire) then [lines[0]] else []) + WithoutNoise(lines[1..])
  }

  ghost predicate InTime(lines: seq<Arrival>, closes: Option<nat>, from: nat) {
    && (forall i | 0 <= i < |lines| :: from <= lines[i].time)
    && (forall i, j | 0 <= i < j < |lines| :: lines[i].time <= lines[j].time)
    && (closes.Some? ==> from <= closes.value && forall i | 0 <= i < |lines| :: lines[i].time <= closes.value)
  }

  lemma {:induction false} WithoutNoiseLate(lines: seq<Arrival>, from: nat)
    requires forall i | 0 <= i < |lines| :: from <= lines[i].time
    ensures forall i | 0 <= i < |WithoutNoise(lines)| :: from <= WithoutNoise(lines)[i].time
  {
    if lines == [] {
    } else {
      WithoutNoiseLate(lines[1..], from);
    }
  }

  /** Blank lines and output that is not protocol traffic affect neither the results nor when
      the watchdog fires: a worker cannot be kept alive by spamming them. */
  lemma {:induction false} NoiseIsIgnored(lines: seq<Arrival>, closes: Option<nat>, from: nat, need: nat, deadline: nat, watchdog: nat)
    requires InTime(lines, closes, from)
    ensures Drain(lines, closes, need, deadline, watchdog) == Drain(WithoutNoise(lines), closes, need, deadline, watchdog)
    decreases lines
  {
    if need > 0 && lines != [] {
      var first, rest := lines[0], lines[1..];
      assert InTime(rest, closes, first.time);
      WithoutNoiseLate(rest, first.time);
      var quiet := WithoutNoise(rest);
      match Classify(first.wire) {
        case Noise =>
          assert WithoutNoise(lines) == quiet;
          if first.time < deadline {
            NoiseIsIgnored(rest, closes, first.time, need, deadline, watchdog);
          }
        case Consumed =>
          assert WithoutNoise(lines) == [first] + quiet && WithoutNoise(lines)[1..] == quiet;
          NoiseIsIgnored(rest, closes, first.time, need, first.time + watchdog, watchdog);
        case AnswersWith(id) =>
          assert WithoutNoise(lines) == [first] + quiet && WithoutNoise(lines)[1..] == quiet;
          NoiseIsIgnored(rest, closes, first.time, need - 1, first.time + watchdog, watchdog);
      }
    }
  }

  /** A line that says it is a result but cannot be read counts as one, under an ID that is no
      test's. */
  lemma BadResultTakesASlot(lines: seq<Arrival>, closes: Option<nat>, need: nat, deadline: nat, watchdog: nat)
    requires need > 0 && lines != [] && lines[0].wire == BadResult && lines[0].time < deadline
    ensures var rest := Drain(lines[1..], closes, need - 1, lines[0].time + watchdog, watchdog);
            Drain(lines, closes, need, deadline, watchdog) == (rest.0, [MALFORMED] + rest.1)
    ensures need == 1 ==> Drain(lines, closes, need, deadline, watchdog) == (Complete, [MALFORMED])
  {
    assert Classify(lines[0].wire) == AnswersWith(MALFORMED);
    assert [MALFORMED] + [] == [MALFORMED];
  }

  // ── Results made up for a lost worker ─────────────────────────────────────────────────

  /** The IDs reported for a group: those received, then one for every item after them. */
  function Reported(ids: seq<string>, got: seq<string>): seq<string>
    requires |got| <= |ids|
  {
    got + ids[|got|..]
  }

  // `handle_drain_outcome`: whether the worker lives on, and what is sent in its place.
  method HandleDrainOutcome(end: End, received: nat, ids: seq<string>) returns (alive: bool, sent: seq<string>)
    requires received <= |ids|
    ensures alive <==> end.Complete?
    ensures sent == if alive then [] else ids[received..]
  {
    sent := [];
    if end.Complete? {
      return true, sent;
    }
    for i := received to |ids|
      invariant sent == ids[received..i]
    {
      sent := sent + [ids[i]];
    }
    return false, sent;
  }

  /** Every item of a drained group is accounted for by exactly one result in number; by exactly
      one result of its own if and only if the received results are for the first items. */
  lemma OneResultPerItem(ids: seq<string>, got: seq<string>)
    requires |got| <= |ids|
    ensures |Reported(ids, got)| == |ids|
    ensures multiset(Reported(ids, got)) == multiset(ids) <==> multiset(got) == multiset(ids[..|got|])
  {
    var k := |got|;
    assert ids == ids[..k] + ids[k..];
    if multiset(Reported(ids, got)) == multiset(ids) {
      forall x ensures multiset(got)[x] == multiset(ids[..k])[x] {
        assert multiset(Reported(ids, got))[x] == multiset(got)[x] + multiset(ids[k..])[x];
        assert multiset(ids)[x] == multiset(ids[..k])[x] + multiset(ids[k..])[x];
      }
    }
  }

  /** Which test loses its result and which one gets a second: with different IDs, a test is
      reported never exactly if it is among the first `|got|` and was not received, and more than
      once if it was received although it is among the last. */
  lemma LostAndDoubled(ids: seq<string>, got: seq<string>, x: string)
    requires |got| <= |ids| && Distinct(ids) && x in ids
    ensures Count(Reported(ids, got), x) == 0 <==> x in ids[..|got|] && x !in got
    ensures Count(Reported(ids, got), x) > 1 <==> (x in ids[|got|..] && x in got) || Count(got, x) > 1
  {
    var k := |got|;
    CountConcat(got, ids[k..], x);
    assert ids == ids[..k] + ids[k..];
    CountConcat(ids[..k], ids[k..], x);
    CountDistinct(ids, x);
    CountIs(ids[..k], x);
    CountIs(ids[k..], x);
    CountIs(got, x);
  }
}
