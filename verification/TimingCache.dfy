/**
 The timing and outcome cache (`src/cache/timing.rs`, `src/cache/outcome.rs`): the code that
 updates it run by run, and what its contents say about the history of runs.
 */
module TimingCache {
  import opened Options
  import opened Sizes

  datatype OutcomeKind =
    Passed | Failed | Error | Skipped | Warned | XFailed | XPassed | Timeout | Flaky | Unknown

  predicate IsRetryableFailure(k: OutcomeKind) {
    k == Failed || k == Error || k == Timeout
  }

  datatype TestTiming = TestTiming(id: string, duration: real, outcome: OutcomeKind)

  type Run = seq<TestTiming>

  const U32_MAX: nat := 0xFFFF_FFFF

  type U32 = n: nat | n <= U32_MAX

  // `age` wraps around, as an unchecked 32-bit increment does; `flakyCount` saturates.
  datatype CacheEntry = CacheEntry(duration: real, age: U32, lastOutcome: Option<OutcomeKind>, flakyCount: U32)

  function Older(age: U32): U32 {
    if age == U32_MAX then 0 else age + 1
  }

  function Saturate(n: nat): U32 {
    if n <= U32_MAX then n else U32_MAX
  }

  function Lookup(m: map<string, CacheEntry>, id: string): Option<CacheEntry> {
    if id in m then Some(m[id]) else None
  }

  // ── One entry through one run ─────────────────────────────────────────────────────────

  // The timings of one test in a run, in order.
  function Of(run: Run, id: string): seq<TestTiming> {
    if run == [] then []
    else if run[|run| - 1].id == id then Of(run[..|run| - 1], id) + [run[|run| - 1]]
    else Of(run[..|run| - 1], id)
  }

  predicate Executed(run: Run, id: string) {
    Of(run, id) != []
  }

  function LastOf(run: Run, id: string): TestTiming
    requires Executed(run, id)
  {
    Of(run, id)[|Of(run, id)| - 1]
  }

  function FlakyOf(run: Run, id: string): nat {
    if run == [] then 0
    else FlakyOf(run[..|run| - 1], id) + if run[|run| - 1].id == id && run[|run| - 1].outcome == Flaky then 1 else 0
  }

  function Touched(e: Option<CacheEntry>, t: TestTiming): CacheEntry {
    match e
    case None => CacheEntry(t.duration, 0, None, 0)
    case Some(e) => CacheEntry(t.duration, 0, e.lastOutcome, e.flakyCount)
  }

  function Aged(e: Option<CacheEntry>, maxAge: U32): Option<CacheEntry> {
    if e.Some? && Older(e.value.age) <= maxAge then Some(e.value.(age := Older(e.value.age))) else None
  }

  // What merging a run's timings makes of one entry.
  function AfterMerge(e: Option<CacheEntry>, run: Run, id: string, maxAge: U32): Option<CacheEntry> {
    if Executed(run, id) then Some(Touched(e, LastOf(run, id))) else Aged(e, maxAge)
  }

  // The two halves of merging: timings first, then ageing.
  function TouchedBy(e: Option<CacheEntry>, run: Run, id: string): Option<CacheEntry> {
    if Executed(run, id) then Some(Touched(e, LastOf(run, id))) else e
  }

  function Retained(e: Option<CacheEntry>, run: Run, id: string, maxAge: U32): Option<CacheEntry> {
    if Executed(run, id) then e else Aged(e, maxAge)
  }

  // What recording a run's outcomes makes of one entry.
  function AfterRecord(e: Option<CacheEntry>, run: Run, id: string): Option<CacheEntry> {
    if e.None? || !Executed(run, id) then e
    else
      Some(CacheEntry(e.value.duration, e.value.age, Some(LastOf(run, id).outcome),
                      Saturate(e.value.flakyCount + FlakyOf(run, id))))
  }

  lemma {:induction false} ExecutedIff(run: Run, id: string)
    ensures Executed(run, id) <==> exists t :: t in run && t.id == id
  {
    if run == [] {
    } else {
      ExecutedIff(run[..|run| - 1], id);
      assert run == run[..|run| - 1] + [run[|run| - 1]];
    }
  }

  lemma {:induction false} NoFlakyUnlessRun(run: Run, id: string)
    requires !Executed(run, id)
    ensures FlakyOf(run, id) == 0
  {
    if run == [] {
    } else {
      NoFlakyUnlessRun(run[..|run| - 1], id);
    }
  }

  lemma OneMoreOf(run: Run, i: nat, id: string)
    requires i < |run|
    ensures Of(run[..i + 1], id) == if run[i].id == id then Of(run[..i], id) + [run[i]] else Of(run[..i], id)
    ensures FlakyOf(run[..i + 1], id) == FlakyOf(run[..i], id) + if run[i].id == id && run[i].outcome == Flaky then 1 else 0
  {
    assert run[..i + 1][..i] == run[..i];
  }

  // Recording one timing.
  function Recorded(e: CacheEntry, t: TestTiming): CacheEntry {
    CacheEntry(e.duration, e.age, Some(t.outcome), if t.outcome == Flaky then Saturate(e.flakyCount + 1) else e.flakyCount)
  }

  lemma OneMoreRecorded(e: Option<CacheEntry>, run: Run, i: nat, id: string)
    requires i < |run|
    ensures AfterRecord(e, run[..i + 1], id)
         == var r := AfterRecord(e, run[..i], id);
            if r.Some? && run[i].id == id then Some(Recorded(r.value, run[i])) else r
  {
    OneMoreOf(run, i, id);
    if !Executed(run[..i], id) {
      NoFlakyUnlessRun(run[..i], id);
    }
  }

  // `now` is `before` with the outcomes of `run` recorded.
  ghost predicate RecordedUpTo(before: map<string, CacheEntry>, now: map<string, CacheEntry>, run: Run) {
    forall id :: Lookup(now, id) == AfterRecord(Lookup(before, id), run, id)
  }

  // ── The cache ─────────────────────────────────────────────────────────────────────────

  class TestCache {
    var timings: map<string, CacheEntry>
    var dirty: bool

    // `load`, given what the file holds; nothing for a missing or unreadable one.
    constructor (loaded: map<string, CacheEntry>)
      ensures timings == loaded && !dirty
    {
      timings, dirty := loaded, false;
    }

    // The loop over the run's timings.
    method Touch(run: Run)
      modifies `timings
      ensures forall id :: Lookup(timings, id) == TouchedBy(Lookup(old(timings), id), run, id)
      ensures run == [] ==> timings == old(timings)
    {
      for i := 0 to |run|
        invariant forall id :: Lookup(timings, id) == TouchedBy(Lookup(old(timings), id), run[..i], id)
        invariant i == 0 ==> timings == old(timings)
      {
        forall id {
          OneMoreOf(run, i, id);
        }
        timings := timings[run[i].id := Touched(Lookup(timings, run[i].id), run[i])];
      }
      assert run[..|run|] == run;
    }

    // The retaining pass: every entry of a test that did not run grows older.
    method Retain(executed: set<string>, ghost run: Run, maxAge: U32)
      requires forall id :: id in executed <==> Executed(run, id)
      modifies `timings
      ensures forall id :: Lookup(timings, id) == Retained(Lookup(old(timings), id), run, id, maxAge)
      ensures timings.Keys <= old(timings).Keys
    {
      var pending := timings.Keys;
      while pending != {}
        invariant pending <= timings.Keys <= old(timings).Keys
        invariant forall id | id in pending :: timings[id] == old(timings)[id]
        invariant forall id | id !in pending :: Lookup(timings, id) == Retained(Lookup(old(timings), id), run, id, maxAge)
        decreases |pending|
      {
        var id :| id in pending;
        pending := pending - {id};
        if id !in executed {
          var e := timings[id].(age := Older(timings[id].age));
          timings := if e.age <= maxAge then timings[id := e] else timings - {id};
        }
      }
    }

    /** Executed tests get their last timing and age 0; the others grow older by one and go when
        they pass `maxAge`. */
    method MergeTimings(run: Run, maxAge: U32)
      modifies this
      ensures forall id :: Lookup(timings, id) == AfterMerge(Lookup(old(timings), id), run, id, maxAge)
      ensures dirty == (old(dirty) || run != [] || timings.Keys != old(timings).Keys)
    {
      var executed := set t | t in run :: t.id;
      forall id ensures id in executed <==> Executed(run, id) {
        ExecutedIff(run, id);
      }
      Touch(run);
      var before := |timings.Keys|;
      ghost var touched := timings;
      Retain(executed, run, maxAge);
      WholeSet(timings.Keys, touched.Keys);
      if run != [] || |timings.Keys| != before {
        dirty := true;
      }
    }

    // One timing's outcome, if its test has an entry.
    method RecordOutcome(t: TestTiming, ghost before: map<string, CacheEntry>, ghost run: Run, ghost i: nat)
      returns (changed: bool)
      requires i < |run| && t == run[i] && RecordedUpTo(before, timings, run[..i])
      modifies `timings
      ensures RecordedUpTo(before, timings, run[..i + 1]) && timings.Keys == old(timings).Keys
      ensures changed <==> t.id in timings
    {
      forall id ensures AfterRecord(Lookup(before, id), run[..i + 1], id)
                     == if id in timings && t.id == id then Some(Recorded(timings[id], t)) else Lookup(timings, id)
      {
        OneMoreRecorded(Lookup(before, id), run, i, id);
      }
      changed := t.id in timings;
      if changed {
        timings := timings[t.id := Recorded(timings[t.id], t)];
      }
    }

    /** The entries of executed tests take the last outcome, and count the flaky ones. */
    method RecordTimingOutcomes(run: Run)
      modifies this
      ensures RecordedUpTo(old(timings), timings, run)
      ensures timings.Keys == old(timings).Keys
      ensures dirty == (old(dirty) || exists t :: t in run && t.id in old(timings))
    {
      var changed := false;
      for i := 0 to |run|
        invariant RecordedUpTo(old(timings), timings, run[..i])
        invariant timings.Keys == old(timings).Keys && dirty == old(dirty)
        invariant changed <==> exists j | 0 <= j < i :: run[j].id in old(timings)
      {
        var more := RecordOutcome(run[i], old(timings), run, i);
        changed := changed || more;
      }
      assert run[..|run|] == run;
      if changed {
        dirty := true;
      }
    }

    /** `invalidate`: only the collected tests keep their entries. */
    method Invalidate(items: seq<string>)
      modifies this
      ensures forall id :: Lookup(timings, id) == if id in items then Lookup(old(timings), id) else None
      ensures dirty == (old(dirty) || exists id :: id in old(timings) && id !in items)
    {
      var before := |timings.Keys|;
      var live := set id | id in items;
      var pending := timings.Keys;
      while pending != {}
        invariant pending <= timings.Keys <= old(timings).Keys && dirty == old(dirty)
        invariant forall id | id in timings :: timings[id] == old(timings)[id]
        invariant forall id | id in old(timings) && id !in pending :: id in timings <==> id in items
        decreases |pending|
      {
        var id :| id in pending;
        pending := pending - {id};
        if id !in live {
          timings := timings - {id};
        }
      }
      WholeSet(timings.Keys, old(timings).Keys);
      if |timings.Keys| != before {
        dirty := true;
      }
    }
  }

  // `last_failed_ids`
  function LastFailed(timings: map<string, CacheEntry>): set<string> {
    set id | id in timings && timings[id].lastOutcome.Some? && IsRetryableFailure(timings[id].lastOutcome.value)
  }
}
