/**
 Retrying failed tests (`src/retry.rs`). What an attempt comes to is the environment's choice,
 for each entry of the list of failed items anew; attempts are numbered from 1.
 */
module Retry {
  import opened Options
  import opened Grouping
  import opened TimingCache

  datatype Attempt = Attempt(hardFailure: bool, duration: real)

  // Of an entry of the failed list, by its position, and the attempt's number.
  type Attempts = (nat, nat) -> Attempt

  function TimingIds(timings: seq<TestTiming>): seq<string> {
    seq(|timings|, i requires 0 <= i < |timings| => timings[i].id)
  }

  // ── Which items failed ────────────────────────────────────────────────────────────────

  predicate FailedIn(timings: seq<TestTiming>, id: string) {
    exists t | t in timings :: t.id == id && t.outcome in {Failed, Error, Timeout}
  }

  // The items that failed, in order.
  function FailedOf(items: seq<string>, timings: seq<TestTiming>): seq<string> {
    if items == [] then []
    else FailedOf(items[..|items| - 1], timings) + if FailedIn(timings, items[|items| - 1]) then [items[|items| - 1]] else []
  }

  method IdentifyFailedItems(items: seq<string>, timings: seq<TestTiming>) returns (failed: seq<(string, OutcomeKind)>)
    ensures Firsts(failed) == FailedOf(items, timings)
    ensures forall f | f in failed :: exists t | t in timings :: t.id == f.0 && t.outcome == f.1 && f.1 in {Failed, Error, Timeout}
  {
    var kinds: map<string, OutcomeKind> := map[];
    for i := 0 to |timings|
      invariant forall id :: id in kinds <==> FailedIn(timings[..i], id)
      invariant forall id | id in kinds :: IsRetryableFailure(kinds[id]) && exists t | t in timings[..i] :: t.id == id && t.outcome == kinds[id]
    {
      assert timings[..i + 1] == timings[..i] + [timings[i]];
      if IsRetryableFailure(timings[i].outcome) {
        kinds := kinds[timings[i].id := timings[i].outcome];
      }
    }
    assert timings[..|timings|] == timings;
    failed := [];
    for i := 0 to |items|
      invariant Firsts(failed) == FailedOf(items[..i], timings)
      invariant forall f | f in failed :: f.0 in kinds && f.1 == kinds[f.0]
    {
      assert items[..i + 1][..i] == items[..i];
      if items[i] in kinds {
        assert Firsts(failed + [(items[i], kinds[items[i]])]) == Firsts(failed) + [items[i]];
        failed := failed + [(items[i], kinds[items[i]])];
      }
    }
    assert items[..|items|] == items;
  }

  function Firsts<A, B>(xs: seq<(A, B)>): seq<A> {
    seq(|xs|, i requires 0 <= i < |xs| => xs[i].0)
  }

  // ── The retries ───────────────────────────────────────────────────────────────────────

  // The first attempt after `from` that is not a hard failure.
  function FirstPass(attempts: Attempts, entry: nat, from: nat, max: nat): (r: Option<nat>)
    ensures r.Some? ==> from < r.value <= max && !attempts(entry, r.value).hardFailure
    ensures r.Some? ==> forall k | from < k < r.value :: attempts(entry, k).hardFailure
    ensures r.None? ==> forall k | from < k <= max :: attempts(entry, k).hardFailure
    decreases max - from
  {
    if from >= max then None
    else if !attempts(entry, from + 1).hardFailure then Some(from + 1)
    else FirstPass(attempts, entry, from + 1, max)
  }

  predicate Recovers(attempts: Attempts, entry: nat, max: nat) {
    FirstPass(attempts, entry, 0, max).Some?
  }

  function FlakyTiming(attempts: Attempts, entry: nat, id: string, max: nat): TestTiming
    requires Recovers(attempts, entry, max)
  {
    TestTiming(id, attempts(entry, FirstPass(attempts, entry, 0, max).value).duration, Flaky)
  }

  function FlakyTimings(failed: seq<string>, attempts: Attempts, max: nat): seq<TestTiming> {
    if failed == [] then []
    else
      var n := |failed| - 1;
      FlakyTimings(failed[..n], attempts, max) + if Recovers(attempts, n, max) then [FlakyTiming(attempts, n, failed[n], max)] else []
  }

  // The attempts of one entry, up to the first that is not a hard failure.
  method RetryOne(attempts: Attempts, entry: nat, max: nat) returns (passed: bool, attempt: nat)
    ensures FirstPass(attempts, entry, 0, max) == if passed then Some(attempt) else None
  {
    attempt, passed := 0, false;
    while attempt < max && !passed
      invariant attempt <= max
      invariant !passed ==> FirstPass(attempts, entry, 0, max) == FirstPass(attempts, entry, attempt, max)
      invariant passed ==> FirstPass(attempts, entry, 0, max) == Some(attempt)
      decreases max - attempt, !passed
    {
      attempt := attempt + 1;
      passed := !attempts(entry, attempt).hardFailure;
    }
  }

  /** Each failed item is run again until an attempt is not a hard failure, at most `max` times. */
  method RunRetries(failed: seq<string>, attempts: Attempts, max: nat) returns (flakyIds: seq<string>, timings: seq<TestTiming>)
    ensures timings == FlakyTimings(failed, attempts, max)
    ensures flakyIds == TimingIds(timings)
  {
    flakyIds, timings := [], [];
    for i := 0 to |failed|
      invariant timings == FlakyTimings(failed[..i], attempts, max)
      invariant flakyIds == TimingIds(timings)
    {
      assert failed[..i + 1][..i] == failed[..i];
      var id := failed[i];
      var passed, attempt := RetryOne(attempts, i, max);
      if passed {
        timings := timings + [TestTiming(id, attempts(i, attempt).duration, Flaky)];
        flakyIds := flakyIds + [id];
      }
    }
    assert failed[..|failed|] == failed;
  }

  // ── Merging ───────────────────────────────────────────────────────────────────────────

  // The timings of tests that did not turn out flaky.
  function Others(timings: seq<TestTiming>, flaky: set<string>): seq<TestTiming> {
    if timings == [] then []
    else
      var t := timings[|timings| - 1];
      Others(timings[..|timings| - 1], flaky) + if t.id in flaky then [] else [t]
  }

  method MergeFlakyTimings(original: seq<TestTiming>, flakyIds: seq<string>, retried: seq<TestTiming>) returns (merged: seq<TestTiming>)
    ensures merged == Others(original, set id | id in flakyIds) + retried
  {
    var flaky := set id | id in flakyIds;
    merged := [];
    for i := 0 to |original|
      invariant merged == Others(original[..i], flaky)
    {
      assert original[..i + 1][..i] == original[..i];
      if original[i].id !in flaky {
        merged := merged + [original[i]];
      }
    }
    assert original[..|original|] == original;
    merged := merged + retried;
  }

  /** The whole phase, as one value. */
  function AfterRetries(items: seq<string>, timings: seq<TestTiming>, attempts: Attempts, max: nat): seq<TestTiming> {
    var retried := FlakyTimings(FailedOf(items, timings), attempts, max);
    Others(timings, set id | id in TimingIds(retried)) + retried
  }

  method RetryPhase(items: seq<string>, timings: seq<TestTiming>, attempts: Attempts, max: nat) returns (merged: seq<TestTiming>)
    ensures merged == AfterRetries(items, timings, attempts, max)
  {
    var failed := IdentifyFailedItems(items, timings);
    var flakyIds, retried := RunRetries(Firsts(failed), attempts, max);
    merged := MergeFlakyTimings(timings, flakyIds, retried);
  }

  // ── What becomes of each entry ────────────────────────────────────────────────────────

  // Entry `i` of the failed list is for this test, and an allowed attempt of it recovers.
  predicate RecoversAt(failed: seq<string>, attempts: Attempts, max: nat, id: string, i: nat) {
    i < |failed| && failed[i] == id && Recovers(attempts, i, max)
  }

  // In how many of its entries the test recovers.
  ghost function Recoveries(failed: seq<string>, attempts: Attempts, max: nat, id: string): nat {
    if failed == [] then 0
    else
      var n := |failed| - 1;
      Recoveries(failed[..n], attempts, max, id) + if RecoversAt(failed, attempts, max, id, n) then 1 else 0
  }

  /** A test turns flaky: it is among the items, failed, and an allowed attempt recovers. */
  ghost predicate TurnsFlaky(items: seq<string>, timings: seq<TestTiming>, attempts: Attempts, max: nat, id: string) {
    exists i: nat :: RecoversAt(FailedOf(items, timings), attempts, max, id, i)
  }

  lemma {:induction false} FlakyCount(failed: seq<string>, attempts: Attempts, max: nat, id: string)
    ensures Count(TimingIds(FlakyTimings(failed, attempts, max)), id) == Recoveries(failed, attempts, max, id)
  {
    if failed == [] {
      assert TimingIds([]) == [];
    } else {
      var n := |failed| - 1;
      var retried := FlakyTimings(failed[..n], attempts, max);
      FlakyCount(failed[..n], attempts, max, id);
      if Recovers(attempts, n, max) {
        var t := FlakyTiming(attempts, n, failed[n], max);
        assert TimingIds(retried + [t])[..|retried|] == TimingIds(retried) && TimingIds(retried + [t])[|retried|] == failed[n];
      } else {
        assert retried + [] == retried;
      }
    }
  }

  lemma {:induction false} SomeRecovery(failed: seq<string>, attempts: Attempts, max: nat, id: string)
    ensures Recoveries(failed, attempts, max, id) > 0 <==> exists i: nat :: RecoversAt(failed, attempts, max, id, i)
  {
    if failed == [] {
    } else {
      var n := |failed| - 1;
      SomeRecovery(failed[..n], attempts, max, id);
      if i: nat :| RecoversAt(failed[..n], attempts, max, id, i) {
        assert RecoversAt(failed, attempts, max, id, i);
      }
      if i: nat :| RecoversAt(failed, attempts, max, id, i) {
        assert i < n ==> RecoversAt(failed[..n], attempts, max, id, i);
      }
    }
  }

  lemma {:induction false} OthersCount(timings: seq<TestTiming>, flaky: set<string>, id: string)
    ensures Count(TimingIds(Others(timings, flaky)), id) == if id in flaky then 0 else Count(TimingIds(timings), id)
  {
    if timings == [] {
      assert TimingIds(timings) == [];
    } else {
      var n := |timings| - 1;
      var others, t := Others(timings[..n], flaky), timings[n];
      OthersCount(timings[..n], flaky, id);
      assert TimingIds(timings) == TimingIds(timings[..n]) + [t.id] && TimingIds(others + [t]) == TimingIds(others) + [t.id];
      CountConcat(TimingIds(timings[..n]), [t.id], id);
      CountConcat(TimingIds(others), [t.id], id);
      assert Count([t.id], id) == if t.id == id then 1 else 0;
      assert others + [] == others;
    }
  }

  lemma CountPositive(xs: seq<string>, x: string)
    ensures Count(xs, x) > 0 <==> x in xs
  {
    CountIs(xs, x);
  }

  lemma TimingIdsConcat(a: seq<TestTiming>, b: seq<TestTiming>, id: string)
    ensures Count(TimingIds(a + b), id) == Count(TimingIds(a), id) + Count(TimingIds(b), id)
  {
    assert TimingIds(a + b) == TimingIds(a) + TimingIds(b);
    CountConcat(TimingIds(a), TimingIds(b), id);
  }

  /** How often an ID is reported after the phase, for all inputs: a test that turns flaky once
      for each of its entries that recovers, any other as before. */
  lemma MergedCount(items: seq<string>, timings: seq<TestTiming>, attempts: Attempts, max: nat, id: string)
    ensures Count(TimingIds(AfterRetries(items, timings, attempts, max)), id)
         == if TurnsFlaky(items, timings, attempts, max, id) then Recoveries(FailedOf(items, timings), attempts, max, id)
            else Count(TimingIds(timings), id)
  {
    var failed := FailedOf(items, timings);
    var retried := FlakyTimings(failed, attempts, max);
    var flaky := set id | id in TimingIds(retried);
    FlakyCount(failed, attempts, max, id);
    SomeRecovery(failed, attempts, max, id);
    CountPositive(TimingIds(retried), id);
    OthersCount(timings, flaky, id);
    TimingIdsConcat(Others(timings, flaky), retried, id);
  }

  /** Merging keeps the reported IDs exactly if every test that turns flaky recovers in as many
      entries as it is reported. */
  lemma IdsKept(items: seq<string>, timings: seq<TestTiming>, attempts: Attempts, max: nat)
    ensures multiset(TimingIds(AfterRetries(items, timings, attempts, max))) == multiset(TimingIds(timings)) <==>
      forall id | TurnsFlaky(items, timings, attempts, max, id) ::
        Recoveries(FailedOf(items, timings), attempts, max, id) == Count(TimingIds(timings), id)
  {
    var merged, failed := AfterRetries(items, timings, attempts, max), FailedOf(items, timings);
    forall id ensures Count(TimingIds(merged), id)
                   == if TurnsFlaky(items, timings, attempts, max, id) then Recoveries(failed, attempts, max, id) else Count(TimingIds(timings), id)
    {
      MergedCount(items, timings, attempts, max, id);
    }
    if forall id | TurnsFlaky(items, timings, attempts, max, id) :: Recoveries(failed, attempts, max, id) == Count(TimingIds(timings), id) {
      Permutation(TimingIds(merged), TimingIds(timings));
    }
    if multiset(TimingIds(merged)) == multiset(TimingIds(timings)) {
      forall id ensures Count(TimingIds(merged), id) == Count(TimingIds(timings), id) {
        CountIs(TimingIds(merged), id);
        CountIs(TimingIds(timings), id);
      }
    }
  }

  // With each item listed once and reported once, the condition holds of every environment.
  lemma {:induction false} RecoveriesBounded(failed: seq<string>, attempts: Attempts, max: nat, id: string)
    ensures Recoveries(failed, attempts, max, id) <= Count(failed, id)
  {
    if failed == [] {
    } else {
      RecoveriesBounded(failed[..|failed| - 1], attempts, max, id);
    }
  }

  lemma {:induction false} FailedCount(items: seq<string>, timings: seq<TestTiming>, id: string)
    ensures Count(FailedOf(items, timings), id) == if FailedIn(timings, id) then Count(items, id) else 0
  {
    if items == [] {
    } else {
      var n := |items| - 1;
      var failed := FailedOf(items[..n], timings);
      FailedCount(items[..n], timings, id);
      if FailedIn(timings, items[n]) {
        assert (failed + [items[n]])[..|failed|] == failed;
      } else {
        assert failed + [] == failed;
      }
    }
  }

  /** So it does whatever the attempts come to, if no item is listed twice and none reported
      twice. */
  lemma DistinctIdsKept(items: seq<string>, timings: seq<TestTiming>, attempts: Attempts, max: nat)
    requires Distinct(items) && Distinct(TimingIds(timings))
    ensures multiset(TimingIds(AfterRetries(items, timings, attempts, max))) == multiset(TimingIds(timings))
  {
    var failed := FailedOf(items, timings);
    IdsKept(items, timings, attempts, max);
    forall id | TurnsFlaky(items, timings, attempts, max, id)
      ensures Recoveries(failed, attempts, max, id) == Count(TimingIds(timings), id)
    {
      SomeRecovery(failed, attempts, max, id);
      RecoveriesBounded(failed, attempts, max, id);
      FailedCount(items, timings, id);
      CountDistinct(items, id);
      CountDistinct(TimingIds(timings), id);
      FailedReported(timings, id);
    }
  }

  lemma FailedReported(timings: seq<TestTiming>, id: string)
    ensures FailedIn(timings, id) ==> Count(TimingIds(timings), id) > 0
  {
    CountPositive(TimingIds(timings), id);
    if FailedIn(timings, id) {
      var t :| t in timings && t.id == id;
      var i :| 0 <= i < |timings| && timings[i] == t;
      assert TimingIds(timings)[i] == id;
    }
  }

  lemma {:induction false} OthersMember(timings: seq<TestTiming>, flaky: set<string>, t: TestTiming)
    ensures t in Others(timings, flaky) <==> t in timings && t.id !in flaky
  {
    if timings == [] {
    } else {
      var n := |timings| - 1;
      OthersMember(timings[..n], flaky, t);
      assert timings == timings[..n] + [timings[n]];
    }
  }

  // Entry `i` recovers with this timing.
  ghost predicate RecoversWith(failed: seq<string>, attempts: Attempts, max: nat, t: TestTiming, i: nat) {
    RecoversAt(failed, attempts, max, t.id, i) && t == FlakyTiming(attempts, i, t.id, max)
  }

  lemma {:induction false} FlakyMember(failed: seq<string>, attempts: Attempts, max: nat, t: TestTiming)
    ensures t in FlakyTimings(failed, attempts, max) <==> exists i: nat :: RecoversWith(failed, attempts, max, t, i)
  {
    if failed == [] {
    } else {
      var n := |failed| - 1;
      FlakyMember(failed[..n], attempts, max, t);
      assert t in FlakyTimings(failed, attempts, max) <==>
        t in FlakyTimings(failed[..n], attempts, max) || RecoversWith(failed, attempts, max, t, n);
      EarlierEntry(failed, attempts, max, t);
      if i: nat :| RecoversWith(failed[..n], attempts, max, t, i) {
        assert RecoversWith(failed, attempts, max, t, i);
      }
      if i: nat :| RecoversWith(failed, attempts, max, t, i) {
        assert i < n ==> RecoversWith(failed[..n], attempts, max, t, i);
      }
    }
  }

  lemma EarlierEntry(failed: seq<string>, attempts: Attempts, max: nat, t: TestTiming)
    requires failed != []
    ensures forall i: nat | i < |failed| - 1 :: RecoversWith(failed, attempts, max, t, i) <==> RecoversWith(failed[..|failed| - 1], attempts, max, t, i)
  {
  }

  lemma {:induction false} FailedMember(items: seq<string>, timings: seq<TestTiming>, id: string)
    ensures id in FailedOf(items, timings) <==> id in items && FailedIn(timings, id)
  {
    if items == [] {
    } else {
      var n := |items| - 1;
      FailedMember(items[..n], timings, id);
      assert items == items[..n] + [items[n]];
    }
  }

  /** What the phase reports of each test: the first recovering attempt of each of its entries,
      as flaky, if it turns flaky, and otherwise what was reported before; nothing else. */
  lemma EntriesAfterRetries(items: seq<string>, timings: seq<TestTiming>, attempts: Attempts, max: nat, t: TestTiming)
    ensures t in AfterRetries(items, timings, attempts, max) <==>
      if TurnsFlaky(items, timings, attempts, max, t.id) then
        exists i: nat :: RecoversWith(FailedOf(items, timings), attempts, max, t, i)
      else t in timings
    ensures TurnsFlaky(items, timings, attempts, max, t.id) ==> t.id in items && FailedIn(timings, t.id)
  {
    var failed := FailedOf(items, timings);
    var retried := FlakyTimings(failed, attempts, max);
    FlakyCount(failed, attempts, max, t.id);
    SomeRecovery(failed, attempts, max, t.id);
    CountPositive(TimingIds(retried), t.id);
    var flaky := set id | id in TimingIds(retried);
    OthersMember(timings, flaky, t);
    FailedMember(items, timings, t.id);
    FlakyMember(failed, attempts, max, t);
  }
}
