/**
 Nothing is lost between the collected items and the recorded results: through grouping and
 scheduling, through any interleaving of the workers, and through the coordinator that reads
 their results (`run_phase_parallel` in `src/parallel/mod.rs`, `handle_worker_result` and
 `drain_remaining_into_crashed` in `src/parallel/drain.rs`).
 */
module Conservation {
  import opened Paths
  import opened Grouping
  import opened Scheduling
  import opened Queueing
  import opened Draining
  import opened Workers

  // ── Permutations through a measure ────────────────────────────────────────────────────

  ghost function Total<T>(xs: seq<T>, m: T -> nat): nat {
    if xs == [] then 0 else Total(xs[..|xs| - 1], m) + m(xs[|xs| - 1])
  }

  lemma {:induction false} TotalConcat<T>(a: seq<T>, b: seq<T>, m: T -> nat)
    ensures Total(a + b, m) == Total(a, m) + Total(b, m)
  {
    if b == [] {
      assert a + b == a;
    } else {
      assert (a + b)[..|a + b| - 1] == a + b[..|b| - 1];
      TotalConcat(a, b[..|b| - 1], m);
    }
  }

  lemma TotalWithoutOne<T>(b: seq<T>, j: nat, m: T -> nat)
    requires j < |b|
    ensures Total(b, m) == Total(b[..j] + b[j + 1..], m) + m(b[j])
  {
    assert b[..j + 1][..j] == b[..j] && b == b[..j + 1] + b[j + 1..];
    TotalConcat(b[..j + 1], b[j + 1..], m);
    TotalConcat(b[..j], b[j + 1..], m);
  }

  lemma CountWithoutOne<T>(b: seq<T>, j: nat, x: T)
    requires j < |b|
    ensures Count(b, x) == Count(b[..j] + b[j + 1..], x) + if b[j] == x then 1 else 0
  {
    assert b == b[..j] + ([b[j]] + b[j + 1..]);
    CountConcat(b[..j], [b[j]] + b[j + 1..], x);
    CountConcat([b[j]], b[j + 1..], x);
    CountConcat(b[..j], b[j + 1..], x);
  }

  lemma {:induction false} TotalPermutes<T(!new)>(a: seq<T>, b: seq<T>, m: T -> nat)
    requires |a| == |b| && forall x :: Count(a, x) == Count(b, x)
    ensures Total(a, m) == Total(b, m)
    decreases a
  {
    if a == [] {
    } else {
      var n := |a| - 1;
      assert Count(b, a[n]) > 0;
      CountIs(b, a[n]);
      var j :| 0 <= j < |b| && b[j] == a[n];
      var rest := b[..j] + b[j + 1..];
      forall x ensures Count(a[..n], x) == Count(rest, x) {
        CountWithoutOne(b, j, x);
      }
      TotalWithoutOne(b, j, m);
      TotalPermutes(a[..n], rest, m);
    }
  }

  lemma SameCounts<T(!new)>(a: seq<T>, b: seq<T>)
    requires multiset(a) == multiset(b)
    ensures |a| == |b| && forall x :: Count(a, x) == Count(b, x)
  {
    assert |multiset(a)| == |a| && |multiset(b)| == |b|;
    forall x ensures Count(a, x) == Count(b, x) {
      CountIs(a, x);
      CountIs(b, x);
    }
  }

  lemma {:induction false} ItemsTotal(groups: seq<ModuleGroup>, x: TestItem)
    ensures Count(ItemsOf(groups), x) == Total(groups, (g: ModuleGroup) => Count(g.items, x))
  {
    if groups == [] {
    } else {
      var n := |groups| - 1;
      ItemsTotal(groups[..n], x);
      CountConcat(ItemsOf(groups[..n]), groups[n].items, x);
    }
  }

  lemma ItemsOfPermutes(a: seq<ModuleGroup>, b: seq<ModuleGroup>)
    requires multiset(a) == multiset(b)
    ensures multiset(ItemsOf(a)) == multiset(ItemsOf(b))
  {
    SameCounts(a, b);
    forall x ensures Count(ItemsOf(a), x) == Count(ItemsOf(b), x) {
      ItemsTotal(a, x);
      ItemsTotal(b, x);
      TotalPermutes(a, b, (g: ModuleGroup) => Count(g.items, x));
    }
    Permutation(ItemsOf(a), ItemsOf(b));
  }

  lemma {:induction false} IdsTotal(items: seq<TestItem>, id: string)
    ensures Count(IdsOf(items), id) == Total(items, (t: TestItem) => if t.nodeId == id then 1 else 0)
  {
    if items == [] {
      assert IdsOf(items) == [];
    } else {
      var n := |items| - 1;
      IdsTotal(items[..n], id);
      assert IdsOf(items)[..n] == IdsOf(items[..n]);
    }
  }

  lemma IdsOfPermutes(a: seq<TestItem>, b: seq<TestItem>)
    requires multiset(a) == multiset(b)
    ensures multiset(IdsOf(a)) == multiset(IdsOf(b))
  {
    SameCounts(a, b);
    forall id ensures Count(IdsOf(a), id) == Count(IdsOf(b), id) {
      IdsTotal(a, id);
      IdsTotal(b, id);
      TotalPermutes(a, b, (t: TestItem) => if t.nodeId == id then 1 else 0);
    }
    Permutation(IdsOf(a), IdsOf(b));
  }

  // ── The items of a queue ──────────────────────────────────────────────────────────────

  function GroupIds(groups: seq<TaskGroup>): seq<string> {
    IdsOf(ItemsOf(ModulesIn(groups)))
  }

  lemma DistinctPathsPermute(a: seq<ModuleGroup>, b: seq<ModuleGroup>)
    requires DistinctPaths(a) && multiset(a) == multiset(b)
    ensures DistinctPaths(b)
  {
    forall p, q | 0 <= p < q < |b| ensures b[p].modulePath != b[q].modulePath {
      assert b[p] in multiset(a) && b[q] in multiset(a);
      if b[p] == b[q] {
        CountTwice(b, p, q);
        CountIs(a, b[p]);
        CountIs(b, b[p]);
        CountDistinct(a, b[p]);
      }
    }
  }

  // ── From items to the queue ───────────────────────────────────────────────────────────

  /** Grouping by module, sorting and grouping by package keep every item exactly once, put each
      module in one task group, and dispatch undeclared modules before packages, each in the
      order of the strategy; failures then come first exactly if none is overtaken. */
  method Arrange(items: seq<TestItem>, strategy: Strategy, timings: Timings, failed: set<string>, draws: nat -> nat,
                 dirs: seq<Path>)
    returns (tasks: seq<TaskGroup>, ghost sorted: seq<ModuleGroup>, ghost from: seq<nat>)
    ensures multiset(ItemsOf(ModulesIn(tasks))) == multiset(items)
    ensures multiset(GroupIds(tasks)) == multiset(IdsOf(items))
    ensures DistinctPaths(ModulesIn(tasks))
    ensures tasks == TaskGroups(sorted, dirs)
    ensures strategy == LongestFirst ==> HeaviestFirst(timings, ModuleGroups(items), sorted, from)
    ensures strategy == FailedFirst ==> FailedThenHeaviest(timings, failed, ModuleGroups(items), sorted, from)
    ensures strategy == FailedFirst ==> (FailuresFirst(failed, tasks) <==> !Overtaken(failed, ModuleGroups(items), dirs))
  {
    var groups := GroupByModule(items);
    ModuleGroupsConserve(items);
    var order, positions := ApplyScheduleStrategy(groups, strategy, timings, failed, draws);
    sorted, from := order, positions;
    ItemsOfPermutes(groups, order);
    DistinctPathsPermute(groups, order);
    tasks := GroupByPackage(order, dirs);
    TaskGroupsConserve(order, dirs);
    ItemsOfPermutes(order, ModulesIn(tasks));
    ModuleInOneGroup(order, dirs);
    IdsOfPermutes(ItemsOf(ModulesIn(tasks)), items);
    if strategy == FailedFirst {
      SortedFailuresLead(groups, order, from, timings, failed);
      FailedFirstSurvives(failed, order, dirs);
      OvertakenPermutes(failed, groups, order, dirs);
    }
  }

  // ── From the queue to the channel ─────────────────────────────────────────────────────

  // The groups a thread popped, and the results it sent.
  function PoppedBy(log: Log): seq<TaskGroup> {
    if log.Empty? then []
    else if log.act.Popped? then PoppedBy(log.before) + [log.act.g]
    else PoppedBy(log.before)
  }

  function Sent(log: Log): seq<string> {
    if log.Empty? then []
    else if log.act.Got? || log.act.MadeUp? || log.act.Crashed? then Sent(log.before) + [log.act.id]
    else Sent(log.before)
  }

  // A step of a thread logs at most one act, and the shared state changes accordingly.
  lemma StepShape(w: Worker, a: Action, cancelled: bool, queue: seq<TaskGroup>)
    ensures var log := Advance(w, a, cancelled, queue).log;
            && (log == w.log || (log.After? && log.before == w.log))
            && Sent(log) == Sent(w.log) + Emits(w, a)
            && |Emits(w, a)| <= 1
            && PoppedBy(log) == PoppedBy(w.log) + if Claims(w, a, queue) then [queue[0]] else []
  {
    assert Sent(w.log) + [] == Sent(w.log) && PoppedBy(w.log) + [] == PoppedBy(w.log);
  }

  /** The channel and the claims agree with what each thread did, and claiming takes groups
      from the front of the queue. */
  ghost predicate Books(groups: seq<TaskGroup>, s: System) {
    && Seconds(s.claims) + s.queue == groups
    && (forall c | c in s.claims :: c.0 < |s.workers|)
    && (forall m | m in s.channel :: m.0 < |s.workers|)
    && (forall i: nat | i < |s.workers| :: ValuesAt(s.claims, i) == PoppedBy(s.workers[i].log))
    && (forall i: nat | i < |s.workers| :: ValuesAt(s.channel, i) == Sent(s.workers[i].log))
  }

  lemma ValuesAtPush<V>(log: seq<(nat, V)>, i: nat, v: V, k: nat)
    ensures ValuesAt(log + [(i, v)], k) == ValuesAt(log, k) + if i == k then [v] else []
  {
    assert (log + [(i, v)])[..|log|] == log;
  }

  lemma BooksClaims(groups: seq<TaskGroup>, s: System, i: nat, a: Action)
    requires Books(groups, s) && i < |s.workers|
    ensures var t := Step(s, Thread(i, a));
            && Seconds(t.claims) + t.queue == groups
            && (forall c | c in t.claims :: c.0 < |t.workers|)
            && (forall k: nat | k < |t.workers| :: ValuesAt(t.claims, k) == PoppedBy(t.workers[k].log))
  {
    var w, t := s.workers[i], Step(s, Thread(i, a));
    StepShape(w, a, s.cancelled, s.queue);
    if Claims(w, a, s.queue) {
      var g := s.queue[0];
      assert Seconds(t.claims) == Seconds(s.claims) + [g];
      assert [g] + s.queue[1..] == s.queue;
      forall k: nat | k < |t.workers| ensures ValuesAt(t.claims, k) == PoppedBy(t.workers[k].log) {
        ValuesAtPush(s.claims, i, g, k);
      }
    }
  }

  lemma BooksChannel(groups: seq<TaskGroup>, s: System, i: nat, a: Action)
    requires Books(groups, s) && i < |s.workers|
    ensures var t := Step(s, Thread(i, a));
            && (forall m | m in t.channel :: m.0 < |t.workers|)
            && (forall k: nat | k < |t.workers| :: ValuesAt(t.channel, k) == Sent(t.workers[k].log))
  {
    var w, t := s.workers[i], Step(s, Thread(i, a));
    StepShape(w, a, s.cancelled, s.queue);
    if Emits(w, a) != [] {
      var id := Emits(w, a)[0];
      assert Emits(w, a) == [id];
      forall k: nat | k < |t.workers| ensures ValuesAt(t.channel, k) == Sent(t.workers[k].log) {
        ValuesAtPush(s.channel, i, id, k);
      }
    }
  }

  /** In every run: claimed groups are a prefix of the queue, each popped by the one worker
      whose claim it is, and the channel holds, per worker and in order, the results it sent. */
  lemma {:induction false} BooksAlways(groups: seq<TaskGroup>, n: nat, labels: seq<Label>)
    ensures |Run(Init(groups, n), labels).workers| == n
    ensures Books(groups, Run(Init(groups, n), labels))
    decreases labels
  {
    if labels == [] {
      assert Seconds(Init(groups, n).claims) == [];
    } else {
      var before, l := labels[..|labels| - 1], labels[|labels| - 1];
      BooksAlways(groups, n, before);
      var s := Run(Init(groups, n), before);
      if l.Thread? && l.i < n {
        BooksClaims(groups, s, l.i, l.action);
        BooksChannel(groups, s, l.i, l.action);
      }
    }
  }

  // ── What a log has sent and popped ─────────────────────────────────────────────────────

  lemma {:induction false} SentGot(log: Log, ids: seq<string>)
    ensures Sent(WithGot(log, ids)) == Sent(log) + ids && PoppedBy(WithGot(log, ids)) == PoppedBy(log)
  {
    if ids == [] {
      assert Sent(log) + ids == Sent(log);
    } else {
      SentGot(log, ids[..|ids| - 1]);
      assert ids[..|ids| - 1] + [ids[|ids| - 1]] == ids;
    }
  }

  lemma {:induction false} SentMadeUp(log: Log, ids: seq<string>, from: nat, to: nat)
    requires from <= to <= |ids|
    ensures Sent(WithMadeUp(log, ids, from, to)) == Sent(log) + ids[from..to]
    ensures PoppedBy(WithMadeUp(log, ids, from, to)) == PoppedBy(log)
  {
    if from == to {
      assert Sent(log) + ids[from..to] == Sent(log);
    } else {
      SentMadeUp(log, ids, from, to - 1);
      assert ids[from..to - 1] + [ids[to - 1]] == ids[from..to];
    }
  }

  lemma {:induction false} SentCrashed(log: Log, ids: seq<string>, to: nat)
    requires to <= |ids|
    ensures Sent(WithCrashed(log, ids, to)) == Sent(log) + ids[..to]
    ensures PoppedBy(WithCrashed(log, ids, to)) == PoppedBy(log)
  {
    if to == 0 {
      assert Sent(log) + ids[..to] == Sent(log);
    } else {
      SentCrashed(log, ids, to - 1);
      assert ids[..to - 1] + [ids[to - 1]] == ids[..to];
    }
  }

  lemma SentDispatched(log: Log, g: TaskGroup)
    ensures Sent(Dispatched(log, g)) == Sent(log) && PoppedBy(Dispatched(log, g)) == PoppedBy(log) + [g]
  {
    var popped := After(log, Popped(g));
    assert Sent(popped) == Sent(log) && PoppedBy(popped) == PoppedBy(log) + [g];
  }

  lemma SentRound(log: Log, r: Round)
    requires GoodRound(r)
    ensures Sent(WithRound(log, r)) == Sent(log) + Reported(Ids(r.g), r.got)
    ensures PoppedBy(WithRound(log, r)) == PoppedBy(log) + [r.g]
  {
    var ids, read := Ids(r.g), WithGot(Dispatched(log, r.g), r.got);
    SentDispatched(log, r.g);
    SentGot(Dispatched(log, r.g), r.got);
    SentMadeUp(After(read, Ended(r.end)), ids, |r.got|, |ids|);
    assert ids[|r.got|..|ids|] == ids[|r.got|..];
    assert Sent(log) + r.got + ids[|r.got|..] == Sent(log) + (r.got + ids[|r.got|..]);
  }

  lemma {:induction false} ItemsOfConcat(a: seq<ModuleGroup>, b: seq<ModuleGroup>)
    ensures ItemsOf(a + b) == ItemsOf(a) + ItemsOf(b)
  {
    if b == [] {
      assert a + b == a;
    } else {
      assert (a + b)[..|a + b| - 1] == a + b[..|b| - 1];
      ItemsOfConcat(a, b[..|b| - 1]);
    }
  }

  // The IDs of the claimed groups' items, each with the worker that claimed it.
  function Owed(claims: seq<(nat, TaskGroup)>): seq<(nat, string)> {
    if claims == [] then []
    else
      var (i, g) := claims[|claims| - 1];
      Owed(claims[..|claims| - 1]) + seq(|Ids(g)|, k requires 0 <= k < |Ids(g)| => (i, Ids(g)[k]))
  }

  lemma {:induction false} ValuesAtConcat<V>(a: seq<(nat, V)>, b: seq<(nat, V)>, i: nat)
    ensures ValuesAt(a + b, i) == ValuesAt(a, i) + ValuesAt(b, i)
  {
    if b == [] {
      assert a + b == a;
    } else {
      assert (a + b)[..|a + b| - 1] == a + b[..|b| - 1];
      ValuesAtConcat(a, b[..|b| - 1], i);
    }
  }

  lemma {:induction false} ValuesAtSame(i: nat, ids: seq<string>, k: nat, log: seq<(nat, string)>)
    requires |log| == |ids| && forall j | 0 <= j < |ids| :: log[j] == (i, ids[j])
    ensures ValuesAt(log, k) == if i == k then ids else []
  {
    if ids == [] {
    } else {
      ValuesAtSame(i, ids[..|ids| - 1], k, log[..|log| - 1]);
    }
  }

  lemma {:induction false} OwedBy(claims: seq<(nat, TaskGroup)>, i: nat)
    ensures ValuesAt(Owed(claims), i) == GroupIds(ValuesAt(claims, i))
  {
    if claims == [] {
      assert GroupIds([]) == [];
    } else {
      var init := claims[..|claims| - 1];
      var (j, g) := claims[|claims| - 1];
      var chunk := seq(|Ids(g)|, k requires 0 <= k < |Ids(g)| => (j, Ids(g)[k]));
      OwedBy(init, i);
      ValuesAtConcat(Owed(init), chunk, i);
      ValuesAtSame(j, Ids(g), i, chunk);
      if i == j {
        IdsAppend(ValuesAt(init, i), g);
      } else {
        assert ValuesAt(Owed(init), i) + [] == ValuesAt(Owed(init), i) && ValuesAt(init, i) + [] == ValuesAt(init, i);
      }
    }
  }

  lemma IdsAppend(groups: seq<TaskGroup>, g: TaskGroup)
    ensures GroupIds(groups + [g]) == GroupIds(groups) + Ids(g)
  {
    assert (groups + [g])[..|groups|] == groups;
    ItemsOfConcat(ModulesIn(groups), g.modules);
  }

  lemma {:induction false} OwedSeconds(claims: seq<(nat, TaskGroup)>)
    ensures Seconds(Owed(claims)) == GroupIds(Seconds(claims))
  {
    if claims == [] {
      assert Seconds(claims) == [];
    } else {
      var init := claims[..|claims| - 1];
      var (j, g) := claims[|claims| - 1];
      OwedSeconds(init);
      assert Seconds(claims) == Seconds(init) + [g];
      IdsAppend(Seconds(init), g);
    }
  }

  lemma {:induction false} OwedKeys(claims: seq<(nat, TaskGroup)>, n: nat)
    requires forall c | c in claims :: c.0 < n
    ensures forall m | m in Owed(claims) :: m.0 < n
  {
    if claims == [] {
    } else {
      OwedKeys(claims[..|claims| - 1], n);
      assert claims[|claims| - 1] in claims;
    }
  }

  function UpTo(n: nat): seq<nat> {
    seq(n, i => i)
  }

  lemma {:induction false} HeldByAll(log: seq<(nat, string)>, n: nat, x: string)
    requires forall m | m in log :: m.0 < n
    ensures Held(log, UpTo(n), x) == Count(Seconds(log), x)
  {
    if log == [] {
      HeldNothing(UpTo(n), x);
      assert Seconds(log) == [];
    } else {
      var k := |log| - 1;
      HeldByAll(log[..k], n, x);
      assert log[k] in log;
      assert Seconds(log)[..k] == Seconds(log[..k]);
      assert UpTo(n)[log[k].0] == log[k].0;
      HeldPush(log[..k], log, UpTo(n), log[k].0, log[k].1, x);
    }
  }

  lemma {:induction false} HeldNothing(keys: seq<nat>, x: string)
    ensures Held([], keys, x) == 0
  {
    if keys == [] {
    } else {
      HeldNothing(keys[..|keys| - 1], x);
    }
  }

  lemma GroupIdsConcat(a: seq<TaskGroup>, b: seq<TaskGroup>)
    ensures GroupIds(a + b) == GroupIds(a) + GroupIds(b)
  {
    ModulesInConcat(a, b);
    ItemsOfConcat(ModulesIn(a), ModulesIn(b));
  }

  // ── The coordinator ───────────────────────────────────────────────────────────────────

  datatype Outcome = Outcome(id: string, hardFailure: bool)

  // The results for tests the phase knows; others are dropped.
  function Recognised(results: seq<Outcome>, known: set<string>): seq<Outcome> {
    if results == [] then []
    else
      var last := results[|results| - 1];
      Recognised(results[..|results| - 1], known) + if last.id in known then [last] else []
  }

  function OutcomeIds(results: seq<Outcome>): seq<string> {
    seq(|results|, i requires 0 <= i < |results| => results[i].id)
  }

  function HardFailures(results: seq<Outcome>): nat {
    if results == [] then 0
    else HardFailures(results[..|results| - 1]) + if results[|results| - 1].hardFailure then 1 else 0
  }

  function CrashedGroups(groups: seq<TaskGroup>): seq<Outcome> {
    var ids := GroupIds(groups);
    seq(|ids|, i requires 0 <= i < |ids| => Outcome(ids[i], true))
  }

  lemma OneMoreRecognised(results: seq<Outcome>, known: set<string>, i: nat)
    requires i < |results|
    ensures Recognised(results[..i + 1], known)
         == if results[i].id in known then Recognised(results[..i], known) + [results[i]] else Recognised(results[..i], known)
  {
    assert results[..i + 1][..i] == results[..i];
  }

  lemma OneMoreHard(results: seq<Outcome>, r: Outcome)
    ensures HardFailures(results + [r]) == HardFailures(results) + if r.hardFailure then 1 else 0
    ensures (results + [r])[..|results|] == results
  {
    assert (results + [r])[..|results|] == results;
  }

  // `drain_remaining_into_crashed`, when the phase was not interrupted.
  method DrainRemaining(queue: seq<TaskGroup>, known: set<string>) returns (crashed: seq<Outcome>)
    ensures crashed == Recognised(CrashedGroups(queue), known)
    ensures forall c | c in crashed :: c.hardFailure && c.id in known && c.id in GroupIds(queue)
    ensures forall id | id in GroupIds(queue) && id in known :: Outcome(id, true) in crashed
  {
    crashed := [];
    var left := CrashedGroups(queue);
    for i := 0 to |left|
      invariant crashed == Recognised(left[..i], known)
    {
      OneMoreRecognised(left, known, i);
      if left[i].id in known {
        crashed := crashed + [left[i]];
      }
    }
    assert left[..|left|] == left;
    forall c ensures c in crashed <==> c in left && c.id in known {
      RecognisedMember(left, known, c);
    }
    forall id | id in GroupIds(queue) ensures Outcome(id, true) in left {
      var k :| 0 <= k < |GroupIds(queue)| && GroupIds(queue)[k] == id;
      assert left[k] == Outcome(id, true);
    }
  }

  lemma {:induction false} RecognisedMember(results: seq<Outcome>, known: set<string>, r: Outcome)
    ensures r in Recognised(results, known) <==> r in results && r.id in known
  {
    if results == [] {
    } else {
      var n := |results| - 1;
      RecognisedMember(results[..n], known, r);
      assert results == results[..n] + [results[n]];
    }
  }

  /** The coordinator records the recognised results up to and including the hard failure that
      reaches `maxfail`; if none does, it records all of them and then a crash for every item
      left in the queue. */
  method Coordinate(results: seq<Outcome>, queue: seq<TaskGroup>, known: set<string>, maxfail: nat)
    returns (interrupted: bool, timings: seq<Outcome>)
    ensures interrupted <==> 0 < maxfail <= HardFailures(Recognised(results, known))
    ensures interrupted ==>
      timings != [] && timings <= Recognised(results, known) && HardFailures(timings) == maxfail
      && HardFailures(timings[..|timings| - 1]) < maxfail
    ensures !interrupted ==> timings == Recognised(results, known) + Recognised(CrashedGroups(queue), known)
  {
    timings, interrupted := [], false;
    var count := 0;
    for i := 0 to |results|
      invariant timings == Recognised(results[..i], known)
      invariant count == HardFailures(timings) && !(0 < maxfail <= count)
    {
      OneMoreRecognised(results, known, i);
      if results[i].id in known {
        OneMoreHard(timings, results[i]);
        timings := timings + [results[i]];
        if results[i].hardFailure {
          count := count + 1;
        }
        if maxfail > 0 && count >= maxfail {
          interrupted := true;
          RecognisedPrefix(results, known, i + 1);
          return;
        }
      }
    }
    assert results[..|results|] == results;
    var crashed := DrainRemaining(queue, known);
    timings := timings + crashed;
  }

  lemma {:induction false} RecognisedPrefix(results: seq<Outcome>, known: set<string>, k: nat)
    requires k <= |results|
    ensures Recognised(results[..k], known) <= Recognised(results, known)
    ensures HardFailures(Recognised(results[..k], known)) <= HardFailures(Recognised(results, known))
    decreases results
  {
    if k == |results| {
      assert results[..k] == results;
    } else {
      var n := |results| - 1;
      RecognisedPrefix(results[..n], known, k);
      assert results[..n][..k] == results[..k];
      var init, last := Recognised(results[..n], known), results[n];
      assert init + [] == init;
      assert (init + [last])[..|init|] == init;
    }
  }
}
