/**
 What a phase records in the end, whatever the workers answered: how often each test, and
 exactly when each test once (`src/parallel/mod.rs`, `src/parallel/drain.rs`). The drain counts
 every line that says it is a result, whoever it is for, so a result that cannot be read, or
 that is for another test, takes the place of one that is then never made up.
 */
module Accounts {
  import opened Options
  import opened Sizes
  import opened Grouping
  import opened Draining
  import opened Workers
  import opened Conservation

  // ── What each thread was given and what it reported ───────────────────────────────────

  // The items of a group and the IDs received for it; for a refused group none were.
  datatype Account = Account(ids: seq<string>, got: seq<string>)

  // The items results are made up for, and the items the received results stand for.
  function Missing(a: Account): seq<string> {
    if |a.got| <= |a.ids| then a.ids[|a.got|..] else []
  }

  function Answered(a: Account): seq<string> {
    if |a.got| <= |a.ids| then a.ids[..|a.got|] else a.ids
  }

  function RoundAccounts(rounds: seq<Round>): seq<Account> {
    seq(|rounds|, i requires 0 <= i < |rounds| => Account(Ids(rounds[i].g), rounds[i].got))
  }

  function AccountsOf(w: Worker): seq<Account> {
    RoundAccounts(w.rounds) + if w.refused.Some? then [Account(Ids(w.refused.value), [])] else []
  }

  function AllAccounts(workers: seq<Worker>): seq<Account> {
    if workers == [] then [] else AllAccounts(workers[..|workers| - 1]) + AccountsOf(workers[|workers| - 1])
  }

  // Everything given, everything reported, and of that everything received.
  function Given(accounts: seq<Account>): seq<string> {
    if accounts == [] then [] else Given(accounts[..|accounts| - 1]) + accounts[|accounts| - 1].ids
  }

  function Results(accounts: seq<Account>): seq<string> {
    if accounts == [] then []
    else
      var last := accounts[|accounts| - 1];
      Results(accounts[..|accounts| - 1]) + (last.got + Missing(last))
  }

  function Received(accounts: seq<Account>): seq<string> {
    if accounts == [] then [] else Received(accounts[..|accounts| - 1]) + accounts[|accounts| - 1].got
  }

  function AllAnswered(accounts: seq<Account>): seq<string> {
    if accounts == [] then [] else AllAnswered(accounts[..|accounts| - 1]) + Answered(accounts[|accounts| - 1])
  }

  lemma AccountsConcat(a: seq<Account>, b: seq<Account>)
    ensures Given(a + b) == Given(a) + Given(b) && Results(a + b) == Results(a) + Results(b)
  {
    GivenConcat(a, b);
    ResultsConcat(a, b);
  }

  lemma {:induction false} GivenConcat(a: seq<Account>, b: seq<Account>)
    ensures Given(a + b) == Given(a) + Given(b)
  {
    if b == [] {
      assert a + b == a;
    } else {
      assert (a + b)[..|a + b| - 1] == a + b[..|b| - 1];
      GivenConcat(a, b[..|b| - 1]);
    }
  }

  lemma {:induction false} ResultsConcat(a: seq<Account>, b: seq<Account>)
    ensures Results(a + b) == Results(a) + Results(b)
  {
    if b == [] {
      assert a + b == a;
    } else {
      assert (a + b)[..|a + b| - 1] == a + b[..|b| - 1];
      ResultsConcat(a, b[..|b| - 1]);
    }
  }

  lemma OneAccount(a: Account)
    ensures Given([a]) == a.ids && Results([a]) == a.got + Missing(a)
  {
    assert [a][..0] == [];
  }

  lemma {:induction false} RoundsSent(rounds: seq<Round>)
    requires forall r | r in rounds :: GoodRound(r)
    ensures Sent(WithRounds(rounds)) == Results(RoundAccounts(rounds))
    ensures GroupIds(PoppedBy(WithRounds(rounds))) == Given(RoundAccounts(rounds))
  {
    if rounds == [] {
      assert GroupIds([]) == [];
    } else {
      var n := |rounds| - 1;
      var log, r := WithRounds(rounds[..n]), rounds[n];
      RoundsSent(rounds[..n]);
      assert GoodRound(r);
      SentRound(log, r);
      IdsAppend(PoppedBy(log), r.g);
      assert RoundAccounts(rounds)[..n] == RoundAccounts(rounds[..n]);
    }
  }

  lemma RefusalSent(log: Log, g: TaskGroup, accounts: seq<Account>)
    requires Sent(log) == Results(accounts) && GroupIds(PoppedBy(log)) == Given(accounts)
    ensures Sent(WithRefusal(log, Some(g))) == Results(accounts + [Account(Ids(g), [])])
    ensures GroupIds(PoppedBy(WithRefusal(log, Some(g)))) == Given(accounts + [Account(Ids(g), [])])
  {
    var failed := After(After(log, Popped(g)), SendFailed(g));
    assert Sent(failed) == Sent(log) && PoppedBy(failed) == PoppedBy(log) + [g];
    SentCrashed(failed, Ids(g), |Ids(g)|);
    assert Ids(g)[..|Ids(g)|] == Ids(g) && [] + Ids(g) == Ids(g);
    AccountsConcat(accounts, [Account(Ids(g), [])]);
    OneAccount(Account(Ids(g), []));
    IdsAppend(PoppedBy(log), g);
  }

  lemma QuietAct(log: Log, act: Act)
    requires act.Closed? || act.TailRead?
    ensures Sent(After(log, act)) == Sent(log) && PoppedBy(After(log, act)) == PoppedBy(log)
  {
  }

  // A thread that is done has sent its accounts, in order, for the groups it popped.
  lemma DoneSent(w: Worker)
    requires Protocol(w) && Done(w)
    ensures Sent(w.log) == Results(AccountsOf(w)) && GroupIds(PoppedBy(w.log)) == Given(AccountsOf(w))
  {
    var log, accounts := WithRounds(w.rounds), RoundAccounts(w.rounds);
    RoundsSent(w.rounds);
    assert accounts + [] == accounts;
    if w.refused.Some? {
      RefusalSent(log, w.refused.value, accounts);
    }
    var finished := WithRefusal(log, w.refused);
    if w.phase == Exited && w.alive {
      QuietAct(finished, Closed);
      QuietAct(After(finished, Closed), TailRead);
    } else {
      assert w.log == finished;
    }
  }

  // ── All threads together ──────────────────────────────────────────────────────────────

  lemma {:induction false} HeldAccounts(channel: seq<(nat, string)>, owed: seq<(nat, string)>, workers: seq<Worker>, x: string)
    requires forall i: nat | i < |workers| :: ValuesAt(channel, i) == Results(AccountsOf(workers[i]))
    requires forall i: nat | i < |workers| :: ValuesAt(owed, i) == Given(AccountsOf(workers[i]))
    ensures Held(channel, UpTo(|workers|), x) == Count(Results(AllAccounts(workers)), x)
    ensures Held(owed, UpTo(|workers|), x) == Count(Given(AllAccounts(workers)), x)
  {
    var n := |workers|;
    if n == 0 {
      assert UpTo(n) == [];
    } else {
      var init, w := workers[..n - 1], workers[n - 1];
      HeldAccounts(channel, owed, init, x);
      assert UpTo(n)[..n - 1] == UpTo(n - 1) && UpTo(n)[n - 1] == n - 1;
      AccountsConcat(AllAccounts(init), AccountsOf(w));
      CountConcat(Results(AllAccounts(init)), Results(AccountsOf(w)), x);
      CountConcat(Given(AllAccounts(init)), Given(AccountsOf(w)), x);
    }
  }

  ghost predicate AllDone(s: System) {
    forall i: nat | i < |s.workers| :: Done(s.workers[i])
  }

  lemma CountAccounts(groups: seq<TaskGroup>, s: System, x: string)
    requires Books(groups, s) && AllDone(s) && forall i: nat | i < |s.workers| :: Protocol(s.workers[i])
    ensures Count(Seconds(s.channel), x) == Count(Results(AllAccounts(s.workers)), x)
    ensures Count(GroupIds(groups), x) == Count(Given(AllAccounts(s.workers)), x) + Count(GroupIds(s.queue), x)
  {
    var n, owed := |s.workers|, Owed(s.claims);
    forall i: nat | i < n
      ensures ValuesAt(s.channel, i) == Results(AccountsOf(s.workers[i]))
      ensures ValuesAt(owed, i) == Given(AccountsOf(s.workers[i]))
    {
      DoneSent(s.workers[i]);
      OwedBy(s.claims, i);
    }
    OwedKeys(s.claims, n);
    OwedSeconds(s.claims);
    HeldByAll(s.channel, n, x);
    HeldByAll(owed, n, x);
    HeldAccounts(s.channel, owed, s.workers, x);
    GroupIdsConcat(Seconds(s.claims), s.queue);
    CountConcat(GroupIds(Seconds(s.claims)), GroupIds(s.queue), x);
  }

  lemma {:induction false} RoundsWithin(workers: seq<Worker>)
    requires forall i: nat | i < |workers| :: Protocol(workers[i])
    ensures forall a | a in AllAccounts(workers) :: |a.got| <= |a.ids|
  {
    if workers == [] {
    } else {
      var n := |workers| - 1;
      RoundsWithin(workers[..n]);
      assert Protocol(workers[n]);
    }
  }

  lemma RunWithin(groups: seq<TaskGroup>, n: nat, labels: seq<Label>, s: System)
    requires s == Run(Init(groups, n), labels)
    ensures forall a | a in AllAccounts(s.workers) :: |a.got| <= |a.ids|
  {
    ProtocolAlways(groups, n, labels);
    RoundsWithin(s.workers);
  }

  lemma {:induction false} CountSplit(accounts: seq<Account>, x: string)
    requires forall a | a in accounts :: |a.got| <= |a.ids|
    ensures Count(Results(accounts), x) + Count(AllAnswered(accounts), x) == Count(Given(accounts), x) + Count(Received(accounts), x)
  {
    if accounts == [] {
    } else {
      var n := |accounts| - 1;
      var init, a := accounts[..n], accounts[n];
      CountSplit(init, x);
      assert a in accounts && Answered(a) + Missing(a) == a.ids;
      CountConcat(Results(init), a.got + Missing(a), x);
      CountConcat(a.got, Missing(a), x);
      CountConcat(AllAnswered(init), Answered(a), x);
      CountConcat(Given(init), a.ids, x);
      CountConcat(Answered(a), Missing(a), x);
      CountConcat(Received(init), a.got, x);
    }
  }

  // ── What is recorded ──────────────────────────────────────────────────────────────────

  // What a phase that runs out records: the results for tests it knows, then the queue's.
  function Recorded(results: seq<Outcome>, queue: seq<TaskGroup>, groups: seq<TaskGroup>): seq<string> {
    var known := set id | id in GroupIds(groups);
    OutcomeIds(Recognised(results, known) + Recognised(CrashedGroups(queue), known))
  }

  lemma CountPush(results: seq<Outcome>, r: Outcome, x: string)
    ensures Count(OutcomeIds(results + [r]), x) == Count(OutcomeIds(results), x) + if r.id == x then 1 else 0
  {
    var ids := OutcomeIds(results + [r]);
    assert ids[..|ids| - 1] == OutcomeIds(results);
  }

  lemma {:induction false} CountRecognised(results: seq<Outcome>, known: set<string>, x: string)
    ensures Count(OutcomeIds(Recognised(results, known)), x) == if x in known then Count(OutcomeIds(results), x) else 0
  {
    if results == [] {
      assert OutcomeIds(results) == [];
    } else {
      var n := |results| - 1;
      var init, last := results[..n], results[n];
      CountRecognised(init, known, x);
      assert results == init + [last];
      CountPush(init, last, x);
      CountPush(Recognised(init, known), last, x);
      assert Recognised(init, known) + [] == Recognised(init, known);
    }
  }

  lemma CountRecorded(results: seq<Outcome>, queue: seq<TaskGroup>, groups: seq<TaskGroup>, x: string)
    ensures Count(Recorded(results, queue, groups), x) ==
      if x in GroupIds(groups) then Count(OutcomeIds(results), x) + Count(GroupIds(queue), x) else 0
  {
    var known := set id | id in GroupIds(groups);
    var a, b := Recognised(results, known), Recognised(CrashedGroups(queue), known);
    assert OutcomeIds(a + b) == OutcomeIds(a) + OutcomeIds(b);
    CountConcat(OutcomeIds(a), OutcomeIds(b), x);
    CountRecognised(results, known, x);
    CountRecognised(CrashedGroups(queue), known, x);
    assert OutcomeIds(CrashedGroups(queue)) == GroupIds(queue);
  }

  /** A phase that has run out: some run of the transition system after which every thread is
      done, and the coordinator has seen its channel. */
  ghost predicate RunOut(groups: seq<TaskGroup>, n: nat, labels: seq<Label>, s: System, results: seq<Outcome>) {
    s == Run(Init(groups, n), labels) && AllDone(s) && OutcomeIds(results) == Seconds(s.channel)
  }

  /** Every run, whatever the workers answered: a test of the phase is recorded as often as its
      ID was received, and once for each time it is an item past the received ones of a drained
      group, of a refused group or of the queue; an unknown ID is never recorded. */
  lemma RecordedCount(groups: seq<TaskGroup>, n: nat, labels: seq<Label>, s: System, results: seq<Outcome>, x: string)
    requires RunOut(groups, n, labels, s, results)
    ensures Count(Recorded(results, s.queue, groups), x) ==
      if x in GroupIds(groups) then Count(Results(AllAccounts(s.workers)), x) + Count(GroupIds(s.queue), x) else 0
    ensures Count(GroupIds(groups), x) == Count(Given(AllAccounts(s.workers)), x) + Count(GroupIds(s.queue), x)
  {
    BooksAlways(groups, n, labels);
    ProtocolAlways(groups, n, labels);
    CountAccounts(groups, s, x);
    CountRecorded(results, s.queue, groups, x);
  }

  // As many results were received for the test as items were answered for with its ID.
  ghost predicate Balanced(accounts: seq<Account>, x: string) {
    Count(Received(accounts), x) == Count(AllAnswered(accounts), x)
  }

  lemma RecordedBalance(groups: seq<TaskGroup>, n: nat, labels: seq<Label>, s: System, results: seq<Outcome>, x: string)
    requires RunOut(groups, n, labels, s, results)
    ensures Count(Recorded(results, s.queue, groups), x) == Count(GroupIds(groups), x)
       <==> (x in GroupIds(groups) ==> Balanced(AllAccounts(s.workers), x))
  {
    RecordedCount(groups, n, labels, s, results, x);
    RunWithin(groups, n, labels, s);
    CountSplit(AllAccounts(s.workers), x);
    CountIs(GroupIds(groups), x);
  }

  /** Every run: the phase records exactly its items, each as often as it was collected, if and
      only if, over all groups together, the received results for known tests are for the items
      they stand for, the first ones of each group. */
  lemma RecordedExactly(groups: seq<TaskGroup>, n: nat, labels: seq<Label>, s: System, results: seq<Outcome>)
    requires RunOut(groups, n, labels, s, results)
    ensures multiset(Recorded(results, s.queue, groups)) == multiset(GroupIds(groups))
       <==> forall x | x in GroupIds(groups) :: Balanced(AllAccounts(s.workers), x)
  {
    var recorded, ids := Recorded(results, s.queue, groups), GroupIds(groups);
    forall x ensures Count(recorded, x) == Count(ids, x) <==> (x in ids ==> Balanced(AllAccounts(s.workers), x)) {
      RecordedBalance(groups, n, labels, s, results, x);
    }
    if forall x | x in ids :: Balanced(AllAccounts(s.workers), x) {
      Permutation(recorded, ids);
    } else {
      var x :| x in ids && !Balanced(AllAccounts(s.workers), x);
      CountIs(recorded, x);
      CountIs(ids, x);
    }
  }

  // ── Worker by worker ──────────────────────────────────────────────────────────────────

  // The worker answered for the first items it was given.
  ghost predicate Faithful(r: Round) {
    |r.got| <= |Ids(r.g)| && multiset(r.got) == multiset(Ids(r.g)[..|r.got|])
  }

  ghost predicate AllFaithful(s: System) {
    forall i: nat, r | i < |s.workers| && r in s.workers[i].rounds :: Faithful(r)
  }

  // A received result is for an item of the group it was sent for, or for no test of the phase.
  ghost predicate OwnOrUnknown(groups: seq<TaskGroup>, s: System) {
    forall i: nat, r, id | i < |s.workers| && r in s.workers[i].rounds && id in r.got ::
      id in Ids(r.g) || id !in GroupIds(groups)
  }

  ghost predicate Fair(a: Account) {
    |a.got| <= |a.ids| && multiset(a.got) == multiset(a.ids[..|a.got|])
  }

  ghost predicate Own(a: Account, known: seq<string>) {
    forall id | id in a.got :: id in a.ids || id !in known
  }

  lemma {:induction false} AccountMember(workers: seq<Worker>, a: Account)
    ensures a in AllAccounts(workers) <==> exists i: nat :: i < |workers| && a in AccountsOf(workers[i])
  {
    if workers == [] {
    } else {
      var n := |workers| - 1;
      var init := workers[..n];
      AccountMember(init, a);
      if a in AllAccounts(init) {
        var i: nat :| i < n && a in AccountsOf(init[i]);
        assert a in AccountsOf(workers[i]);
      } else if a !in AccountsOf(workers[n]) {
        forall i: nat | i < |workers| ensures a !in AccountsOf(workers[i]) {
          assert i < n ==> workers[i] == init[i];
        }
      }
    }
  }

  lemma RoundMember(w: Worker, a: Account)
    ensures a in AccountsOf(w) ==> a.got == [] || exists r | r in w.rounds :: a == Account(Ids(r.g), r.got)
    ensures forall r | r in w.rounds :: Account(Ids(r.g), r.got) in AccountsOf(w)
  {
    var accounts := RoundAccounts(w.rounds);
    if a in AccountsOf(w) && a.got != [] {
      assert a in accounts;
      var i :| 0 <= i < |accounts| && accounts[i] == a;
      assert w.rounds[i] in w.rounds;
    }
    forall r | r in w.rounds ensures Account(Ids(r.g), r.got) in AccountsOf(w) {
      var i :| 0 <= i < |w.rounds| && w.rounds[i] == r;
      assert accounts[i] == AccountsOf(w)[i];
    }
  }

  lemma FairIffFaithful(s: System)
    ensures AllFaithful(s) <==> forall a | a in AllAccounts(s.workers) :: Fair(a)
  {
    if AllFaithful(s) {
      forall a | a in AllAccounts(s.workers) ensures Fair(a) {
        AccountMember(s.workers, a);
        var i: nat :| i < |s.workers| && a in AccountsOf(s.workers[i]);
        RoundMember(s.workers[i], a);
        if a.got != [] {
          var r :| r in s.workers[i].rounds && a == Account(Ids(r.g), r.got);
          assert Faithful(r);
        }
      }
    }
    if forall a | a in AllAccounts(s.workers) :: Fair(a) {
      forall i: nat, r | i < |s.workers| && r in s.workers[i].rounds ensures Faithful(r) {
        var a := Account(Ids(r.g), r.got);
        RoundMember(s.workers[i], a);
        AccountMember(s.workers, a);
        assert Fair(a);
      }
    }
  }

  lemma OwnAccounts(groups: seq<TaskGroup>, s: System)
    requires OwnOrUnknown(groups, s)
    ensures forall a | a in AllAccounts(s.workers) :: Own(a, GroupIds(groups))
  {
    forall a | a in AllAccounts(s.workers) ensures Own(a, GroupIds(groups)) {
      AccountMember(s.workers, a);
      var i: nat :| i < |s.workers| && a in AccountsOf(s.workers[i]);
      RoundMember(s.workers[i], a);
    }
  }

  // Fair accounts balance.
  lemma {:induction false} FairBalances(accounts: seq<Account>, x: string)
    requires forall a | a in accounts :: Fair(a)
    ensures Balanced(accounts, x)
  {
    if accounts == [] {
    } else {
      var n := |accounts| - 1;
      var a := accounts[n];
      FairBalances(accounts[..n], x);
      assert a in accounts;
      CountConcat(Received(accounts[..n]), a.got, x);
      CountConcat(AllAnswered(accounts[..n]), Answered(a), x);
      CountIs(a.got, x);
      CountIs(Answered(a), x);
    }
  }

  lemma GivenPush(accounts: seq<Account>, x: string)
    requires accounts != []
    ensures Count(Given(accounts), x) == Count(Given(accounts[..|accounts| - 1]), x) + Count(accounts[|accounts| - 1].ids, x)
  {
    CountConcat(Given(accounts[..|accounts| - 1]), accounts[|accounts| - 1].ids, x);
  }

  lemma {:induction false} GivenOnce(accounts: seq<Account>, i: nat, x: string)
    requires i < |accounts|
    ensures Count(Given(accounts), x) >= Count(accounts[i].ids, x)
  {
    GivenPush(accounts, x);
    if i < |accounts| - 1 {
      GivenOnce(accounts[..|accounts| - 1], i, x);
    }
  }

  lemma {:induction false} GivenTwice(accounts: seq<Account>, i: nat, j: nat, x: string)
    requires i < j < |accounts|
    ensures Count(Given(accounts), x) >= Count(accounts[i].ids, x) + Count(accounts[j].ids, x)
  {
    var n := |accounts| - 1;
    GivenPush(accounts, x);
    if j < n {
      GivenTwice(accounts[..n], i, j, x);
    } else {
      GivenOnce(accounts[..n], i, x);
    }
  }

  lemma {:induction false} AnsweredMember(accounts: seq<Account>, j: nat, x: string)
    requires j < |accounts| && x in Answered(accounts[j])
    ensures x in AllAnswered(accounts)
  {
    var n := |accounts| - 1;
    if j < n {
      AnsweredMember(accounts[..n], j, x);
    }
  }

  lemma {:induction false} ReceivedMember(accounts: seq<Account>, x: string) returns (i: nat)
    requires x in Received(accounts)
    ensures i < |accounts| && x in accounts[i].got
  {
    var n := |accounts| - 1;
    if x in accounts[n].got {
      i := n;
    } else {
      i := ReceivedMember(accounts[..n], x);
    }
  }

  // A balance of own results, among items that occur once, leaves each account no choice.
  lemma BalanceIsOwn(accounts: seq<Account>, known: seq<string>, j: nat, x: string)
    requires forall a | a in accounts :: Own(a, known)
    requires Balanced(accounts, x) && Count(Given(accounts), x) <= 1
    requires j < |accounts| && x in known && x in Answered(accounts[j])
    ensures x in accounts[j].got
  {
    AnsweredMember(accounts, j, x);
    CountIs(AllAnswered(accounts), x);
    CountIs(Received(accounts), x);
    var i := ReceivedMember(accounts, x);
    assert accounts[i] in accounts && Own(accounts[i], known);
    OneHolder(accounts, i, j, x);
  }

  lemma OneHolder(accounts: seq<Account>, i: nat, j: nat, x: string)
    requires i < |accounts| && j < |accounts| && x in accounts[i].ids && x in accounts[j].ids
    requires Count(Given(accounts), x) <= 1
    ensures i == j
  {
    CountIs(accounts[i].ids, x);
    CountIs(accounts[j].ids, x);
    if i < j {
      GivenTwice(accounts, i, j, x);
    } else if j < i {
      GivenTwice(accounts, j, i, x);
    }
  }

  lemma FairFromMembers(a: Account)
    requires |a.got| <= |a.ids|
    requires forall x | x in Answered(a) :: x in a.got && Count(a.ids, x) <= 1
    ensures Fair(a)
  {
    var first := Answered(a);
    assert a.ids == first + Missing(a);
    forall x ensures multiset(first)[x] <= multiset(a.got)[x] {
      if x in first {
        CountConcat(first, Missing(a), x);
        CountIs(first, x);
        assert x in multiset(a.got);
      }
    }
    WholeBag(multiset(first), multiset(a.got));
  }

  lemma BalanceIsFair(accounts: seq<Account>, known: seq<string>)
    requires forall a | a in accounts :: Own(a, known) && |a.got| <= |a.ids| && forall x | x in a.ids :: x in known
    requires forall x | x in known :: Balanced(accounts, x) && Count(Given(accounts), x) <= 1
    ensures forall a | a in accounts :: Fair(a)
  {
    forall a | a in accounts ensures Fair(a) {
      var j :| 0 <= j < |accounts| && accounts[j] == a;
      forall x | x in Answered(a) ensures x in a.got && Count(a.ids, x) <= 1 {
        assert x in a.ids;
        BalanceIsOwn(accounts, known, j, x);
        GivenOnce(accounts, j, x);
      }
      FairFromMembers(a);
    }
  }

  lemma {:induction false} GivenKnown(accounts: seq<Account>, a: Account, x: string)
    requires a in accounts && x in a.ids
    ensures x in Given(accounts)
  {
    var n := |accounts| - 1;
    if a != accounts[n] {
      assert a in accounts[..n];
      GivenKnown(accounts[..n], a, x);
    }
  }

  // Every item given to a worker is an item of the phase, and as rare as there.
  lemma AccountsKnown(groups: seq<TaskGroup>, n: nat, labels: seq<Label>, s: System, results: seq<Outcome>)
    requires RunOut(groups, n, labels, s, results)
    ensures forall a, x | a in AllAccounts(s.workers) && x in a.ids :: x in GroupIds(groups)
    ensures forall x :: Count(Given(AllAccounts(s.workers)), x) <= Count(GroupIds(groups), x)
  {
    var accounts := AllAccounts(s.workers);
    forall x ensures Count(Given(accounts), x) <= Count(GroupIds(groups), x) {
      RecordedCount(groups, n, labels, s, results, x);
    }
    forall a, x | a in accounts && x in a.ids ensures x in GroupIds(groups) {
      GivenKnown(accounts, a, x);
      CountIs(Given(accounts), x);
      CountIs(GroupIds(groups), x);
    }
  }

  /** Once every thread is done, the results on the channel and the items still queued are,
      together, the items of all groups, if every worker answered for the first items it was
      given; that every ID of the phase is different is not needed. */
  lemma EveryTestReportedOnce(groups: seq<TaskGroup>, n: nat, labels: seq<Label>, s: System)
    requires s == Run(Init(groups, n), labels) && AllDone(s) && AllFaithful(s)
    ensures multiset(Seconds(s.channel) + GroupIds(s.queue)) == multiset(GroupIds(groups))
  {
    BooksAlways(groups, n, labels);
    ProtocolAlways(groups, n, labels);
    RoundsWithin(s.workers);
    FairIffFaithful(s);
    forall x ensures Count(Seconds(s.channel) + GroupIds(s.queue), x) == Count(GroupIds(groups), x) {
      CountAccounts(groups, s, x);
      CountSplit(AllAccounts(s.workers), x);
      FairBalances(AllAccounts(s.workers), x);
      CountConcat(Seconds(s.channel), GroupIds(s.queue), x);
    }
    Permutation(Seconds(s.channel) + GroupIds(s.queue), GroupIds(groups));
  }

  /** End to end: a parallel phase that runs out records exactly one result for every collected
      item, however the workers interleave, die or refuse their tasks, if every worker answered
      for the first items it was given; and, IDs being different and no worker answering for
      another's tests, only if. */
  lemma PhaseRecordsEveryTest(groups: seq<TaskGroup>, n: nat, labels: seq<Label>, s: System, results: seq<Outcome>)
    requires RunOut(groups, n, labels, s, results)
    ensures AllFaithful(s) ==> multiset(Recorded(results, s.queue, groups)) == multiset(GroupIds(groups))
    ensures Distinct(GroupIds(groups)) && OwnOrUnknown(groups, s) ==>
      (multiset(Recorded(results, s.queue, groups)) == multiset(GroupIds(groups)) <==> AllFaithful(s))
  {
    var accounts, ids := AllAccounts(s.workers), GroupIds(groups);
    RecordedExactly(groups, n, labels, s, results);
    FairIffFaithful(s);
    if AllFaithful(s) {
      forall x | x in ids ensures Balanced(accounts, x) {
        FairBalances(accounts, x);
      }
    } else if Distinct(ids) && OwnOrUnknown(groups, s) && forall x | x in ids :: Balanced(accounts, x) {
      RunWithin(groups, n, labels, s);
      OwnAccounts(groups, s);
      AccountsKnown(groups, n, labels, s, results);
      forall x | x in ids ensures Count(Given(accounts), x) <= 1 {
        CountDistinct(ids, x);
      }
      BalanceIsFair(accounts, ids);
    }
  }

  // ── Two runs that go wrong ────────────────────────────────────────────────────────────

  lemma {:induction false} RunHead(s: System, labels: seq<Label>)
    requires labels != []
    ensures Run(s, labels) == Run(Step(s, labels[0]), labels[1..])
    decreases labels
  {
    var n := |labels| - 1;
    if n == 0 {
      assert labels[..0] == [];
    } else {
      RunHead(s, labels[..n]);
      assert labels[..n][1..] == labels[1..][..n - 1];
    }
  }

  // What a lone worker does, one action after the other.
  datatype Script = Stop | Do(action: Action, next: Script)

  function Labels(script: Script): seq<Label> {
    match script
    case Stop => []
    case Do(a, next) => [Thread(0, a)] + Labels(next)
  }

  // A phase with one worker, as far as the worker is concerned.
  datatype Lone = Lone(w: Worker, queue: seq<TaskGroup>, sent: seq<(nat, string)>)

  function Acted(l: Lone, a: Action): Lone {
    Lone(Advance(l.w, a, false, l.queue), if Claims(l.w, a, l.queue) then l.queue[1..] else l.queue,
         if Emits(l.w, a) == [] then l.sent else l.sent + [(0, Emits(l.w, a)[0])])
  }

  function Play(l: Lone, script: Script): Lone
    decreases script
  {
    match script
    case Stop => l
    case Do(a, next) => Play(Acted(l, a), next)
  }

  ghost predicate At(s: System, l: Lone) {
    s.workers == [l.w] && s.queue == l.queue && s.channel == l.sent && !s.cancelled
  }

  lemma {:induction false} Played(s: System, l: Lone, script: Script)
    requires At(s, l)
    ensures At(Run(s, Labels(script)), Play(l, script))
    decreases script
  {
    match script
    case Stop =>
    case Do(a, next) =>
      var labels := Labels(script);
      RunHead(s, labels);
      assert labels[1..] == Labels(next);
      Played(Step(s, Thread(0, a)), Acted(l, a), next);
  }

  // One worker is given the one group.
  function Dispatch(next: Script): Script {
    Do(Spawn(true), Do(LoadCancelled, Do(PopGroup, Do(SendTask(true), Do(Track, next)))))
  }

  function Handed(g: TaskGroup): Lone {
    Lone(Worker(Reading(g, []), true, true, [], None, Dispatched(Empty, g)), [], [])
  }

  lemma ToPopping(g: TaskGroup, next: Script)
    ensures Play(Lone(Fresh(), [g], []), Do(Spawn(true), Do(LoadCancelled, next))) == Play(Lone(Fresh().(phase := Popping), [g], []), next)
  {
    var l := Lone(Fresh().(phase := AtHead), [g], []);
    assert Acted(Lone(Fresh(), [g], []), Spawn(true)) == l;
    assert Acted(l, LoadCancelled) == Lone(Fresh().(phase := Popping), [g], []);
  }

  lemma ToReading(g: TaskGroup, next: Script)
    ensures Play(Lone(Fresh().(phase := Popping), [g], []), Do(PopGroup, Do(SendTask(true), Do(Track, next)))) == Play(Handed(g), next)
  {
    var l2 := Lone(Fresh().(phase := Popping), [g], []);
    var l3 := Lone(Did(l2.w, Sending(g), Popped(g)), [], []);
    assert Acted(l2, PopGroup) == l3;
    var l4 := Lone(Did(l3.w, Tracking(g), SendOk(g)), [], []);
    assert Acted(l3, SendTask(true)) == l4;
    assert Acted(l4, Track) == Handed(g);
    assert Play(l3, Do(SendTask(true), Do(Track, next))) == Play(Handed(g), next);
  }

  lemma Dispatching(g: TaskGroup, next: Script)
    ensures Play(Lone(Fresh(), [g], []), Dispatch(next)) == Play(Handed(g), next)
  {
    ToPopping(g, Do(PopGroup, Do(SendTask(true), Do(Track, next))));
    ToReading(g, next);
  }

  // With nothing left to do, the worker closes stdin and leaves.
  const LEAVE := Do(LoadCancelled, Do(PopGroup, Do(CloseStdin, Do(ReadTail, Stop))))

  lemma Leaves(w: Worker, sent: seq<(nat, string)>)
    requires w.phase == AtHead && w.alive
    ensures var l := Play(Lone(w, [], sent), LEAVE);
            l.w.phase == Exited && l.queue == [] && l.sent == sent
  {
    var l1 := Lone(w.(phase := Popping), [], sent);
    assert Acted(Lone(w, [], sent), LoadCancelled) == l1;
    var l2 := Lone(w.(phase := Finishing), [], sent);
    assert Acted(l1, PopGroup) == l2;
    Closes(l2);
    assert Play(Lone(w, [], sent), LEAVE) == Play(l1, Do(PopGroup, Do(CloseStdin, Do(ReadTail, Stop))));
  }

  lemma Closes(l: Lone)
    requires l.w.phase == Finishing && l.w.alive
    ensures var e := Play(l, Do(CloseStdin, Do(ReadTail, Stop)));
            e.w.phase == Exited && e.queue == l.queue && e.sent == l.sent
  {
    var l1 := Acted(l, CloseStdin);
    assert l1.w.phase == ReadingTail && l1.queue == l.queue && l1.sent == l.sent;
    assert Play(l1, Do(ReadTail, Stop)) == Acted(l1, ReadTail);
  }

  // One test: one answer, whoever it is for, completes the drain.
  lemma OneAnswer(g: TaskGroup, id: string)
    requires |Ids(g)| == 1
    ensures var l := Play(Handed(g), Do(ReadResult(id), Do(EndDrain(Complete), LEAVE)));
            l.w.phase == Exited && l.queue == [] && l.sent == [(0, id)]
  {
    var w := Did(Handed(g).w, Reading(g, [id]), Got(id));
    var l1 := Lone(w, [], [(0, id)]);
    assert [] + [id] == [id] && [] + [(0, id)] == [(0, id)];
    assert Acted(Handed(g), ReadResult(id)) == l1;
    var l2 := Lone(Did(w, AtHead, Ended(Complete)).(rounds := [Round(g, [id], Complete)]), [], [(0, id)]);
    assert Acted(l1, EndDrain(Complete)) == l2;
    Leaves(l2.w, l2.sent);
  }

  // Two tests: one answer, then the worker is gone, and a result is made up for the second.
  const GONE := Do(EndDrain(Disconnected), Do(EmitMadeUp, Do(EmitMadeUp, Do(LoadCancelled, Do(Exit, Stop)))))

  lemma Gone(g: TaskGroup, id: string)
    requires |Ids(g)| == 2
    ensures var l := Play(Handed(g), Do(ReadResult(id), GONE));
            l.w.phase == Exited && l.queue == [] && l.sent == [(0, id), (0, Ids(g)[1])]
  {
    var w := Did(Handed(g).w, Reading(g, [id]), Got(id));
    var l1 := Lone(w, [], [(0, id)]);
    assert [] + [id] == [id] && [] + [(0, id)] == [(0, id)];
    assert Acted(Handed(g), ReadResult(id)) == l1;
    MadeUpSecond(g, id, w);
  }

  lemma MadeUpSecond(g: TaskGroup, id: string, w: Worker)
    requires |Ids(g)| == 2 && w.phase == Reading(g, [id])
    ensures var l := Play(Lone(w, [], [(0, id)]), GONE);
            l.w.phase == Exited && l.queue == [] && l.sent == [(0, id), (0, Ids(g)[1])]
  {
    var second := Ids(g)[1];
    var w2 := Did(w, Filling(g, [id], Disconnected, 1), Ended(Disconnected));
    var l2 := Lone(w2, [], [(0, id)]);
    assert Acted(Lone(w, [], [(0, id)]), EndDrain(Disconnected)) == l2;
    Filled(l2, second);
    Dies(Acted(l2, EmitMadeUp));
  }

  lemma Filled(l: Lone, id: string)
    requires l.w.phase.Filling? && l.w.phase.next == |Ids(l.w.phase.g)| - 1 && Ids(l.w.phase.g)[l.w.phase.next] == id
    ensures var l' := Acted(l, EmitMadeUp);
            && l'.w.phase == Filling(l.w.phase.g, l.w.phase.got, l.w.phase.end, l.w.phase.next + 1)
            && l'.queue == l.queue && l'.sent == l.sent + [(0, id)]
  {
    assert Emits(l.w, EmitMadeUp) == [id];
  }

  lemma Dies(l: Lone)
    requires l.w.phase.Filling? && l.w.phase.next >= |Ids(l.w.phase.g)|
    ensures var e := Play(l, Do(EmitMadeUp, Do(LoadCancelled, Do(Exit, Stop))));
            e.w.phase == Exited && e.queue == l.queue && e.sent == l.sent
  {
    var l1 := Acted(l, EmitMadeUp);
    assert l1.w.phase == AtHead && !l1.w.alive && l1.queue == l.queue && l1.sent == l.sent;
    var l2 := Acted(l1, LoadCancelled);
    assert l2.w.phase == Finishing && !l2.w.alive && l2.queue == l.queue && l2.sent == l.sent;
    var l3 := Acted(l2, Exit);
    assert l3.w.phase == Exited && l3.queue == l.queue && l3.sent == l.sent;
    assert Play(l1, Do(LoadCancelled, Do(Exit, Stop))) == l3;
  }

  // The run of a script, from the start of a phase with one worker and one group.
  lemma PlayedOut(g: TaskGroup, rest: Script, sent: seq<(nat, string)>, s: System, results: seq<Outcome>)
    requires var l := Play(Handed(g), rest); l.w.phase == Exited && l.queue == [] && l.sent == sent
    requires s == Run(Init([g], 1), Labels(Dispatch(rest))) && OutcomeIds(results) == Seconds(sent)
    ensures RunOut([g], 1, Labels(Dispatch(rest)), s, results) && s.queue == []
  {
    Dispatching(g, rest);
    Played(Init([g], 1), Lone(Fresh(), [g], []), Dispatch(rest));
  }

  lemma OneGroup(g: TaskGroup)
    ensures GroupIds([g]) == Ids(g) && GroupIds([]) == []
  {
    IdsAppend([], g);
    assert [] + [g] == [g] && [] + Ids(g) == Ids(g);
  }

  function AnsweredRun(id: string): seq<Label> {
    Labels(Dispatch(Do(ReadResult(id), Do(EndDrain(Complete), LEAVE))))
  }

  /** A result for no test of the phase completes the drain of a group of one test, and the
      phase runs out without ever recording that test. */
  lemma UnknownAnswerLosesTest(g: TaskGroup, id: string, x: string, s: System)
    requires Ids(g) == [id] && x != id && s == Run(Init([g], 1), AnsweredRun(x))
    ensures RunOut([g], 1, AnsweredRun(x), s, [Outcome(x, true)])
    ensures Recorded([Outcome(x, true)], s.queue, [g]) == []
  {
    OneAnswer(g, x);
    assert OutcomeIds([Outcome(x, true)]) == Seconds([(0, x)]);
    PlayedOut(g, Do(ReadResult(x), Do(EndDrain(Complete), LEAVE)), [(0, x)], s, [Outcome(x, true)]);
    OneGroup(g);
    NoneRecorded(g, id, x);
  }

  /** So does a result line that cannot be read, which the drain files under an ID of its own. */
  lemma MalformedLosesTest(g: TaskGroup, id: string, s: System, lines: seq<Arrival>, closes: Option<nat>, deadline: nat, watchdog: nat)
    requires Ids(g) == [id] && id != MALFORMED
    requires lines != [] && lines[0].wire == BadResult && lines[0].time < deadline
    requires s == Run(Init([g], 1), AnsweredRun(Drain(lines, closes, 1, deadline, watchdog).1[0]))
    ensures AllDone(s) && Recorded([Outcome(MALFORMED, true)], s.queue, [g]) == []
    ensures Drain(lines, closes, 1, deadline, watchdog).0 == Complete && Seconds(s.channel) == [MALFORMED]
  {
    BadResultTakesASlot(lines, closes, 1, deadline, watchdog);
    UnknownAnswerLosesTest(g, id, MALFORMED, s);
    assert OutcomeIds([Outcome(MALFORMED, true)]) == [MALFORMED];
  }

  lemma NoneRecorded(g: TaskGroup, id: string, x: string)
    requires GroupIds([g]) == [id] && id != x
    ensures Recorded([Outcome(x, true)], [], [g]) == []
  {
    var results, known := [Outcome(x, true)], set i | i in GroupIds([g]);
    assert results[..0] == [] && Recognised([], known) == [];
    assert Recognised(results, known) == [];
    assert GroupIds([]) == [];
  }

  function SwappedRun(id: string): seq<Label> {
    Labels(Dispatch(Do(ReadResult(id), GONE)))
  }

  /** A worker that answers for the second of two tests and is gone: the second test is recorded
      twice, the first never. */
  lemma OutOfOrderRecordsTwice(g: TaskGroup, first: string, second: string, s: System)
    requires Ids(g) == [first, second] && s == Run(Init([g], 1), SwappedRun(second))
    ensures RunOut([g], 1, SwappedRun(second), s, [Outcome(second, false), Outcome(second, true)])
    ensures Recorded([Outcome(second, false), Outcome(second, true)], s.queue, [g]) == [second, second]
  {
    Gone(g, second);
    var results := [Outcome(second, false), Outcome(second, true)];
    assert OutcomeIds(results) == Seconds([(0, second), (0, second)]);
    PlayedOut(g, Do(ReadResult(second), GONE), [(0, second), (0, second)], s, results);
    OneGroup(g);
    TwiceRecorded(g, second);
  }

  lemma TwiceRecorded(g: TaskGroup, x: string)
    requires x in GroupIds([g])
    ensures Recorded([Outcome(x, false), Outcome(x, true)], [], [g]) == [x, x]
  {
    var results, known := [Outcome(x, false), Outcome(x, true)], set i | i in GroupIds([g]);
    assert results[..1] == [results[0]] && results[..1][..0] == [];
    assert Recognised(results[..1], known) == [results[0]];
    assert Recognised(results, known) == results;
    assert GroupIds([]) == [];
  }
}
