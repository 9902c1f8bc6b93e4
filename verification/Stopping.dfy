/**
 When a thread goes on and when it stops (`run_worker_loop` in `src/worker_session.rs`): the
 shared cancel flag at the head of its loop, a process that does not start, a task that cannot
 be sent.
 */
module Stopping {
  import opened Options
  import opened Grouping
  import opened Workers

  // ── Cancelling ────────────────────────────────────────────────────────────────────────

  // The threads that are past the head of the loop and have not popped yet.
  function PastHead(workers: seq<Worker>): nat {
    if workers == [] then 0
    else PastHead(workers[..|workers| - 1]) + if workers[|workers| - 1].phase == Popping then 1 else 0
  }

  lemma {:induction false} PastHeadStep(workers: seq<Worker>, i: nat, w: Worker)
    requires i < |workers|
    ensures PastHead(workers[i := w]) ==
      PastHead(workers) - (if workers[i].phase == Popping then 1 else 0) + if w.phase == Popping then 1 else 0
    decreases workers
  {
    var n := |workers| - 1;
    if i == n {
      assert workers[i := w][..n] == workers[..n];
    } else {
      assert workers[i := w][..n] == workers[..n][i := w];
      PastHeadStep(workers[..n], i, w);
    }
  }

  // A group popped uses up a thread past the head, and none gets there any more.
  lemma CancelledStep(s: System, l: Label)
    requires s.cancelled
    ensures var t := Step(s, l);
            && t.cancelled && |t.workers| == |s.workers|
            && |t.claims| + PastHead(t.workers) <= |s.claims| + PastHead(s.workers)
  {
    if l.Thread? && l.i < |s.workers| {
      var w := s.workers[l.i];
      PastHeadStep(s.workers, l.i, Advance(w, l.action, true, s.queue));
    }
  }

  // How many groups thread `i` has claimed, and whether it may claim one more.
  function Claimed(s: System, i: nat): nat
    requires i < |s.workers|
  {
    |ValuesAt(s.claims, i)| + if s.workers[i].phase == Popping then 1 else 0
  }

  lemma ClaimedBy<V>(log: seq<(nat, V)>, k: nat, v: V, i: nat)
    ensures ValuesAt(log + [(k, v)], i) == ValuesAt(log, i) + if k == i then [v] else []
  {
    assert (log + [(k, v)])[..|log|] == log;
  }

  lemma CancelledThread(s: System, l: Label, i: nat)
    requires s.cancelled && i < |s.workers|
    ensures |Step(s, l).workers| == |s.workers| && Claimed(Step(s, l), i) <= Claimed(s, i)
  {
    if l.Thread? && l.i < |s.workers| && Claims(s.workers[l.i], l.action, s.queue) {
      ClaimedBy(s.claims, l.i, s.queue[0], i);
    }
  }

  lemma {:induction false} CancelledRun(s: System, labels: seq<Label>, i: nat)
    requires s.cancelled && i < |s.workers|
    ensures var t := Run(s, labels);
            && t.cancelled && |t.workers| == |s.workers|
            && |t.claims| + PastHead(t.workers) <= |s.claims| + PastHead(s.workers)
            && Claimed(t, i) <= Claimed(s, i)
    decreases labels
  {
    if labels == [] {
    } else {
      var n := |labels| - 1;
      CancelledRun(s, labels[..n], i);
      CancelledStep(Run(s, labels[..n]), labels[n]);
      CancelledThread(Run(s, labels[..n]), labels[n], i);
    }
  }

  /** Whatever is scheduled after a step that cancels: every thread pops at most one more group,
      and none unless it was past the head of the loop; together they pop no more groups than
      threads were. */
  lemma CancelStopsPopping(s: System, labels: seq<Label>, i: nat, t: System)
    requires i < |s.workers| && t == Run(Step(s, Cancel), labels)
    ensures |t.claims| <= |s.claims| + PastHead(s.workers)
    ensures |ValuesAt(t.claims, i)| <= |ValuesAt(s.claims, i)| + if s.workers[i].phase == Popping then 1 else 0
  {
    CancelledRun(Step(s, Cancel), labels, i);
  }

  // Steps of others leave a thread where it is.
  lemma {:induction false} OthersRun(s: System, labels: seq<Label>, i: nat)
    requires i < |s.workers| && forall l | l in labels :: l.Thread? ==> l.i != i
    ensures |Run(s, labels).workers| == |s.workers| && Run(s, labels).workers[i] == s.workers[i]
    decreases labels
  {
    if labels == [] {
    } else {
      var n := |labels| - 1;
      OthersRun(s, labels[..n], i);
      assert labels[n] in labels;
    }
  }

  /** And while nothing cancels, a live thread at the head of the loop goes on: it passes, and
      whatever the others did in between, it pops the front group if there is one. */
  lemma HeadPops(s: System, i: nat, others: seq<Label>, mid: System, t: System)
    requires i < |s.workers| && s.workers[i].phase == AtHead && s.workers[i].alive && !s.cancelled
    requires forall l | l in others :: l.Thread? ==> l.i != i
    requires mid == Run(Step(s, Thread(i, LoadCancelled)), others) && t == Step(mid, Thread(i, PopGroup))
    ensures |t.workers| == |s.workers|
    ensures mid.queue != [] ==>
      && t.workers[i].phase == Sending(mid.queue[0])
      && t.claims == mid.claims + [(i, mid.queue[0])] && [mid.queue[0]] + t.queue == mid.queue
    ensures mid.queue == [] ==> t.workers[i].phase == Finishing && t.claims == mid.claims && t.queue == []
  {
    OthersRun(Step(s, Thread(i, LoadCancelled)), others, i);
  }

  /** A thread at the head of the loop of a cancelled run, or with a dead process, leaves it. */
  lemma HeadLeaves(s: System, i: nat)
    requires i < |s.workers| && s.workers[i].phase == AtHead && (s.cancelled || !s.workers[i].alive)
    ensures Step(s, Thread(i, LoadCancelled)).workers[i].phase == Finishing
  {
  }

  // ── Failed starts and failed sends ────────────────────────────────────────────────────

  lemma UnspawnedStays(w: Worker, a: Action, cancelled: bool, queue: seq<TaskGroup>)
    requires w.phase == Unspawned
    ensures Advance(w, a, cancelled, queue) == w && Emits(w, a) == [] && !Claims(w, a, queue)
  {
  }

  // Thread `i` could not be started, and has done in `t` what it had in `s`.
  ghost predicate Idle(s: System, t: System, i: nat) {
    && i < |s.workers| == |t.workers| && t.workers[i].phase == Unspawned && t.workers[i].log == s.workers[i].log
    && ValuesAt(t.claims, i) == ValuesAt(s.claims, i) && ValuesAt(t.channel, i) == ValuesAt(s.channel, i)
  }

  lemma IdleStep(s: System, u: System, i: nat, l: Label)
    requires Idle(s, u, i)
    ensures Idle(s, Step(u, l), i)
  {
    if l.Thread? && l.i < |u.workers| {
      var w := u.workers[l.i];
      if l.i == i {
        UnspawnedStays(w, l.action, u.cancelled, u.queue);
      } else {
        OtherStep(u, i, l.i, l.action);
      }
    }
  }

  // A step of another thread files nothing under this one.
  lemma OtherStep(u: System, i: nat, k: nat, a: Action)
    requires i < |u.workers| && k < |u.workers| && k != i
    ensures var t := Step(u, Thread(k, a));
            && t.workers[i] == u.workers[i]
            && ValuesAt(t.claims, i) == ValuesAt(u.claims, i) && ValuesAt(t.channel, i) == ValuesAt(u.channel, i)
  {
    var w := u.workers[k];
    if Claims(w, a, u.queue) {
      ClaimedBy(u.claims, k, u.queue[0], i);
    }
    if Emits(w, a) != [] {
      ClaimedBy(u.channel, k, Emits(w, a)[0], i);
    }
  }

  /** A thread whose process could not be started does nothing, ever: it claims no group, sends no
      result and counts as done. */
  lemma {:induction false} FailedStartIsIdle(s: System, i: nat, labels: seq<Label>)
    requires i < |s.workers| && s.workers[i].phase == Starting
    ensures Idle(s, Run(Step(s, Thread(i, Spawn(false))), labels), i)
    decreases labels
  {
    var first := Step(s, Thread(i, Spawn(false)));
    if labels == [] {
      assert Idle(s, first, i);
    } else {
      var n := |labels| - 1;
      FailedStartIsIdle(s, i, labels[..n]);
      IdleStep(s, Run(first, labels[..n]), i, labels[n]);
    }
  }

  function Repeat(l: Label, n: nat): seq<Label> {
    seq(n, _ => l)
  }

  // The thread is reporting the items of `g` as crashed and has come to the `n`-th.
  ghost predicate Reporting(s: System, t: System, i: nat, g: TaskGroup, n: nat) {
    && i < |s.workers| == |t.workers| && n <= |Ids(g)| && t.workers[i].phase == Crashing(g, n)
    && ValuesAt(t.channel, i) == ValuesAt(s.channel, i) + Ids(g)[..n]
  }

  lemma ReportStep(s: System, u: System, i: nat, g: TaskGroup, n: nat)
    requires Reporting(s, u, i, g, n) && n < |Ids(g)|
    ensures Reporting(s, Step(u, Thread(i, EmitCrash)), i, g, n + 1)
  {
    var ids := Ids(g);
    assert Emits(u.workers[i], EmitCrash) == [ids[n]];
    ClaimedBy(u.channel, i, ids[n], i);
    assert ids[..n] + [ids[n]] == ids[..n + 1];
    assert ValuesAt(s.channel, i) + ids[..n] + [ids[n]] == ValuesAt(s.channel, i) + (ids[..n] + [ids[n]]);
  }

  lemma {:induction false} CrashesSent(s: System, u: System, i: nat, g: TaskGroup, n: nat)
    requires Reporting(s, u, i, g, 0) && n <= |Ids(g)|
    ensures Reporting(s, Run(u, Repeat(Thread(i, EmitCrash), n)), i, g, n)
    decreases n
  {
    var labels := Repeat(Thread(i, EmitCrash), n);
    if n == 0 {
    } else {
      assert labels[..n - 1] == Repeat(Thread(i, EmitCrash), n - 1);
      CrashesSent(s, u, i, g, n - 1);
      ReportStep(s, Run(u, labels[..n - 1]), i, g, n - 1);
    }
  }

  /** A send that fails, or that finds stdin closed: the group counts as refused, and the thread's
      own next steps report every item of it as crashed, in order, and leave the loop. */
  lemma FailedSendReports(s: System, i: nat, ok: bool, g: TaskGroup, t: System)
    requires i < |s.workers| && s.workers[i].phase == Sending(g) && (!ok || !s.workers[i].stdinOpen)
    requires t == Run(Step(s, Thread(i, SendTask(ok))), Repeat(Thread(i, EmitCrash), |Ids(g)|))
    ensures |t.workers| == |s.workers| && Step(s, Thread(i, SendTask(ok))).workers[i].refused == Some(g)
    ensures ValuesAt(t.channel, i) == ValuesAt(s.channel, i) + Ids(g)
    ensures Step(t, Thread(i, EmitCrash)).workers[i].phase == Finishing
  {
    var u := Step(s, Thread(i, SendTask(ok)));
    assert ValuesAt(s.channel, i) + Ids(g)[..0] == ValuesAt(s.channel, i);
    assert Reporting(s, u, i, g, 0);
    CrashesSent(s, u, i, g, |Ids(g)|);
    assert Ids(g)[..|Ids(g)|] == Ids(g);
  }
}
