/**
 Any number of worker threads sharing one queue (`run_worker_loop`, `WorkerSession` in
 `src/worker_session.rs`, `Scheduler` in `src/scheduler.rs`, the coordinator's loop in
 `src/parallel/mod.rs`), as a transition system. Each transition is one action of one thread
 on shared state; a run is any sequence of them, so every interleaving is covered, with
 arbitrary results of sending and draining.
 */
module Workers {
  import opened Options
  import opened Paths
  import opened Grouping
  import opened Draining

  // ── Groups ────────────────────────────────────────────────────────────────────────────

  function IdsOf(items: seq<TestItem>): seq<string> {
    seq(|items|, i requires 0 <= i < |items| => items[i].nodeId)
  }

  // The node IDs of a group's items, module by module.
  function Ids(g: TaskGroup): seq<string> {
    IdsOf(ItemsOf(g.modules))
  }

  /** `item_count`: the number of results the coordinator waits for is the number of IDs. */
  method ItemCount(g: TaskGroup) returns (n: nat)
    ensures n == |Ids(g)|
  {
    n := 0;
    for i := 0 to |g.modules|
      invariant n == |ItemsOf(g.modules[..i])|
    {
      assert g.modules[..i + 1][..i] == g.modules[..i];
      n := n + |g.modules[i].items|;
    }
    assert g.modules[..|g.modules|] == g.modules;
  }

  // The task sent for a group: its modules one to one, with their items' IDs.
  datatype TaskModule = TaskModule(path: Path, ids: seq<string>)

  function BuildTask(g: TaskGroup): seq<TaskModule> {
    seq(|g.modules|, i requires 0 <= i < |g.modules| => TaskModule(g.modules[i].modulePath, IdsOf(g.modules[i].items)))
  }

  function TaskIds(task: seq<TaskModule>): seq<string> {
    if task == [] then [] else TaskIds(task[..|task| - 1]) + task[|task| - 1].ids
  }

  /** The task names exactly the items the coordinator waits for, in the same order: one module of
      the task for each of the group, with its path and the IDs of its items. */
  lemma {:induction false} TaskNamesTheItems(modules: seq<ModuleGroup>, anchor: Option<Path>)
    ensures TaskIds(BuildTask(TaskGroup(modules, anchor))) == Ids(TaskGroup(modules, anchor))
    ensures |BuildTask(TaskGroup(modules, anchor))| == |modules|
    ensures forall i | 0 <= i < |modules| ::
      var t := BuildTask(TaskGroup(modules, anchor))[i];
      && t.path == modules[i].modulePath && |t.ids| == |modules[i].items|
      && forall k | 0 <= k < |t.ids| :: t.ids[k] == modules[i].items[k].nodeId
    decreases modules
  {
    var n := |modules| - 1;
    if modules == [] {
    } else {
      TaskNamesTheItems(modules[..n], anchor);
      assert BuildTask(TaskGroup(modules, anchor))[..n] == BuildTask(TaskGroup(modules[..n], anchor));
      assert IdsOf(ItemsOf(modules)) == IdsOf(ItemsOf(modules[..n])) + IdsOf(modules[n].items);
    }
  }

  class Scheduler {
    var queue: seq<TaskGroup>

    constructor (groups: seq<TaskGroup>)
      ensures queue == groups
    {
      queue := groups;
    }

    method Pop() returns (g: Option<TaskGroup>)
      modifies this
      ensures g.None? <==> old(queue) == []
      ensures old(queue) == (if g.Some? then [g.value] else []) + queue
    {
      if queue == [] {
        return None;
      }
      g := Some(queue[0]);
      queue := queue[1..];
    }
  }

  // ── Threads ───────────────────────────────────────────────────────────────────────────

  // What a thread does that the protocol is about.
  datatype Act =
    | Popped(g: TaskGroup)
    | SendOk(g: TaskGroup)
    | SendFailed(g: TaskGroup)
    | Tracked(ids: seq<string>)
    | Got(id: string)
    | Ended(end: End)
    | MadeUp(id: string)
    | Crashed(id: string)
    | Closed
    | TailRead

  // Everything a thread has done, oldest act innermost.
  datatype Log = Empty | After(before: Log, act: Act)

  // Where in `run_worker_loop` a thread stands.
  datatype Phase =
    | Starting
    | Unspawned
    | AtHead
    | Popping
    | Sending(g: TaskGroup)
    | Crashing(g: TaskGroup, next: nat)
    | Tracking(g: TaskGroup)
    | Reading(g: TaskGroup, got: seq<string>)
    | Filling(g: TaskGroup, got: seq<string>, end: End, next: nat)
    | Finishing
    | ReadingTail
    | Exited

  datatype Round = Round(g: TaskGroup, got: seq<string>, end: End)

  // `rounds`, `refused` and `log` are history: the groups drained, the group whose send
  // failed, and everything done so far.
  datatype Worker = Worker(phase: Phase, alive: bool, stdinOpen: bool,
                           rounds: seq<Round>, refused: Option<TaskGroup>, log: Log)

  // Results on the channel carry the worker they come from. `claims` is history: who popped
  // which group, in order.
  datatype System = System(queue: seq<TaskGroup>, claims: seq<(nat, TaskGroup)>, inFlight: set<string>, cancelled: bool,
                           workers: seq<Worker>, channel: seq<(nat, string)>, read: nat)

  datatype Action =
    | Spawn(ok: bool)
    | LoadCancelled
    | PopGroup
    | SendTask(ok: bool)
    | EmitCrash
    | Track
    | ReadResult(id: string)
    | EndDrain(end: End)
    | EmitMadeUp
    | CloseStdin
    | ReadTail
    | Exit

  datatype Label = Thread(i: nat, action: Action) | Cancel | Receive

  // ── Transitions; one that is not enabled changes nothing ──────────────────────────────

  function Did(w: Worker, phase: Phase, act: Act): Worker {
    w.(phase := phase, log := After(w.log, act))
  }

  function Start(w: Worker, ok: bool): Worker {
    if w.phase != Starting then w else w.(phase := if ok then AtHead else Unspawned)
  }

  // The head of the loop: the process must be alive and the run not cancelled.
  function Load(w: Worker, cancelled: bool): Worker {
    if w.phase != AtHead then w else w.(phase := if w.alive && !cancelled then Popping else Finishing)
  }

  function Pop(w: Worker, queue: seq<TaskGroup>): Worker {
    if w.phase != Popping then w
    else if queue == [] then w.(phase := Finishing)
    else Did(w, Sending(queue[0]), Popped(queue[0]))
  }

  // A send fails if the pipe is broken, and always once stdin was closed.
  function Send(w: Worker, ok: bool): Worker {
    if !w.phase.Sending? then w
    else if ok && w.stdinOpen then Did(w, Tracking(w.phase.g), SendOk(w.phase.g))
    else Did(w, Crashing(w.phase.g, 0), SendFailed(w.phase.g)).(refused := Some(w.phase.g))
  }

  // After a failed send: one crashed result per item, then the loop is left.
  function Crash(w: Worker): Worker {
    if !w.phase.Crashing? then w
    else
      var ids, k := Ids(w.phase.g), w.phase.next;
      if k < |ids| then Did(w, Crashing(w.phase.g, k + 1), Crashed(ids[k])) else w.(phase := Finishing)
  }

  function TrackGroup(w: Worker): Worker {
    if !w.phase.Tracking? then w else Did(w, Reading(w.phase.g, []), Tracked(Ids(w.phase.g)))
  }

  function GetResult(w: Worker, id: string): Worker {
    if !w.phase.Reading? || |w.phase.got| >= |Ids(w.phase.g)| then w
    else Did(w, Reading(w.phase.g, w.phase.got + [id]), Got(id))
  }

  // The drain ends by itself when every result is in, and badly at any earlier point.
  function Finish(w: Worker, end: End): Worker {
    if !w.phase.Reading? then w
    else if |w.phase.got| >= |Ids(w.phase.g)| then
      Did(w, AtHead, Ended(Complete)).(rounds := w.rounds + [Round(w.phase.g, w.phase.got, Complete)])
    else if end == Complete then w
    else Did(w, Filling(w.phase.g, w.phase.got, end, |w.phase.got|), Ended(end))
  }

  // After a bad end: one made-up result per missing item, then the process counts as dead.
  function Fill(w: Worker): Worker {
    if !w.phase.Filling? then w
    else
      var ids, k := Ids(w.phase.g), w.phase.next;
      if k < |ids| then Did(w, Filling(w.phase.g, w.phase.got, w.phase.end, k + 1), MadeUp(ids[k]))
      else w.(phase := AtHead, alive := false, rounds := w.rounds + [Round(w.phase.g, w.phase.got, w.phase.end)])
  }

  function Shut(w: Worker): Worker {
    if w.phase == Finishing && w.alive then Did(w, ReadingTail, Closed).(stdinOpen := false) else w
  }

  function Tail(w: Worker): Worker {
    if w.phase == ReadingTail then Did(w, Exited, TailRead) else w
  }

  function Leave(w: Worker): Worker {
    if w.phase == Finishing && !w.alive then w.(phase := Exited) else w
  }

  // The thread's own part of a transition, given the shared flag and the queue.
  function Advance(w: Worker, a: Action, cancelled: bool, queue: seq<TaskGroup>): Worker {
    match a
    case Spawn(ok) => Start(w, ok)
    case LoadCancelled => Load(w, cancelled)
    case PopGroup => Pop(w, queue)
    case SendTask(ok) => Send(w, ok)
    case EmitCrash => Crash(w)
    case Track => TrackGroup(w)
    case ReadResult(id) => GetResult(w, id)
    case EndDrain(end) => Finish(w, end)
    case EmitMadeUp => Fill(w)
    case CloseStdin => Shut(w)
    case ReadTail => Tail(w)
    case Exit => Leave(w)
  }

  // The result, if any, the thread puts on the channel.
  function Emits(w: Worker, a: Action): seq<string> {
    if a.EmitCrash? && w.phase.Crashing? && w.phase.next < |Ids(w.phase.g)| then [Ids(w.phase.g)[w.phase.next]]
    else if a.EmitMadeUp? && w.phase.Filling? && w.phase.next < |Ids(w.phase.g)| then [Ids(w.phase.g)[w.phase.next]]
    else if a.ReadResult? && w.phase.Reading? && |w.phase.got| < |Ids(w.phase.g)| then [a.id]
    else []
  }

  predicate Claims(w: Worker, a: Action, queue: seq<TaskGroup>) {
    a.PopGroup? && w.phase.Popping? && queue != []
  }

  function Step(s: System, l: Label): System {
    match l
    case Cancel => s.(cancelled := true)
    case Receive =>
      if s.read < |s.channel| then s.(inFlight := s.inFlight - {s.channel[s.read].1}, read := s.read + 1) else s
    case Thread(i, a) =>
      if i >= |s.workers| then s
      else
        var w := s.workers[i];
        System(if Claims(w, a, s.queue) then s.queue[1..] else s.queue,
               if Claims(w, a, s.queue) then s.claims + [(i, s.queue[0])] else s.claims,
               if a.Track? && w.phase.Tracking? then s.inFlight + (set id | id in Ids(w.phase.g)) else s.inFlight,
               s.cancelled,
               s.workers[i := Advance(w, a, s.cancelled, s.queue)],
               if Emits(w, a) == [] then s.channel else s.channel + [(i, Emits(w, a)[0])],
               s.read)
  }

  function Fresh(): Worker {
    Worker(Starting, true, true, [], None, Empty)
  }

  function Init(groups: seq<TaskGroup>, n: nat): System {
    System(groups, [], {}, false, seq(n, _ => Fresh()), [], 0)
  }

  function Run(s: System, labels: seq<Label>): System
    decreases labels
  {
    if labels == [] then s else Step(Run(s, labels[..|labels| - 1]), labels[|labels| - 1])
  }

  // ── What a thread's log always looks like ─────────────────────────────────────────────

  function Dispatched(log: Log, g: TaskGroup): Log {
    After(After(After(log, Popped(g)), SendOk(g)), Tracked(Ids(g)))
  }

  function WithGot(log: Log, ids: seq<string>): Log {
    if ids == [] then log else After(WithGot(log, ids[..|ids| - 1]), Got(ids[|ids| - 1]))
  }

  function WithMadeUp(log: Log, ids: seq<string>, from: nat, to: nat): Log
    requires to <= |ids|
  {
    if to <= from then log else After(WithMadeUp(log, ids, from, to - 1), MadeUp(ids[to - 1]))
  }

  function WithCrashed(log: Log, ids: seq<string>, to: nat): Log
    requires to <= |ids|
  {
    if to == 0 then log else After(WithCrashed(log, ids, to - 1), Crashed(ids[to - 1]))
  }

  // A group drained: sent, tracked, its results, the verdict, and one made-up result for every
  // item after those received.
  function WithRound(log: Log, r: Round): Log {
    WithMadeUp(After(WithGot(Dispatched(log, r.g), r.got), Ended(r.end)), Ids(r.g), |r.got|, |Ids(r.g)|)
  }

  function WithRounds(rounds: seq<Round>): Log {
    if rounds == [] then Empty else WithRound(WithRounds(rounds[..|rounds| - 1]), rounds[|rounds| - 1])
  }

  // A group refused: the send failed, and one crashed result for each of its items.
  function WithRefusal(log: Log, g: Option<TaskGroup>): Log {
    if g.None? then log
    else WithCrashed(After(After(log, Popped(g.value)), SendFailed(g.value)), Ids(g.value), |Ids(g.value)|)
  }

  // The log of a thread that has drained `rounds` and stands at `w.phase`.
  function Expected(w: Worker): Log
    requires GoodPhase(w)
  {
    var log := WithRounds(w.rounds);
    match w.phase
    case Starting => log
    case Unspawned => log
    case AtHead => log
    case Popping => log
    case Sending(g) => After(log, Popped(g))
    case Crashing(g, k) => WithCrashed(After(After(log, Popped(g)), SendFailed(g)), Ids(g), k)
    case Tracking(g) => After(After(log, Popped(g)), SendOk(g))
    case Reading(g, got) => WithGot(Dispatched(log, g), got)
    case Filling(g, got, end, k) => WithMadeUp(After(WithGot(Dispatched(log, g), got), Ended(end)), Ids(g), |got|, k)
    case Finishing => WithRefusal(log, w.refused)
    case ReadingTail => After(WithRefusal(log, w.refused), Closed)
    case Exited =>
      if w.alive then After(After(WithRefusal(log, w.refused), Closed), TailRead) else WithRefusal(log, w.refused)
  }

  ghost predicate GoodPhase(w: Worker) {
    match w.phase
    case Starting => w.refused.None? && w.rounds == []
    case Unspawned => w.refused.None? && w.rounds == []
    case AtHead => w.refused.None?
    case Popping => w.alive && w.refused.None?
    case Sending(g) => w.alive && w.refused.None?
    case Crashing(g, k) => w.alive && k <= |Ids(g)| && w.refused == Some(g)
    case Tracking(g) => w.alive && w.refused.None?
    case Reading(g, got) => w.alive && w.refused.None? && |got| <= |Ids(g)|
    case Filling(g, got, end, k) =>
      w.alive && w.refused.None? && !end.Complete? && |got| < |Ids(g)| && |got| <= k <= |Ids(g)|
    case Finishing => w.refused.Some? ==> w.alive
    case ReadingTail => w.alive
    case Exited => w.refused.Some? ==> w.alive
  }

  ghost predicate GoodRound(r: Round) {
    |r.got| <= |Ids(r.g)| && (r.end.Complete? <==> |r.got| == |Ids(r.g)|)
  }

  // Only the last group can have ended badly, and then the process is dead.
  ghost predicate GoodRounds(rounds: seq<Round>, alive: bool) {
    && (forall i | 0 <= i < |rounds| :: GoodRound(rounds[i]))
    && (forall i | 0 <= i < |rounds| - 1 :: rounds[i].end.Complete?)
    && (alive <==> rounds == [] || rounds[|rounds| - 1].end.Complete?)
  }

  /** The protocol of one thread: its log is its drained groups in order, then what the current
      phase allows; only the last drained group can have ended badly, and only then is the
      process dead; stdin is open until the closing step. */
  ghost predicate Protocol(w: Worker) {
    && GoodPhase(w)
    && GoodRounds(w.rounds, w.alive)
    && (w.stdinOpen <==> !w.phase.ReadingTail? && !(w.phase.Exited? && w.alive))
    && w.log == Expected(w)
  }

  lemma KeptResult(w: Worker, id: string)
    requires Protocol(w)
    ensures Protocol(GetResult(w, id))
  {
    if w.phase.Reading? {
      var got := w.phase.got;
      assert (got + [id])[..|got|] == got;
    }
  }

  lemma RoundAdded(rounds: seq<Round>, r: Round)
    requires GoodRounds(rounds, true) && GoodRound(r)
    ensures GoodRounds(rounds + [r], r.end.Complete?)
    ensures WithRounds(rounds + [r]) == WithRound(WithRounds(rounds), r)
  {
    assert (rounds + [r])[..|rounds|] == rounds;
  }

  // The step that ends a round.
  lemma KeptRound(w: Worker, r: Round, log: Log)
    requires GoodRounds(w.rounds, true) && GoodRound(r) && w.refused == None && w.stdinOpen
    requires log == WithRound(WithRounds(w.rounds), r)
    ensures Protocol(Worker(AtHead, r.end.Complete?, true, w.rounds + [r], None, log))
  {
    RoundAdded(w.rounds, r);
  }

  lemma KeptEnd(w: Worker, end: End)
    requires Protocol(w)
    ensures Protocol(Finish(w, end))
  {
    if w.phase.Reading? && |w.phase.got| == |Ids(w.phase.g)| {
      KeptRound(w, Round(w.phase.g, w.phase.got, Complete), After(w.log, Ended(Complete)));
    }
  }

  lemma KeptFill(w: Worker)
    requires Protocol(w)
    ensures Protocol(Fill(w))
  {
    if w.phase.Filling? && w.phase.next == |Ids(w.phase.g)| {
      KeptRound(w, Round(w.phase.g, w.phase.got, w.phase.end), w.log);
    }
  }

  lemma KeptStart(w: Worker, ok: bool)
    requires Protocol(w)
    ensures Protocol(Start(w, ok))
  {
  }

  lemma KeptLoad(w: Worker, cancelled: bool)
    requires Protocol(w)
    ensures Protocol(Load(w, cancelled))
  {
  }

  lemma KeptPop(w: Worker, queue: seq<TaskGroup>)
    requires Protocol(w)
    ensures Protocol(Pop(w, queue))
  {
  }

  lemma KeptSend(w: Worker, ok: bool)
    requires Protocol(w)
    ensures Protocol(Send(w, ok))
  {
  }

  lemma KeptCrash(w: Worker)
    requires Protocol(w)
    ensures Protocol(Crash(w))
  {
  }

  lemma KeptTrack(w: Worker)
    requires Protocol(w)
    ensures Protocol(TrackGroup(w))
  {
  }

  lemma KeptShut(w: Worker)
    requires Protocol(w)
    ensures Protocol(Shut(w))
  {
  }

  lemma KeptTail(w: Worker)
    requires Protocol(w)
    ensures Protocol(Tail(w))
  {
  }

  lemma KeptLeave(w: Worker)
    requires Protocol(w)
    ensures Protocol(Leave(w))
  {
  }

  /** One step of a thread keeps its protocol, whatever the shared state. */
  lemma ProtocolKept(w: Worker, a: Action, cancelled: bool, queue: seq<TaskGroup>)
    requires Protocol(w)
    ensures Protocol(Advance(w, a, cancelled, queue))
  {
    match a {
      case Spawn(ok) => KeptStart(w, ok);
      case LoadCancelled => KeptLoad(w, cancelled);
      case PopGroup => KeptPop(w, queue);
      case SendTask(ok) => KeptSend(w, ok);
      case EmitCrash => KeptCrash(w);
      case Track => KeptTrack(w);
      case ReadResult(id) => KeptResult(w, id);
      case EndDrain(end) => KeptEnd(w, end);
      case EmitMadeUp => KeptFill(w);
      case CloseStdin => KeptShut(w);
      case ReadTail => KeptTail(w);
      case Exit => KeptLeave(w);
    }
  }

  /** Every interleaving: after any run, every thread has kept its protocol. */
  lemma {:induction false} ProtocolAlways(groups: seq<TaskGroup>, n: nat, labels: seq<Label>)
    ensures |Run(Init(groups, n), labels).workers| == n
    ensures forall i | 0 <= i < n :: Protocol(Run(Init(groups, n), labels).workers[i])
    decreases labels
  {
    if labels == [] {
    } else {
      var before, l := labels[..|labels| - 1], labels[|labels| - 1];
      ProtocolAlways(groups, n, before);
      var s := Run(Init(groups, n), before);
      if l.Thread? && l.i < n {
        ProtocolKept(s.workers[l.i], l.action, s.cancelled, s.queue);
      }
    }
  }

  // ── The session protocol, read off the log alone ──────────────────────────────────────

  // The items of the group popped last that no result has been sent for.
  function Debt(log: Log): seq<string> {
    if log.Empty? then []
    else
      match log.act
      case Popped(g) => Ids(g)
      case Got(_) => Rest(Debt(log.before))
      case MadeUp(_) => Rest(Debt(log.before))
      case Crashed(_) => Rest(Debt(log.before))
      case _ => Debt(log.before)
  }

  function Rest(ids: seq<string>): seq<string> {
    if ids == [] then [] else ids[1..]
  }

  // The last act that is not a result.
  function Milestone(log: Log): Option<Act> {
    if log.Empty? then None
    else if log.act.Got? || log.act.MadeUp? || log.act.Crashed? then Milestone(log.before)
    else Some(log.act)
  }

  /** When an act may happen. A group is popped and stdin is closed only with no item owed a
      result; a send follows a pop; results are received only once the group's items are
      tracked, which follows a successful send; results are made up, one for each item still
      owed one and in order, only after a drain that ended badly or a failed send. Nothing
      follows a bad end but made-up results, a failed send but crashed results and closing,
      closing but reading the tail. */
  predicate Allowed(log: Log, act: Act) {
    var last := Milestone(log);
    match act
    case Popped(_) => Debt(log) == [] && (last == None || last == Some(Ended(Complete)))
    case SendOk(g) => last == Some(Popped(g))
    case SendFailed(g) => last == Some(Popped(g))
    case Tracked(ids) => last.Some? && last.value.SendOk? && ids == Ids(last.value.g)
    case Got(_) => Debt(log) != [] && last.Some? && last.value.Tracked?
    case Ended(end) => last.Some? && last.value.Tracked? && (end.Complete? <==> Debt(log) == [])
    case MadeUp(id) => Debt(log) != [] && id == Debt(log)[0] && last.Some? && last.value.Ended? && !last.value.end.Complete?
    case Crashed(id) => Debt(log) != [] && id == Debt(log)[0] && last.Some? && last.value.SendFailed?
    case Closed =>
      Debt(log) == [] && (last == None || last == Some(Ended(Complete)) || last.value.SendFailed?)
    case TailRead => last == Some(Closed)
  }

  predicate Orderly(log: Log) {
    log.After? ==> Orderly(log.before) && Allowed(log.before, log.act)
  }

  // Between groups, with the process alive.
  predicate Ready(log: Log) {
    Orderly(log) && Debt(log) == [] && (Milestone(log) == None || Milestone(log) == Some(Ended(Complete)))
  }

  lemma {:induction false} OrderlyGot(log: Log, ids: seq<string>)
    requires Orderly(log) && |ids| <= |Debt(log)| && Milestone(log).Some? && Milestone(log).value.Tracked?
    ensures Orderly(WithGot(log, ids)) && Milestone(WithGot(log, ids)) == Milestone(log)
    ensures Debt(WithGot(log, ids)) == Debt(log)[|ids|..]
  {
    if ids == [] {
    } else {
      OrderlyGot(log, ids[..|ids| - 1]);
    }
  }

  lemma {:induction false} OrderlyMadeUp(log: Log, ids: seq<string>, from: nat, to: nat)
    requires Orderly(log) && from <= to <= |ids| && Debt(log) == ids[from..]
    requires from < |ids| ==> Milestone(log).Some? && Milestone(log).value.Ended? && !Milestone(log).value.end.Complete?
    ensures Orderly(WithMadeUp(log, ids, from, to)) && Milestone(WithMadeUp(log, ids, from, to)) == Milestone(log)
    ensures Debt(WithMadeUp(log, ids, from, to)) == ids[to..]
  {
    if from < to {
      OrderlyMadeUp(log, ids, from, to - 1);
    }
  }

  lemma {:induction false} OrderlyCrashed(log: Log, ids: seq<string>, to: nat)
    requires Orderly(log) && to <= |ids| && Debt(log) == ids
    requires Milestone(log).Some? && Milestone(log).value.SendFailed?
    ensures Orderly(WithCrashed(log, ids, to)) && Milestone(WithCrashed(log, ids, to)) == Milestone(log)
    ensures Debt(WithCrashed(log, ids, to)) == ids[to..]
  {
    if to == 0 {
    } else {
      OrderlyCrashed(log, ids, to - 1);
    }
  }

  lemma OrderlyDispatched(log: Log, g: TaskGroup)
    requires Ready(log)
    ensures Orderly(Dispatched(log, g)) && Debt(Dispatched(log, g)) == Ids(g)
  {
    var popped := After(log, Popped(g));
    var sent := After(popped, SendOk(g));
    assert Orderly(popped);
    assert Orderly(sent) && Debt(sent) == Ids(g);
  }

  lemma OrderlyReading(log: Log, g: TaskGroup, got: seq<string>)
    requires Ready(log) && |got| <= |Ids(g)|
    ensures Orderly(WithGot(Dispatched(log, g), got))
    ensures Milestone(WithGot(Dispatched(log, g), got)) == Some(Tracked(Ids(g)))
    ensures Debt(WithGot(Dispatched(log, g), got)) == Ids(g)[|got|..]
  {
    OrderlyDispatched(log, g);
    OrderlyGot(Dispatched(log, g), got);
  }

  lemma OrderlyFilling(log: Log, r: Round, k: nat)
    requires Ready(log) && GoodRound(r) && |r.got| <= k <= |Ids(r.g)|
    ensures var filled := WithMadeUp(After(WithGot(Dispatched(log, r.g), r.got), Ended(r.end)), Ids(r.g), |r.got|, k);
            Orderly(filled) && Milestone(filled) == Some(Ended(r.end)) && Debt(filled) == Ids(r.g)[k..]
  {
    OrderlyReading(log, r.g, r.got);
    OrderlyMadeUp(After(WithGot(Dispatched(log, r.g), r.got), Ended(r.end)), Ids(r.g), |r.got|, k);
  }

  lemma {:induction false} OrderlyRounds(rounds: seq<Round>, alive: bool)
    requires GoodRounds(rounds, alive)
    ensures Orderly(WithRounds(rounds)) && Debt(WithRounds(rounds)) == [] && (alive ==> Ready(WithRounds(rounds)))
  {
    if rounds == [] {
    } else {
      var n := |rounds| - 1;
      OrderlyRounds(rounds[..n], true);
      OrderlyFilling(WithRounds(rounds[..n]), rounds[n], |Ids(rounds[n].g)|);
    }
  }

  lemma OrderlyRefusal(log: Log, g: TaskGroup, k: nat)
    requires Ready(log) && k <= |Ids(g)|
    ensures var refused := WithCrashed(After(After(log, Popped(g)), SendFailed(g)), Ids(g), k);
            Orderly(refused) && Milestone(refused) == Some(SendFailed(g)) && Debt(refused) == Ids(g)[k..]
  {
    OrderlyCrashed(After(After(log, Popped(g)), SendFailed(g)), Ids(g), k);
  }

  lemma ProtocolIsOrderly(w: Worker)
    requires Protocol(w)
    ensures Orderly(w.log)
    ensures w.phase.Exited? ==> Debt(w.log) == []
  {
    OrderlyRounds(w.rounds, w.alive);
    var log := WithRounds(w.rounds);
    if w.phase.Crashing? {
      OrderlyRefusal(log, w.phase.g, w.phase.next);
    } else if w.phase.Reading? {
      OrderlyReading(log, w.phase.g, w.phase.got);
    } else if w.phase.Filling? {
      OrderlyFilling(log, Round(w.phase.g, w.phase.got, w.phase.end), w.phase.next);
    } else if w.refused.Some? {
      OrderlyRefusal(log, w.refused.value, |Ids(w.refused.value)|);
    }
  }

  /** In every interleaving of any number of workers, with arbitrary results of spawning,
      sending and draining, every act of every thread is allowed by what the thread did before,
      and a thread that has exited owes no result. */
  lemma SessionsKeepProtocol(groups: seq<TaskGroup>, n: nat, labels: seq<Label>, i: nat)
    requires i < n
    ensures |Run(Init(groups, n), labels).workers| == n
    ensures Orderly(Run(Init(groups, n), labels).workers[i].log)
    ensures Run(Init(groups, n), labels).workers[i].phase.Exited? ==> Debt(Run(Init(groups, n), labels).workers[i].log) == []
  {
    ProtocolAlways(groups, n, labels);
    ProtocolIsOrderly(Run(Init(groups, n), labels).workers[i]);
  }

  // ── In flight ─────────────────────────────────────────────────────────────────────────

  predicate TrackedIn(log: Log, id: string) {
    log.After? && ((log.act.Tracked? && id in log.act.ids) || TrackedIn(log.before, id))
  }

  ghost predicate Received(s: System, id: string) {
    exists k | 0 <= k < s.read && k < |s.channel| :: s.channel[k].1 == id
  }

  /** The shared set holds what some worker is working on: every ID a thread has tracked is in
      it until a result for that ID was received, and nothing else ever gets in. */
  ghost predicate InFlightRight(s: System) {
    && s.read <= |s.channel|
    && (forall i, id | 0 <= i < |s.workers| && TrackedIn(s.workers[i].log, id) :: id in s.inFlight || Received(s, id))
    && (forall id | id in s.inFlight :: exists i | 0 <= i < |s.workers| :: TrackedIn(s.workers[i].log, id))
  }

  // A step adds to a thread's tracked IDs exactly what it adds to the shared set.
  lemma TrackedStep(w: Worker, a: Action, cancelled: bool, queue: seq<TaskGroup>, id: string)
    ensures TrackedIn(Advance(w, a, cancelled, queue).log, id) <==>
      TrackedIn(w.log, id) || (a.Track? && w.phase.Tracking? && id in Ids(w.phase.g))
  {
  }

  lemma ReceivedStays(s: System, t: System, id: string)
    requires s.channel <= t.channel && s.read <= t.read && Received(s, id)
    ensures Received(t, id)
  {
    var k :| 0 <= k < s.read && k < |s.channel| && s.channel[k].1 == id;
    assert t.channel[k] == s.channel[k];
  }

  lemma InFlightThread(s: System, i: nat, a: Action)
    requires InFlightRight(s) && i < |s.workers|
    ensures InFlightRight(Step(s, Thread(i, a)))
  {
    var t, w := Step(s, Thread(i, a)), s.workers[i];
    forall k, id | 0 <= k < |t.workers| && TrackedIn(t.workers[k].log, id) ensures id in t.inFlight || Received(t, id) {
      TrackedStep(w, a, s.cancelled, s.queue, id);
      if Received(s, id) {
        ReceivedStays(s, t, id);
      }
    }
    forall id | id in t.inFlight ensures exists k | 0 <= k < |t.workers| :: TrackedIn(t.workers[k].log, id) {
      TrackedStep(w, a, s.cancelled, s.queue, id);
      if id in s.inFlight {
        var k :| 0 <= k < |s.workers| && TrackedIn(s.workers[k].log, id);
        assert TrackedIn(t.workers[k].log, id);
      } else {
        assert TrackedIn(t.workers[i].log, id);
      }
    }
  }

  lemma InFlightReceive(s: System)
    requires InFlightRight(s)
    ensures InFlightRight(Step(s, Receive))
  {
    var t := Step(s, Receive);
    forall k, id | 0 <= k < |t.workers| && TrackedIn(t.workers[k].log, id) ensures id in t.inFlight || Received(t, id) {
      if Received(s, id) {
        ReceivedStays(s, t, id);
      } else if s.read < |s.channel| && s.channel[s.read].1 == id {
        assert t.channel[s.read].1 == id;
      }
    }
  }

  // Step `k` of the run puts the ID in flight; step `k` receives a result for it.
  ghost predicate TracksAt(s0: System, labels: seq<Label>, k: nat, id: string) {
    && k < |labels| && labels[k].Thread? && labels[k].action.Track?
    && var s := Run(s0, labels[..k]);
    labels[k].i < |s.workers| && s.workers[labels[k].i].phase.Tracking? && id in Ids(s.workers[labels[k].i].phase.g)
  }

  ghost predicate ReceivesAt(s0: System, labels: seq<Label>, k: nat, id: string) {
    && k < |labels| && labels[k].Receive?
    && var s := Run(s0, labels[..k]);
    s.read < |s.channel| && s.channel[s.read].1 == id
  }

  // Put in flight at step `k`, and no result received since.
  ghost predicate Outstanding(s0: System, labels: seq<Label>, k: nat, id: string) {
    TracksAt(s0, labels, k, id) && forall j: nat | k < j < |labels| :: !ReceivesAt(s0, labels, j, id)
  }

  lemma EarlierSteps(s0: System, labels: seq<Label>, k: nat, id: string)
    requires labels != [] && k < |labels| - 1
    ensures TracksAt(s0, labels, k, id) <==> TracksAt(s0, labels[..|labels| - 1], k, id)
    ensures ReceivesAt(s0, labels, k, id) <==> ReceivesAt(s0, labels[..|labels| - 1], k, id)
  {
    assert labels[..|labels| - 1][..k] == labels[..k];
  }

  lemma OutstandingEarlier(s0: System, labels: seq<Label>, k: nat, id: string)
    requires labels != [] && k < |labels| - 1
    ensures Outstanding(s0, labels, k, id) <==>
      Outstanding(s0, labels[..|labels| - 1], k, id) && !ReceivesAt(s0, labels, |labels| - 1, id)
  {
    var n := |labels| - 1;
    EarlierSteps(s0, labels, k, id);
    forall j: nat | k < j < n ensures ReceivesAt(s0, labels, j, id) <==> ReceivesAt(s0, labels[..n], j, id) {
      EarlierSteps(s0, labels, j, id);
    }
    if Outstanding(s0, labels[..n], k, id) && !ReceivesAt(s0, labels, n, id) {
      forall j: nat | k < j < |labels| ensures !ReceivesAt(s0, labels, j, id) {
        assert j < n ==> !ReceivesAt(s0, labels[..n], j, id);
      }
    }
  }

  lemma InFlightStep(s0: System, labels: seq<Label>, id: string)
    requires labels != []
    ensures var n := |labels| - 1;
            id in Run(s0, labels).inFlight <==>
            (id in Run(s0, labels[..n]).inFlight && !ReceivesAt(s0, labels, n, id)) || TracksAt(s0, labels, n, id)
  {
  }

  /** In every run an ID is in flight exactly if some step put it there and no result for it was
      received since. */
  lemma {:induction false} InFlightExactly(s0: System, labels: seq<Label>, id: string)
    requires s0.inFlight == {}
    ensures id in Run(s0, labels).inFlight <==> exists k: nat :: Outstanding(s0, labels, k, id)
    decreases labels
  {
    if labels == [] {
      assert Run(s0, labels) == s0;
    } else {
      var n := |labels| - 1;
      var before := labels[..n];
      InFlightExactly(s0, before, id);
      InFlightStep(s0, labels, id);
      if id in Run(s0, labels).inFlight {
        if TracksAt(s0, labels, n, id) {
          assert Outstanding(s0, labels, n, id);
        } else {
          var k: nat :| Outstanding(s0, before, k, id);
          OutstandingEarlier(s0, labels, k, id);
        }
      } else if k: nat :| Outstanding(s0, labels, k, id) {
        if k < n {
          OutstandingEarlier(s0, labels, k, id);
        }
      }
    }
  }

  /** In every interleaving: a group's IDs are in flight before any result of it is read, and
      from then on exactly until a result for them is received. */
  lemma InFlightAlways(groups: seq<TaskGroup>, n: nat, labels: seq<Label>)
    ensures InFlightRight(Run(Init(groups, n), labels))
    ensures forall id :: id in Run(Init(groups, n), labels).inFlight <==> exists k: nat :: Outstanding(Init(groups, n), labels, k, id)
  {
    InFlightKept(groups, n, labels);
    forall id ensures id in Run(Init(groups, n), labels).inFlight <==> exists k: nat :: Outstanding(Init(groups, n), labels, k, id) {
      InFlightExactly(Init(groups, n), labels, id);
    }
  }

  lemma {:induction false} InFlightKept(groups: seq<TaskGroup>, n: nat, labels: seq<Label>)
    ensures InFlightRight(Run(Init(groups, n), labels))
    decreases labels
  {
    if labels == [] {
    } else {
      var before, l := labels[..|labels| - 1], labels[|labels| - 1];
      InFlightKept(groups, n, before);
      var s := Run(Init(groups, n), before);
      match l {
        case Cancel => assert Step(s, l).workers == s.workers;
        case Receive => InFlightReceive(s);
        case Thread(i, a) =>
          if i < |s.workers| {
            InFlightThread(s, i, a);
          }
      }
    }
  }

  // ── Progress ──────────────────────────────────────────────────────────────────────────

  function GroupWork(g: TaskGroup): nat {
    6 + 2 * |Ids(g)|
  }

  function Left(ids: seq<string>, k: nat): nat {
    if k < |ids| then |ids| - k else 0
  }

  // How many steps a thread can still take, short of popping another group.
  function PhaseWork(phase: Phase): nat {
    match phase
    case Starting => 5
    case AtHead => 4
    case Popping => 3
    case Sending(g) => 8 + 2 * |Ids(g)|
    case Tracking(g) => 7 + 2 * |Ids(g)|
    case Reading(g, got) => 6 + 2 * Left(Ids(g), |got|)
    case Filling(g, _, _, k) => 5 + Left(Ids(g), k)
    case Crashing(g, k) => 3 + Left(Ids(g), k)
    case Finishing => 2
    case ReadingTail => 1
    case Unspawned => 0
    case Exited => 0
  }

  function QueueWork(queue: seq<TaskGroup>): nat {
    if queue == [] then 0 else GroupWork(queue[0]) + QueueWork(queue[1..])
  }

  function ThreadWork(workers: seq<Worker>): nat {
    if workers == [] then 0 else ThreadWork(workers[..|workers| - 1]) + PhaseWork(workers[|workers| - 1].phase)
  }

  // Every result sent is one more to receive.
  function Work(s: System): int {
    2 * (QueueWork(s.queue) + ThreadWork(s.workers)) + (|s.channel| - s.read) + if s.cancelled then 0 else 1
  }

  lemma AdvanceWorks(w: Worker, a: Action, cancelled: bool, queue: seq<TaskGroup>)
    ensures var w' := Advance(w, a, cancelled, queue);
            w' == w || PhaseWork(w'.phase) < PhaseWork(w.phase) + if Claims(w, a, queue) then GroupWork(queue[0]) else 0
    ensures Claims(w, a, queue) ==> Advance(w, a, cancelled, queue) != w
    ensures Emits(w, a) != [] ==> Advance(w, a, cancelled, queue) != w
    ensures a.Track? && w.phase.Tracking? ==> Advance(w, a, cancelled, queue) != w
  {
  }

  lemma {:induction false} ThreadWorks(workers: seq<Worker>, i: nat, w: Worker)
    requires i < |workers|
    ensures ThreadWork(workers[i := w]) == ThreadWork(workers) - PhaseWork(workers[i].phase) + PhaseWork(w.phase)
    decreases workers
  {
    var n := |workers| - 1;
    if i == n {
      assert workers[i := w][..n] == workers[..n];
    } else {
      assert workers[i := w][..n] == workers[..n][i := w];
      ThreadWorks(workers[..n], i, w);
    }
  }

  /** Every step that changes anything uses up work. */
  lemma StepWorks(s: System, l: Label)
    requires s.read <= |s.channel|
    ensures Step(s, l) == s || Work(Step(s, l)) < Work(s)
    ensures Step(s, l).read <= |Step(s, l).channel|
  {
    if l.Thread? && l.i < |s.workers| {
      var w := s.workers[l.i];
      AdvanceWorks(w, l.action, s.cancelled, s.queue);
      ThreadWorks(s.workers, l.i, Advance(w, l.action, s.cancelled, s.queue));
      assert s.workers[l.i := w] == s.workers;
    }
  }

  // The steps of a run that changed something.
  function Moves(s: System, labels: seq<Label>): nat
    decreases labels
  {
    if labels == [] then 0
    else
      var n := |labels| - 1;
      Moves(s, labels[..n]) + if Run(s, labels) != Run(s, labels[..n]) then 1 else 0
  }

  lemma {:induction false} MovesBounded(s: System, labels: seq<Label>)
    requires s.read <= |s.channel|
    ensures Run(s, labels).read <= |Run(s, labels).channel|
    ensures Moves(s, labels) <= Work(s) - Work(Run(s, labels))
    decreases labels
  {
    if labels == [] {
    } else {
      var n := |labels| - 1;
      MovesBounded(s, labels[..n]);
      StepWorks(Run(s, labels[..n]), labels[n]);
    }
  }

  lemma {:induction false} FreshWork(n: nat)
    ensures ThreadWork(seq(n, _ => Fresh())) == 5 * n
  {
    var workers := seq(n, _ => Fresh());
    if n == 0 {
    } else {
      assert workers[..n - 1] == seq(n - 1, _ => Fresh());
      FreshWork(n - 1);
    }
  }

  predicate Done(w: Worker) {
    w.phase == Exited || w.phase == Unspawned
  }

  // What a thread that is not done can always do next, whatever the shared state.
  function NextAction(w: Worker): Action {
    match w.phase
    case Starting => Spawn(true)
    case AtHead => LoadCancelled
    case Popping => PopGroup
    case Sending(_) => SendTask(true)
    case Tracking(_) => Track
    case Reading(_, _) => EndDrain(TimedOut)
    case Filling(_, _, _, _) => EmitMadeUp
    case Crashing(_, _) => EmitCrash
    case Finishing => if w.alive then CloseStdin else Exit
    case _ => ReadTail
  }

  lemma NeverStuck(s: System, i: nat)
    requires i < |s.workers| && !Done(s.workers[i])
    ensures Step(s, Thread(i, NextAction(s.workers[i]))) != s
  {
    var w := s.workers[i];
    assert Advance(w, NextAction(w), s.cancelled, s.queue).phase != w.phase;
    assert Step(s, Thread(i, NextAction(w))).workers[i] != w;
  }

  /** Every run ends: whatever is scheduled, at most this many steps change anything. And none
      hangs: while a thread is not done or a result is unread, some step does. */
  lemma RunsEnd(groups: seq<TaskGroup>, n: nat, labels: seq<Label>)
    ensures Moves(Init(groups, n), labels) <= 2 * QueueWork(groups) + 10 * n + 1
    ensures var s := Run(Init(groups, n), labels);
            (exists i :: 0 <= i < |s.workers| && !Done(s.workers[i])) || s.read < |s.channel| ==> exists l | l != Cancel :: Step(s, l) != s
  {
    MovesBounded(Init(groups, n), labels);
    FreshWork(n);
    var s := Run(Init(groups, n), labels);
    if i :| 0 <= i < |s.workers| && !Done(s.workers[i]) {
      NeverStuck(s, i);
    } else if s.read < |s.channel| {
      assert Step(s, Receive).read != s.read;
    }
  }
}
