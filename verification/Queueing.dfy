/**
 What packaging (`group_by_package` in `src/filter.rs`) makes of the order the schedule strategy
 put the modules in (`apply_schedule_strategy` in `src/scheduler.rs`).
 */
module Queueing {
  import opened Options
  import opened Paths
  import opened Grouping
  import opened Scheduling

  predicate Declared(g: ModuleGroup, dirs: seq<Path>) {
    OutermostDeclaringAncestor(g.modulePath, dirs).Some?
  }

  predicate TaskFailed(failed: set<string>, t: TaskGroup) {
    exists g | g in t.modules :: HasFailed(failed, g)
  }

  // No group without a failure stands before one with a failure.
  ghost predicate FailuresLead(failed: set<string>, groups: seq<ModuleGroup>) {
    forall i, j | 0 <= i < j < |groups| && HasFailed(failed, groups[j]) :: HasFailed(failed, groups[i])
  }

  ghost predicate FailuresFirst(failed: set<string>, tasks: seq<TaskGroup>) {
    forall i, j | 0 <= i < j < |tasks| && TaskFailed(failed, tasks[j]) :: TaskFailed(failed, tasks[i])
  }

  lemma SortedFailuresLead(groups: seq<ModuleGroup>, sorted: seq<ModuleGroup>, from: seq<nat>, timings: Timings, failed: set<string>)
    requires StablySorted(groups, sorted, from, FailedThenHeavier(timings, failed))
    ensures FailuresLead(failed, sorted)
  {
    forall i, j | 0 <= i < j < |sorted| && HasFailed(failed, sorted[j]) ensures HasFailed(failed, sorted[i]) {
      assert FailedThenHeavier(timings, failed)(sorted[i], sorted[j]);
    }
  }

  lemma SingleFailed(failed: set<string>, g: ModuleGroup)
    ensures TaskFailed(failed, TaskGroup([g], None)) <==> HasFailed(failed, g)
  {
    assert g in TaskGroup([g], None).modules;
  }

  // Undeclared modules keep their order.
  lemma {:induction false} SinglesFirst(failed: set<string>, groups: seq<ModuleGroup>, dirs: seq<Path>)
    requires FailuresLead(failed, groups)
    ensures FailuresFirst(failed, Singles(groups, dirs))
  {
    if groups == [] {
    } else {
      var n := |groups| - 1;
      var init, g := groups[..n], groups[n];
      SinglesFirst(failed, init, dirs);
      SingleFailed(failed, g);
      if HasFailed(failed, g) {
        forall t | t in Singles(init, dirs) ensures TaskFailed(failed, t) {
          SinglesMember(init, dirs, t);
          SingleFailed(failed, t.modules[0]);
        }
      }
    }
  }

  // Some module filed under the anchor has failed.
  ghost predicate AnchorFailed(failed: set<string>, log: seq<(Path, ModuleGroup)>, a: Path) {
    exists g :: (a, g) in log && HasFailed(failed, g)
  }

  ghost predicate LogLeads(failed: set<string>, log: seq<(Path, ModuleGroup)>) {
    forall i, j | 0 <= i < j < |log| && HasFailed(failed, log[j].1) :: HasFailed(failed, log[i].1)
  }

  // A package fails with its first module, so packages keep the order too.
  lemma {:induction false} AnchorsFirst(failed: set<string>, log: seq<(Path, ModuleGroup)>, p: nat, q: nat)
    requires LogLeads(failed, log) && p < q < |FirstSeen(log)| && AnchorFailed(failed, log, FirstSeen(log)[q])
    ensures AnchorFailed(failed, log, FirstSeen(log)[p])
    decreases log
  {
    var n, keys := |log| - 1, FirstSeen(log);
    var init := log[..n];
    var a := keys[p];
    NotSeen(log, a);
    var i :| 0 <= i < |log| && log[i].0 == a;
    if HasFailed(failed, log[n].1) {
      assert log[i] == (a, log[i].1) && HasFailed(failed, log[i].1);
    } else {
      var g :| (keys[q], g) in log && HasFailed(failed, g);
      assert (keys[q], g) in init;
      NotSeen(init, keys[q]);
      assert q < |FirstSeen(init)| by {
        FirstSeenDistinct(log);
      }
      AnchorsFirst(failed, init, p, q);
      var f :| (a, f) in init && HasFailed(failed, f);
      assert (a, f) in log;
    }
  }

  lemma PackageFailed(failed: set<string>, log: seq<(Path, ModuleGroup)>, i: nat)
    requires i < |FirstSeen(log)|
    ensures |Packages(log)| == |FirstSeen(log)|
    ensures TaskFailed(failed, Packages(log)[i]) <==> AnchorFailed(failed, log, FirstSeen(log)[i])
  {
    var a, t := FirstSeen(log)[i], Packages(log)[i];
    forall g ensures g in t.modules <==> (a, g) in log {
      ValuesAtMember(log, a, g);
    }
  }

  lemma PackagesFirst(failed: set<string>, log: seq<(Path, ModuleGroup)>)
    requires LogLeads(failed, log)
    ensures FailuresFirst(failed, Packages(log))
  {
    var tasks := Packages(log);
    forall i, j | 0 <= i < j < |tasks| && TaskFailed(failed, tasks[j]) ensures TaskFailed(failed, tasks[i]) {
      PackageFailed(failed, log, i);
      PackageFailed(failed, log, j);
      AnchorsFirst(failed, log, i, j);
    }
  }

  lemma {:induction false} AnchoredLeads(failed: set<string>, groups: seq<ModuleGroup>, dirs: seq<Path>)
    requires FailuresLead(failed, groups)
    ensures LogLeads(failed, Anchored(groups, dirs))
  {
    if groups == [] {
    } else {
      var n := |groups| - 1;
      AnchoredLeads(failed, groups[..n], dirs);
      if HasFailed(failed, groups[n]) {
        forall e | e in Anchored(groups[..n], dirs) ensures HasFailed(failed, e.1) {
          AnchoredMember(groups[..n], dirs, e.0, e.1);
        }
      }
    }
  }

  // Some undeclared module without a failure, and some declared one with.
  ghost predicate Overtaken(failed: set<string>, groups: seq<ModuleGroup>, dirs: seq<Path>) {
    && (exists g | g in groups :: !Declared(g, dirs) && !HasFailed(failed, g))
    && (exists g | g in groups :: Declared(g, dirs) && HasFailed(failed, g))
  }

  lemma UnfailedSingle(failed: set<string>, groups: seq<ModuleGroup>, dirs: seq<Path>)
    ensures (exists t | t in Singles(groups, dirs) :: !TaskFailed(failed, t)) <==>
            exists g | g in groups :: !Declared(g, dirs) && !HasFailed(failed, g)
  {
    if t :| t in Singles(groups, dirs) && !TaskFailed(failed, t) {
      SinglesMember(groups, dirs, t);
      SingleFailed(failed, t.modules[0]);
    }
    if g :| g in groups && !Declared(g, dirs) && !HasFailed(failed, g) {
      SinglesMember(groups, dirs, TaskGroup([g], None));
      SingleFailed(failed, g);
    }
  }

  lemma FailedPackage(failed: set<string>, groups: seq<ModuleGroup>, dirs: seq<Path>)
    ensures (exists t | t in Packages(Anchored(groups, dirs)) :: TaskFailed(failed, t)) <==>
            exists g | g in groups :: Declared(g, dirs) && HasFailed(failed, g)
  {
    var log := Anchored(groups, dirs);
    var tasks := Packages(log);
    if t :| t in tasks && TaskFailed(failed, t) {
      var i :| 0 <= i < |tasks| && tasks[i] == t;
      PackageFailed(failed, log, i);
      var g :| (FirstSeen(log)[i], g) in log && HasFailed(failed, g);
      AnchoredMember(groups, dirs, FirstSeen(log)[i], g);
    }
    if g :| g in groups && Declared(g, dirs) && HasFailed(failed, g) {
      var a := OutermostDeclaringAncestor(g.modulePath, dirs).value;
      AnchoredMember(groups, dirs, a, g);
      NotSeen(log, a);
      var i :| 0 <= i < |FirstSeen(log)| && FirstSeen(log)[i] == a;
      PackageFailed(failed, log, i);
      assert tasks[i] in tasks;
    }
  }

  lemma FirstOfTwo(failed: set<string>, a: seq<TaskGroup>, b: seq<TaskGroup>)
    requires FailuresFirst(failed, a) && FailuresFirst(failed, b)
    ensures FailuresFirst(failed, a + b) <==> (forall t | t in a :: TaskFailed(failed, t)) || (forall t | t in b :: !TaskFailed(failed, t))
  {
    if t, u :| t in a && !TaskFailed(failed, t) && u in b && TaskFailed(failed, u) {
      var i :| 0 <= i < |a| && a[i] == t;
      var j :| 0 <= j < |b| && b[j] == u;
      assert (a + b)[i] == t && (a + b)[|a| + j] == u;
    }
  }

  /** Packaging puts every undeclared module before every package, so failures come first on the
      queue exactly if they did not have to be overtaken: unless some undeclared module has no
      failure and some declared one has. */
  lemma FailedFirstSurvives(failed: set<string>, groups: seq<ModuleGroup>, dirs: seq<Path>)
    requires FailuresLead(failed, groups)
    ensures FailuresFirst(failed, TaskGroups(groups, dirs)) <==> !Overtaken(failed, groups, dirs)
  {
    SinglesFirst(failed, groups, dirs);
    AnchoredLeads(failed, groups, dirs);
    PackagesFirst(failed, Anchored(groups, dirs));
    FirstOfTwo(failed, Singles(groups, dirs), Packages(Anchored(groups, dirs)));
    UnfailedSingle(failed, groups, dirs);
    FailedPackage(failed, groups, dirs);
  }

  lemma OvertakenPermutes(failed: set<string>, a: seq<ModuleGroup>, b: seq<ModuleGroup>, dirs: seq<Path>)
    requires multiset(a) == multiset(b)
    ensures Overtaken(failed, a, dirs) <==> Overtaken(failed, b, dirs)
  {
    assert forall g :: g in a <==> g in multiset(a);
    assert forall g :: g in b <==> g in multiset(b);
  }

  /** Such a queue: a failed module under a declaring directory and one without a failure outside
      come out in the wrong order, although they were sorted into the right one. */
  lemma FailedFirstOvertaken(failed: set<string>, a: ModuleGroup, b: ModuleGroup, dir: Path)
    requires HasFailed(failed, a) && !HasFailed(failed, b) && dir <= a.modulePath && !(dir <= b.modulePath)
    ensures FailuresLead(failed, [a, b]) && TaskGroups([a, b], [dir]) == [TaskGroup([b], None), TaskGroup([a], Some(dir))]
    ensures !FailuresFirst(failed, TaskGroups([a, b], [dir]))
  {
    QueueOfTwo(a, b, dir);
    OneDir(a, dir);
    OneDir(b, dir);
    assert a in [a, b] && b in [a, b];
    FailedFirstSurvives(failed, [a, b], [dir]);
  }

  lemma QueueOfTwo(a: ModuleGroup, b: ModuleGroup, dir: Path)
    requires dir <= a.modulePath && !(dir <= b.modulePath)
    ensures TaskGroups([a, b], [dir]) == [TaskGroup([b], None), TaskGroup([a], Some(dir))]
  {
    var groups := [a, b];
    OneDir(a, dir);
    OneDir(b, dir);
    assert groups[..1] == [a] && [a][..0] == [];
    assert Singles([a], [dir]) == [] && Anchored([a], [dir]) == [(dir, a)];
    assert Singles(groups, [dir]) == [TaskGroup([b], None)] && Anchored(groups, [dir]) == [(dir, a)];
    OnePackage(dir, a);
  }

  lemma OnePackage(dir: Path, g: ModuleGroup)
    ensures Packages([(dir, g)]) == [TaskGroup([g], Some(dir))]
  {
    var log := [(dir, g)];
    assert log[..0] == [];
    assert FirstSeen(log) == [dir] && ValuesAt(log, dir) == [g];
  }

  lemma OneDir(g: ModuleGroup, dir: Path)
    ensures OutermostDeclaringAncestor(g.modulePath, [dir]) == if dir <= g.modulePath then Some(dir) else None
  {
    assert [dir][..0] == [];
  }
}
