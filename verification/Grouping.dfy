/**
 From collected items to the units workers run: `group_by_module`, `group_by_package` and
 `outermost_declaring_ancestor` (`src/filter.rs`), with the group types of `src/scheduler.rs`.
 */
module Grouping {
  import opened Options
  import opened Paths

  datatype TestItem = TestItem(nodeId: string, modulePath: Path)

  datatype ModuleGroup = ModuleGroup(modulePath: Path, items: seq<TestItem>)

  // `anchor` is the declaring directory whose subtree the group covers.
  datatype TaskGroup = TaskGroup(modules: seq<ModuleGroup>, anchor: Option<Path>)

  // ── An insertion-ordered map of lists ─────────────────────────────────────────────────

  function FirstSeen<K(==), V>(log: seq<(K, V)>): seq<K> {
    if log == [] then []
    else
      var keys, k := FirstSeen(log[..|log| - 1]), log[|log| - 1].0;
      if k in keys then keys else keys + [k]
  }

  function ValuesAt<K(==), V>(log: seq<(K, V)>, k: K): seq<V> {
    if log == [] then []
    else ValuesAt(log[..|log| - 1], k) + if log[|log| - 1].0 == k then [log[|log| - 1].1] else []
  }

  ghost predicate Distinct<T(!new)>(xs: seq<T>) {
    forall i, j | 0 <= i < j < |xs| :: xs[i] != xs[j]
  }

  class IndexMap<K(==, !new), V> {
    var order: seq<K>
    var lists: map<K, seq<V>>
    ghost var log: seq<(K, V)>   // every push so far

    ghost predicate Valid()
      reads this
    {
      && order == FirstSeen(log)
      && (forall k :: k in lists <==> k in order)
      && forall k | k in lists :: lists[k] == ValuesAt(log, k)
    }

    constructor ()
      ensures Valid() && log == []
    {
      order, lists, log := [], map[], [];
    }

    /** `entry(k).or_default().push(v)` */
    method Push(k: K, v: V)
      requires Valid()
      modifies this
      ensures Valid() && log == old(log) + [(k, v)]
    {
      NotSeen(log, k);
      if k !in lists {
        order, lists := order + [k], lists[k := []];
      }
      lists := lists[k := lists[k] + [v]];
      ghost var before := log;
      log := log + [(k, v)];
      assert log[..|log| - 1] == before;
    }
  }

  lemma {:induction false} NotSeen<K, V>(log: seq<(K, V)>, k: K)
    ensures k in FirstSeen(log) <==> exists i :: 0 <= i < |log| && log[i].0 == k
    ensures k !in FirstSeen(log) ==> ValuesAt(log, k) == []
  {
    if log == [] {
    } else {
      var n := |log| - 1;
      NotSeen(log[..n], k);
      if log[n].0 == k {
        assert exists i :: 0 <= i < |log| && log[i].0 == k;
      } else if exists i :: 0 <= i < |log[..n]| && log[..n][i].0 == k {
        var i :| 0 <= i < |log[..n]| && log[..n][i].0 == k;
        assert log[i].0 == k;
      }
    }
  }

  lemma {:induction false} FirstSeenDistinct<K(!new), V>(log: seq<(K, V)>)
    ensures Distinct(FirstSeen(log))
  {
    if log == [] {
    } else {
      FirstSeenDistinct(log[..|log| - 1]);
    }
  }

  // ── Counting ──────────────────────────────────────────────────────────────────────────

  ghost function Count<V>(xs: seq<V>, x: V): nat {
    if xs == [] then 0 else Count(xs[..|xs| - 1], x) + if xs[|xs| - 1] == x then 1 else 0
  }

  lemma {:induction false} CountIs<V>(xs: seq<V>, x: V)
    ensures Count(xs, x) == multiset(xs)[x]
  {
    if xs == [] {
    } else {
      CountIs(xs[..|xs| - 1], x);
      assert xs == xs[..|xs| - 1] + [xs[|xs| - 1]];
    }
  }

  lemma {:induction false} CountConcat<V>(a: seq<V>, b: seq<V>, x: V)
    ensures Count(a + b, x) == Count(a, x) + Count(b, x)
    decreases b
  {
    if b == [] {
      assert a + b == a;
    } else {
      assert (a + b)[..|a + b| - 1] == a + b[..|b| - 1];
      CountConcat(a, b[..|b| - 1], x);
    }
  }

  lemma Permutation<V(!new)>(a: seq<V>, b: seq<V>)
    requires forall x :: Count(a, x) == Count(b, x)
    ensures multiset(a) == multiset(b)
  {
    forall x ensures multiset(a)[x] == multiset(b)[x] {
      CountIs(a, x);
      CountIs(b, x);
    }
  }

  // How often the lists of some keys hold `x` together.
  ghost function Held<K, V>(log: seq<(K, V)>, keys: seq<K>, x: V): nat {
    if keys == [] then 0
    else Held(log, keys[..|keys| - 1], x) + Count(ValuesAt(log, keys[|keys| - 1]), x)
  }

  // `log'` is `log` with one push of `v` at `k`.
  ghost predicate Pushed<K(!new), V>(log: seq<(K, V)>, log': seq<(K, V)>, k: K, v: V) {
    forall key :: ValuesAt(log', key) == ValuesAt(log, key) + if k == key then [v] else []
  }

  lemma {:induction false} HeldPush<K(!new), V>(log: seq<(K, V)>, log': seq<(K, V)>, keys: seq<K>, k: K, v: V, x: V)
    requires Distinct(keys) && Pushed(log, log', k, v)
    ensures Held(log', keys, x) == Held(log, keys, x) + if k in keys && v == x then 1 else 0
    decreases keys
  {
    if keys == [] {
    } else {
      var n := |keys| - 1;
      HeldPush(log, log', keys[..n], k, v, x);
      var before := ValuesAt(log, keys[n]);
      assert ValuesAt(log', keys[n]) == before + if k == keys[n] then [v] else [];
      if k == keys[n] {
        CountConcat(before, [v], x);
        assert Count([v], x) == if v == x then 1 else 0;
        assert k !in keys[..n];
      } else {
        assert before + [] == before;
        assert k in keys <==> k in keys[..n];
      }
    }
  }

  /** Nothing pushed is lost or duplicated: the lists together hold exactly the pushed values. */
  lemma {:induction false} HeldConserves<K(!new), V>(log: seq<(K, V)>, x: V)
    ensures Held(log, FirstSeen(log), x) == Count(Seconds(log), x)
    decreases log
  {
    if log == [] {
      assert Seconds(log) == [];
    } else {
      var n := |log| - 1;
      var init, k, v := log[..n], log[n].0, log[n].1;
      assert Seconds(log)[..n] == Seconds(init);
      HeldConserves(init, x);
      FirstSeenDistinct(init);
      var keys := FirstSeen(init);
      HeldPush(init, log, keys, k, v, x);
      if k !in keys {
        NotSeen(init, k);
        assert ValuesAt(log, k) == [v];
        assert Count([v], x) == if v == x then 1 else 0;
        assert (keys + [k])[..|keys|] == keys;
      }
    }
  }

  function Seconds<K, V>(log: seq<(K, V)>): seq<V> {
    seq(|log|, i requires 0 <= i < |log| => log[i].1)
  }

  // ── By module ─────────────────────────────────────────────────────────────────────────

  function ModuleLog(items: seq<TestItem>): (r: seq<(Path, TestItem)>) {
    seq(|items|, i requires 0 <= i < |items| => (items[i].modulePath, items[i]))
  }

  /** The module groups of an item list: one per path in first-seen order, items in order. */
  function ModuleGroups(items: seq<TestItem>): seq<ModuleGroup> {
    var log := ModuleLog(items);
    var keys := FirstSeen(log);
    seq(|keys|, i requires 0 <= i < |keys| => ModuleGroup(keys[i], ValuesAt(log, keys[i])))
  }

  method GroupByModule(items: seq<TestItem>) returns (groups: seq<ModuleGroup>)
    ensures groups == ModuleGroups(items)
  {
    var index := new IndexMap<Path, TestItem>();
    for i := 0 to |items|
      invariant index.Valid() && fresh(index) && index.log == ModuleLog(items[..i])
    {
      index.Push(items[i].modulePath, items[i]);
      assert ModuleLog(items[..i + 1]) == ModuleLog(items[..i]) + [(items[i].modulePath, items[i])];
    }
    assert items[..|items|] == items;
    var order, lists := index.order, index.lists;
    groups := [];
    for i := 0 to |order|
      invariant |groups| == i
      invariant forall j | 0 <= j < i :: groups[j] == ModuleGroup(order[j], ValuesAt(ModuleLog(items), order[j]))
    {
      groups := groups + [ModuleGroup(order[i], lists[order[i]])];
    }
  }

  // ── Orders, by position ───────────────────────────────────────────────────────────────

  /** The list holds the values filed under `k`, `at` saying where each stands: all of them, and in
      the order they were filed. */
  ghost predicate FiledAt<K(!new), V>(log: seq<(K, V)>, k: K, values: seq<V>, at: seq<nat>) {
    && |at| == |values|
    && (forall i | 0 <= i < |at| :: at[i] < |log| && log[at[i]] == (k, values[i]))
    && (forall i, j | 0 <= i < j < |at| :: at[i] < at[j])
    && forall p | 0 <= p < |log| && log[p].0 == k :: p in at
  }

  lemma {:induction false} ValuesFiled<K(!new), V>(log: seq<(K, V)>, k: K) returns (at: seq<nat>)
    ensures FiledAt(log, k, ValuesAt(log, k), at)
  {
    if log == [] {
      at := [];
    } else {
      var n := |log| - 1;
      at := ValuesFiled(log[..n], k);
      if log[n].0 == k {
        at := at + [n];
      } else {
        assert ValuesAt(log[..n], k) + [] == ValuesAt(log[..n], k);
      }
    }
  }

  // `k` is filed under before `l` ever is.
  ghost predicate SeenBefore<K(!new), V>(log: seq<(K, V)>, k: K, l: K) {
    exists p | 0 <= p < |log| :: log[p].0 == k && forall q | 0 <= q <= p :: log[q].0 != l
  }

  lemma {:induction false} SeenInOrder<K(!new), V>(log: seq<(K, V)>, i: nat, j: nat)
    requires i < j < |FirstSeen(log)|
    ensures SeenBefore(log, FirstSeen(log)[i], FirstSeen(log)[j])
    decreases log
  {
    var n, keys := |log| - 1, FirstSeen(log);
    var init := log[..n];
    if j < |FirstSeen(init)| {
      SeenInOrder(init, i, j);
      var p :| 0 <= p < |init| && init[p].0 == keys[i] && forall q | 0 <= q <= p :: init[q].0 != keys[j];
      assert log[p].0 == keys[i] && forall q | 0 <= q <= p :: log[q].0 != keys[j];
    } else {
      NotSeen(init, keys[i]);
      NotSeen(init, keys[j]);
      var p :| 0 <= p < |init| && init[p].0 == keys[i];
      assert log[p].0 == keys[i] && forall q | 0 <= q <= p :: log[q].0 != keys[j];
    }
  }

  /** Groups come in the order in which their modules first occur among the items. */
  lemma ModulesInOrder(items: seq<TestItem>, i: nat, j: nat)
    requires i < j < |ModuleGroups(items)|
    ensures exists p | 0 <= p < |items| ::
      && items[p].modulePath == ModuleGroups(items)[i].modulePath
      && forall q | 0 <= q <= p :: items[q].modulePath != ModuleGroups(items)[j].modulePath
  {
    var log := ModuleLog(items);
    SeenInOrder(log, i, j);
    var k, l := FirstSeen(log)[i], FirstSeen(log)[j];
    var p :| 0 <= p < |log| && log[p].0 == k && forall q | 0 <= q <= p :: log[q].0 != l;
    assert items[p].modulePath == k;
    forall q | 0 <= q <= p ensures items[q].modulePath != l {
      assert log[q].0 != l;
    }
  }

  /** A group holds exactly the items of its module, `at` saying where they stand, in order. */
  lemma ItemsInOrder(items: seq<TestItem>, g: ModuleGroup) returns (at: seq<nat>)
    requires g in ModuleGroups(items)
    ensures |at| == |g.items| && (forall i | 0 <= i < |at| :: at[i] < |items| && items[at[i]] == g.items[i])
    ensures forall i, j | 0 <= i < j < |at| :: at[i] < at[j]
    ensures forall p | 0 <= p < |items| :: items[p].modulePath == g.modulePath <==> p in at
  {
    var log := ModuleLog(items);
    at := ValuesFiled(log, g.modulePath);
    assert g.items == ValuesAt(log, g.modulePath);
    forall i | 0 <= i < |at| ensures items[at[i]] == g.items[i] && items[at[i]].modulePath == g.modulePath {
      assert log[at[i]] == (g.modulePath, g.items[i]);
    }
    forall p | 0 <= p < |items| && items[p].modulePath == g.modulePath ensures p in at {
      assert log[p].0 == g.modulePath;
    }
  }

  // Every item of a list of groups, in order.
  function ItemsOf(groups: seq<ModuleGroup>): seq<TestItem> {
    if groups == [] then [] else ItemsOf(groups[..|groups| - 1]) + groups[|groups| - 1].items
  }

  lemma {:induction false} ItemsOfHeld(log: seq<(Path, TestItem)>, keys: seq<Path>, groups: seq<ModuleGroup>, x: TestItem)
    requires |groups| == |keys| && forall i | 0 <= i < |keys| :: groups[i].items == ValuesAt(log, keys[i])
    ensures Count(ItemsOf(groups), x) == Held(log, keys, x)
    decreases keys
  {
    if keys == [] {
    } else {
      var n := |keys| - 1;
      ItemsOfHeld(log, keys[..n], groups[..n], x);
      CountConcat(ItemsOf(groups[..n]), groups[n].items, x);
    }
  }

  lemma {:induction false} ValuesAtKey(log: seq<(Path, TestItem)>, k: Path)
    requires forall i | 0 <= i < |log| :: log[i].0 == log[i].1.modulePath
    ensures forall x | x in ValuesAt(log, k) :: x.modulePath == k
  {
    if log == [] {
    } else {
      ValuesAtKey(log[..|log| - 1], k);
    }
  }

  /** Grouping by module keeps every item, gives each module one group, and puts in a group
      only that module's items. */
  lemma ModuleGroupsConserve(items: seq<TestItem>)
    ensures multiset(ItemsOf(ModuleGroups(items))) == multiset(items)
    ensures forall i, j | 0 <= i < j < |ModuleGroups(items)| :: ModuleGroups(items)[i].modulePath != ModuleGroups(items)[j].modulePath
    ensures forall i | 0 <= i < |ModuleGroups(items)| ::
      forall x | x in ModuleGroups(items)[i].items :: x.modulePath == ModuleGroups(items)[i].modulePath
  {
    var log := ModuleLog(items);
    assert Seconds(log) == items;
    forall x ensures Count(ItemsOf(ModuleGroups(items)), x) == Count(items, x) {
      HeldConserves(log, x);
      ItemsOfHeld(log, FirstSeen(log), ModuleGroups(items), x);
    }
    Permutation(ItemsOf(ModuleGroups(items)), items);
    FirstSeenDistinct(log);
    forall i | 0 <= i < |ModuleGroups(items)|
      ensures forall x | x in ModuleGroups(items)[i].items :: x.modulePath == ModuleGroups(items)[i].modulePath
    {
      ValuesAtKey(log, FirstSeen(log)[i]);
    }
  }

  // ── By package ────────────────────────────────────────────────────────────────────────

  function Shallower(a: Option<Path>, b: Path): Option<Path> {
    if a.Some? && |a.value| <= |b| then a else Some(b)
  }

  /** The shallowest declaring directory above a module; the first of several spellings. */
  function OutermostDeclaringAncestor(m: Path, dirs: seq<Path>): (r: Option<Path>)
    ensures r.Some? ==> r.value in dirs && r.value <= m
    ensures forall d | d in dirs && d <= m :: r.Some? && |r.value| <= |d|
  {
    if dirs == [] then None
    else
      var n := |dirs| - 1;
      var rest := OutermostDeclaringAncestor(m, dirs[..n]);
      assert forall d | d in dirs :: d in dirs[..n] || d == dirs[n];
      if dirs[n] <= m then Shallower(rest, dirs[n]) else rest
  }

  /** Nested declarations never split a package: two modules under one declaring directory
      have the same outermost one, and it lies above that directory. */
  lemma SameAnchor(m1: Path, m2: Path, dirs: seq<Path>, dir: Path)
    requires dir in dirs && dir <= m1 && dir <= m2
    ensures OutermostDeclaringAncestor(m1, dirs).Some?
    ensures OutermostDeclaringAncestor(m1, dirs) == OutermostDeclaringAncestor(m2, dirs)
    ensures OutermostDeclaringAncestor(m1, dirs).value <= dir
  {
    var a, b := OutermostDeclaringAncestor(m1, dirs).value, OutermostDeclaringAncestor(m2, dirs).value;
    assert a == m1[..|a|] && b == m2[..|b|] && dir == m1[..|dir|] && dir == m2[..|dir|];
    assert a == dir[..|a|] && b == dir[..|b|];
    assert a <= m2 && b <= m1;
  }

  function Anchored(groups: seq<ModuleGroup>, dirs: seq<Path>): seq<(Path, ModuleGroup)> {
    if groups == [] then []
    else
      var g := groups[|groups| - 1];
      var anchor := OutermostDeclaringAncestor(g.modulePath, dirs);
      Anchored(groups[..|groups| - 1], dirs) + if anchor.Some? then [(anchor.value, g)] else []
  }

  function Singles(groups: seq<ModuleGroup>, dirs: seq<Path>): seq<TaskGroup> {
    if groups == [] then []
    else
      var g := groups[|groups| - 1];
      Singles(groups[..|groups| - 1], dirs)
      + if OutermostDeclaringAncestor(g.modulePath, dirs).None? then [TaskGroup([g], None)] else []
  }

  function Packages(log: seq<(Path, ModuleGroup)>): seq<TaskGroup> {
    var keys := FirstSeen(log);
    seq(|keys|, i requires 0 <= i < |keys| => TaskGroup(ValuesAt(log, keys[i]), Some(keys[i])))
  }

  function TaskGroups(groups: seq<ModuleGroup>, dirs: seq<Path>): seq<TaskGroup> {
    Singles(groups, dirs) + Packages(Anchored(groups, dirs))
  }

  lemma {:induction false} NoDirs(groups: seq<ModuleGroup>)
    ensures Anchored(groups, []) == [] && |Singles(groups, [])| == |groups|
    ensures forall i | 0 <= i < |groups| :: Singles(groups, [])[i] == TaskGroup([groups[i]], None)
  {
    if groups == [] {
    } else {
      NoDirs(groups[..|groups| - 1]);
    }
  }

  method GroupByPackage(groups: seq<ModuleGroup>, dirs: seq<Path>) returns (out: seq<TaskGroup>)
    ensures out == TaskGroups(groups, dirs)
  {
    if dirs == [] {
      NoDirs(groups);
      out := seq(|groups|, i requires 0 <= i < |groups| => TaskGroup([groups[i]], None));
      assert out == Singles(groups, []) && Packages([]) == [];
      return;
    }
    var merged := new IndexMap<Path, ModuleGroup>();
    out := SplitByAnchor(groups, dirs, merged);
    var packages := PackagesOf(merged);
    out := out + packages;
  }

  // The loop over the groups: declared ones into the map, the others out on their own.
  method SplitByAnchor(groups: seq<ModuleGroup>, dirs: seq<Path>, merged: IndexMap<Path, ModuleGroup>) returns (out: seq<TaskGroup>)
    requires merged.Valid() && merged.log == []
    modifies merged
    ensures merged.Valid() && merged.log == Anchored(groups, dirs) && out == Singles(groups, dirs)
  {
    out := [];
    for i := 0 to |groups|
      invariant merged.Valid() && merged.log == Anchored(groups[..i], dirs)
      invariant out == Singles(groups[..i], dirs)
    {
      OneMoreGroup(groups, dirs, i);
      var anchor := OutermostDeclaringAncestor(groups[i].modulePath, dirs);
      if anchor.Some? {
        merged.Push(anchor.value, groups[i]);
      } else {
        out := out + [TaskGroup([groups[i]], None)];
      }
    }
    assert groups[..|groups|] == groups;
  }

  lemma OneMoreGroup(groups: seq<ModuleGroup>, dirs: seq<Path>, i: nat)
    requires i < |groups|
    ensures
      var anchor := OutermostDeclaringAncestor(groups[i].modulePath, dirs);
      && Anchored(groups[..i + 1], dirs)
         == (if anchor.Some? then Anchored(groups[..i], dirs) + [(anchor.value, groups[i])] else Anchored(groups[..i], dirs))
      && Singles(groups[..i + 1], dirs)
         == (if anchor.Some? then Singles(groups[..i], dirs) else Singles(groups[..i], dirs) + [TaskGroup([groups[i]], None)])
  {
    assert groups[..i + 1][..i] == groups[..i];
  }

  method PackagesOf(merged: IndexMap<Path, ModuleGroup>) returns (packages: seq<TaskGroup>)
    requires merged.Valid()
    ensures packages == Packages(merged.log)
  {
    var order := merged.order;
    packages := [];
    for i := 0 to |order|
      invariant |packages| == i
      invariant forall j | 0 <= j < i :: packages[j] == TaskGroup(ValuesAt(merged.log, order[j]), Some(order[j]))
    {
      packages := packages + [TaskGroup(merged.lists[order[i]], Some(order[i]))];
    }
  }

  // ── Co-location ───────────────────────────────────────────────────────────────────────

  lemma {:induction false} ValuesAtMember<K(!new), V(!new)>(log: seq<(K, V)>, k: K, v: V)
    ensures v in ValuesAt(log, k) <==> (k, v) in log
  {
    if log == [] {
    } else {
      ValuesAtMember(log[..|log| - 1], k, v);
      assert log == log[..|log| - 1] + [log[|log| - 1]];
    }
  }

  lemma {:induction false} AnchoredMember(groups: seq<ModuleGroup>, dirs: seq<Path>, a: Path, g: ModuleGroup)
    ensures (a, g) in Anchored(groups, dirs) <==> g in groups && OutermostDeclaringAncestor(g.modulePath, dirs) == Some(a)
  {
    if groups == [] {
    } else {
      AnchoredMember(groups[..|groups| - 1], dirs, a, g);
      assert groups == groups[..|groups| - 1] + [groups[|groups| - 1]];
    }
  }

  lemma {:induction false} SinglesMember(groups: seq<ModuleGroup>, dirs: seq<Path>, t: TaskGroup)
    ensures t in Singles(groups, dirs) <==>
      |t.modules| == 1 && t.anchor.None? && t.modules[0] in groups
      && OutermostDeclaringAncestor(t.modules[0].modulePath, dirs).None?
  {
    if groups == [] {
    } else {
      SinglesMember(groups[..|groups| - 1], dirs, t);
      assert groups == groups[..|groups| - 1] + [groups[|groups| - 1]];
      if |t.modules| == 1 {
        assert t.modules == [t.modules[0]];
      }
    }
  }

  lemma PackagesMember(groups: seq<ModuleGroup>, dirs: seq<Path>, t: TaskGroup)
    requires t in Packages(Anchored(groups, dirs))
    ensures t.anchor.Some?
    ensures forall g :: g in t.modules <==> g in groups && OutermostDeclaringAncestor(g.modulePath, dirs) == t.anchor
  {
    var log := Anchored(groups, dirs);
    forall g ensures g in t.modules <==> g in groups && OutermostDeclaringAncestor(g.modulePath, dirs) == t.anchor {
      ValuesAtMember(log, t.anchor.value, g);
      AnchoredMember(groups, dirs, t.anchor.value, g);
    }
  }

  /** Every task group is either one undeclared module on its own, or all the modules whose
      outermost declaring directory is its anchor. */
  lemma TaskGroupShape(groups: seq<ModuleGroup>, dirs: seq<Path>, t: TaskGroup)
    requires t in TaskGroups(groups, dirs)
    ensures t.anchor.None? ==>
      |t.modules| == 1 && t.modules[0] in groups && forall d | d in dirs :: !(d <= t.modules[0].modulePath)
    ensures t.anchor.Some? ==> t.anchor.value in dirs
    ensures t.anchor.Some? ==>
      forall g :: g in t.modules <==> g in groups && OutermostDeclaringAncestor(g.modulePath, dirs) == t.anchor
  {
    SinglesMember(groups, dirs, t);
    if t in Packages(Anchored(groups, dirs)) {
      PackagesMember(groups, dirs, t);
      var log := Anchored(groups, dirs);
      var k := t.anchor.value;
      NotSeen(log, k);
      var i :| 0 <= i < |log| && log[i].0 == k;
      assert (k, log[i].1) in log;
      AnchoredMember(groups, dirs, k, log[i].1);
    }
  }

  /** Co-location: all modules under one declaring directory are in one task group, anchored
      at their common shallowest declaring directory. */
  lemma PackageIsColocated(groups: seq<ModuleGroup>, dirs: seq<Path>, dir: Path, g1: ModuleGroup, g2: ModuleGroup, t: TaskGroup)
    requires dir in dirs && g1 in groups && g2 in groups && dir <= g1.modulePath && dir <= g2.modulePath
    requires t in TaskGroups(groups, dirs) && g1 in t.modules
    ensures g2 in t.modules
    ensures t.anchor.Some? && t.anchor.value <= dir
  {
    if |t.modules| == 1 {
      assert t.modules[0] == g1;
    }
    TaskGroupShape(groups, dirs, t);
    SameAnchor(g1.modulePath, g2.modulePath, dirs, dir);
  }

  // ── Conservation ──────────────────────────────────────────────────────────────────────

  // Every module group of a list of task groups, in order.
  // The groups that meet a condition, `at` saying where they stand: all of them, in order.
  ghost predicate Picked(groups: seq<ModuleGroup>, out: seq<ModuleGroup>, at: seq<nat>, keep: ModuleGroup -> bool) {
    && |at| == |out|
    && (forall i | 0 <= i < |at| :: at[i] < |groups| && out[i] == groups[at[i]])
    && (forall i, j | 0 <= i < j < |at| :: at[i] < at[j])
    && forall p | 0 <= p < |groups| :: keep(groups[p]) <==> p in at
  }

  function AnchorOf(g: ModuleGroup, dirs: seq<Path>): Option<Path> {
    OutermostDeclaringAncestor(g.modulePath, dirs)
  }

  // The one module of each group.
  function Alone(tasks: seq<TaskGroup>): seq<ModuleGroup>
    requires forall t | t in tasks :: t.modules != []
  {
    seq(|tasks|, i requires 0 <= i < |tasks| => tasks[i].modules[0])
  }

  lemma PickedStep(groups: seq<ModuleGroup>, out: seq<ModuleGroup>, at: seq<nat>, keep: ModuleGroup -> bool)
    requires groups != [] && Picked(groups[..|groups| - 1], out, at, keep)
    ensures var n := |groups| - 1;
            if keep(groups[n]) then Picked(groups, out + [groups[n]], at + [n], keep) else Picked(groups, out, at, keep)
  {
    var n := |groups| - 1;
    assert forall p | 0 <= p < n :: groups[..n][p] == groups[p];
    assert forall i | 0 <= i < |at| :: at[i] < n;
    assert n !in at;
  }

  lemma {:induction false} SinglesInOrder(groups: seq<ModuleGroup>, dirs: seq<Path>) returns (at: seq<nat>)
    ensures forall t | t in Singles(groups, dirs) :: t.anchor.None? && |t.modules| == 1
    ensures Picked(groups, Alone(Singles(groups, dirs)), at, g => AnchorOf(g, dirs).None?)
  {
    if groups == [] {
      at := [];
    } else {
      var n := |groups| - 1;
      var init := Singles(groups[..n], dirs);
      var before := SinglesInOrder(groups[..n], dirs);
      PickedStep(groups, Alone(init), before, g => AnchorOf(g, dirs).None?);
      if AnchorOf(groups[n], dirs).None? {
        at := before + [n];
        assert Alone(Singles(groups, dirs)) == Alone(init) + [groups[n]];
      } else {
        at := before;
        assert Singles(groups, dirs) == init;
      }
    }
  }

  lemma {:induction false} AnchoredInOrder(groups: seq<ModuleGroup>, dirs: seq<Path>) returns (at: seq<nat>)
    ensures Picked(groups, Seconds(Anchored(groups, dirs)), at, g => AnchorOf(g, dirs).Some?)
  {
    if groups == [] {
      at := [];
      assert Seconds(Anchored(groups, dirs)) == [];
    } else {
      var n := |groups| - 1;
      var init := Anchored(groups[..n], dirs);
      var before := AnchoredInOrder(groups[..n], dirs);
      PickedStep(groups, Seconds(init), before, g => AnchorOf(g, dirs).Some?);
      if AnchorOf(groups[n], dirs).Some? {
        at := before + [n];
        assert Seconds(Anchored(groups, dirs)) == Seconds(init) + [groups[n]];
      } else {
        at := before;
        assert Anchored(groups, dirs) == init;
      }
    }
  }

  lemma FiledUnderAnchor(groups: seq<ModuleGroup>, dirs: seq<Path>)
    ensures forall e | e in Anchored(groups, dirs) :: AnchorOf(e.1, dirs) == Some(e.0)
  {
    forall e | e in Anchored(groups, dirs) ensures AnchorOf(e.1, dirs) == Some(e.0) {
      AnchoredMember(groups, dirs, e.0, e.1);
    }
  }

  // Where the log files a module with an anchor.
  lemma FiledWhere(groups: seq<ModuleGroup>, dirs: seq<Path>, where: seq<nat>, q: nat, b: Path)
    requires Picked(groups, Seconds(Anchored(groups, dirs)), where, g => AnchorOf(g, dirs).Some?) && q < |groups|
    ensures AnchorOf(groups[q], dirs) == Some(b) ==>
      exists l | 0 <= l < |Anchored(groups, dirs)| :: where[l] == q && Anchored(groups, dirs)[l] == (b, groups[q])
  {
    var log := Anchored(groups, dirs);
    FiledUnderAnchor(groups, dirs);
    if AnchorOf(groups[q], dirs) == Some(b) {
      assert q in where;
      var l :| 0 <= l < |where| && where[l] == q;
      assert Seconds(log)[l] == groups[q] && log[l] in log;
    }
  }

  /** A package holds exactly the modules with its anchor, in the order they came in. */
  lemma PackageInOrder(groups: seq<ModuleGroup>, dirs: seq<Path>, t: TaskGroup) returns (at: seq<nat>)
    requires t in Packages(Anchored(groups, dirs))
    ensures t.anchor.Some? && Picked(groups, t.modules, at, g => AnchorOf(g, dirs) == t.anchor)
  {
    var log := Anchored(groups, dirs);
    var i :| 0 <= i < |Packages(log)| && Packages(log)[i] == t;
    var a := FirstSeen(log)[i];
    var where := AnchoredInOrder(groups, dirs);
    FiledUnderAnchor(groups, dirs);
    var filed := ValuesFiled(log, a);
    at := seq(|filed|, k requires 0 <= k < |filed| => where[filed[k]]);
    FiledPicked(groups, dirs, log, a, where, filed, at);
  }

  lemma FiledPicked(groups: seq<ModuleGroup>, dirs: seq<Path>, log: seq<(Path, ModuleGroup)>, a: Path, where: seq<nat>, filed: seq<nat>, at: seq<nat>)
    requires log == Anchored(groups, dirs) && FiledAt(log, a, ValuesAt(log, a), filed)
    requires Picked(groups, Seconds(log), where, g => AnchorOf(g, dirs).Some?)
    requires forall e | e in log :: AnchorOf(e.1, dirs) == Some(e.0)
    requires |at| == |filed| && forall k | 0 <= k < |filed| :: at[k] == where[filed[k]]
    ensures Picked(groups, ValuesAt(log, a), at, g => AnchorOf(g, dirs) == Some(a))
  {
    forall k | 0 <= k < |at| ensures ValuesAt(log, a)[k] == groups[at[k]] && AnchorOf(groups[at[k]], dirs) == Some(a) {
      assert Seconds(log)[filed[k]] == log[filed[k]].1 && log[filed[k]] in log;
    }
    forall p | 0 <= p < |groups| && AnchorOf(groups[p], dirs) == Some(a) ensures p in at {
      FiledWhere(groups, dirs, where, p, a);
      var q :| 0 <= q < |log| && where[q] == p && log[q] == (a, groups[p]);
      assert q in filed;
      var k :| 0 <= k < |filed| && filed[k] == q;
      assert at[k] == p;
    }
  }

  /** Packages come in the order in which their anchors first occur among the modules. */
  lemma PackagesInOrder(groups: seq<ModuleGroup>, dirs: seq<Path>, i: nat, j: nat)
    requires i < j < |Packages(Anchored(groups, dirs))|
    ensures var tasks := Packages(Anchored(groups, dirs));
            exists p | 0 <= p < |groups| ::
              && AnchorOf(groups[p], dirs) == tasks[i].anchor
              && forall q | 0 <= q <= p :: AnchorOf(groups[q], dirs) != tasks[j].anchor
  {
    var log := Anchored(groups, dirs);
    var where := AnchoredInOrder(groups, dirs);
    var a, b := FirstSeen(log)[i], FirstSeen(log)[j];
    SeenInOrder(log, i, j);
    var k :| 0 <= k < |log| && log[k].0 == a && forall q | 0 <= q <= k :: log[q].0 != b;
    var p := where[k];
    FiledUnderAnchor(groups, dirs);
    assert Seconds(log)[k] == groups[p] && log[k] in log;
    EarlierAnchors(groups, dirs, where, k, b);
  }

  lemma EarlierAnchors(groups: seq<ModuleGroup>, dirs: seq<Path>, where: seq<nat>, k: nat, b: Path)
    requires Picked(groups, Seconds(Anchored(groups, dirs)), where, g => AnchorOf(g, dirs).Some?)
    requires k < |Anchored(groups, dirs)| && forall q | 0 <= q <= k :: Anchored(groups, dirs)[q].0 != b
    ensures where[k] < |groups| && forall q | 0 <= q <= where[k] :: AnchorOf(groups[q], dirs) != Some(b)
  {
    var log := Anchored(groups, dirs);
    assert |where| == |log|;
    forall q | 0 <= q <= where[k] ensures AnchorOf(groups[q], dirs) != Some(b) {
      FiledWhere(groups, dirs, where, q, b);
    }
  }

  function ModulesIn(tasks: seq<TaskGroup>): seq<ModuleGroup> {
    if tasks == [] then [] else ModulesIn(tasks[..|tasks| - 1]) + tasks[|tasks| - 1].modules
  }

  lemma {:induction false} ModulesInConcat(a: seq<TaskGroup>, b: seq<TaskGroup>)
    ensures ModulesIn(a + b) == ModulesIn(a) + ModulesIn(b)
  {
    if b == [] {
      assert a + b == a;
    } else {
      assert (a + b)[..|a + b| - 1] == a + b[..|b| - 1];
      ModulesInConcat(a, b[..|b| - 1]);
    }
  }

  lemma {:induction false} PackagesHeld(log: seq<(Path, ModuleGroup)>, keys: seq<Path>, tasks: seq<TaskGroup>, x: ModuleGroup)
    requires |tasks| == |keys| && forall i | 0 <= i < |keys| :: tasks[i].modules == ValuesAt(log, keys[i])
    ensures Count(ModulesIn(tasks), x) == Held(log, keys, x)
    decreases keys
  {
    if keys == [] {
    } else {
      var n := |keys| - 1;
      PackagesHeld(log, keys[..n], tasks[..n], x);
      CountConcat(ModulesIn(tasks[..n]), tasks[n].modules, x);
    }
  }

  lemma {:induction false} SplitConserves(groups: seq<ModuleGroup>, dirs: seq<Path>, x: ModuleGroup)
    ensures Count(ModulesIn(Singles(groups, dirs)), x) + Count(Seconds(Anchored(groups, dirs)), x) == Count(groups, x)
  {
    if groups == [] {
    } else {
      var init, g := groups[..|groups| - 1], groups[|groups| - 1];
      var singles, anchored := Singles(init, dirs), Anchored(init, dirs);
      SplitConserves(init, dirs, x);
      var anchor := OutermostDeclaringAncestor(g.modulePath, dirs);
      if anchor.Some? {
        assert Singles(groups, dirs) == singles && Anchored(groups, dirs) == anchored + [(anchor.value, g)];
        CountAnchored(anchored, anchor.value, g, x);
      } else {
        assert Singles(groups, dirs) == singles + [TaskGroup([g], None)] && Anchored(groups, dirs) == anchored;
        CountSingle(singles, g, x);
      }
    }
  }

  lemma CountAnchored(log: seq<(Path, ModuleGroup)>, a: Path, g: ModuleGroup, x: ModuleGroup)
    ensures Count(Seconds(log + [(a, g)]), x) == Count(Seconds(log), x) + if g == x then 1 else 0
  {
    assert Seconds(log + [(a, g)])[..|log|] == Seconds(log);
  }

  lemma CountSingle(singles: seq<TaskGroup>, g: ModuleGroup, x: ModuleGroup)
    ensures Count(ModulesIn(singles + [TaskGroup([g], None)]), x) == Count(ModulesIn(singles), x) + if g == x then 1 else 0
  {
    assert (singles + [TaskGroup([g], None)])[..|singles|] == singles;
    CountConcat(ModulesIn(singles), [g], x);
    assert Count([g], x) == if g == x then 1 else 0;
  }

  /** Merging packages keeps every module group, each exactly once. */
  lemma TaskGroupsConserve(groups: seq<ModuleGroup>, dirs: seq<Path>)
    ensures multiset(ModulesIn(TaskGroups(groups, dirs))) == multiset(groups)
  {
    var log := Anchored(groups, dirs);
    var singles, packages := Singles(groups, dirs), Packages(log);
    forall x ensures Count(ModulesIn(TaskGroups(groups, dirs)), x) == Count(groups, x) {
      ModulesInConcat(singles, packages);
      CountConcat(ModulesIn(singles), ModulesIn(packages), x);
      PackagesHeld(log, FirstSeen(log), packages, x);
      HeldConserves(log, x);
      SplitConserves(groups, dirs, x);
    }
    Permutation(ModulesIn(TaskGroups(groups, dirs)), groups);
  }

  lemma {:induction false} CountTwice<V>(xs: seq<V>, p: nat, q: nat)
    requires p < q < |xs| && xs[p] == xs[q]
    ensures Count(xs, xs[p]) >= 2
  {
    var n := |xs| - 1;
    if q < n {
      CountTwice(xs[..n], p, q);
    } else {
      CountOnce(xs[..n], p);
    }
  }

  lemma {:induction false} CountOnce<V>(xs: seq<V>, p: nat)
    requires p < |xs|
    ensures Count(xs, xs[p]) >= 1
  {
    if p < |xs| - 1 {
      CountOnce(xs[..|xs| - 1], p);
    }
  }

  lemma {:induction false} CountDistinct<V(!new)>(xs: seq<V>, x: V)
    requires Distinct(xs)
    ensures Count(xs, x) <= 1
    ensures x !in xs ==> Count(xs, x) == 0
  {
    if xs == [] {
    } else {
      CountDistinct(xs[..|xs| - 1], x);
    }
  }

  ghost predicate DistinctPaths(groups: seq<ModuleGroup>) {
    forall i, j | 0 <= i < j < |groups| :: groups[i].modulePath != groups[j].modulePath
  }

  /** A module never spans two task groups, nor appears twice in one. */
  lemma ModuleInOneGroup(groups: seq<ModuleGroup>, dirs: seq<Path>)
    requires DistinctPaths(groups)
    ensures DistinctPaths(ModulesIn(TaskGroups(groups, dirs)))
  {
    var all := ModulesIn(TaskGroups(groups, dirs));
    TaskGroupsConserve(groups, dirs);
    forall p, q | 0 <= p < q < |all| ensures all[p].modulePath != all[q].modulePath {
      assert all[p] in multiset(all) && all[q] in multiset(all);
      assert all[p] in groups && all[q] in groups;
      if all[p] == all[q] {
        CountTwice(all, p, q);
        CountIs(all, all[p]);
        CountIs(groups, all[p]);
        CountDistinct(groups, all[p]);
      }
    }
  }
}
