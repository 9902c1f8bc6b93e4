/**
 The order groups are dispatched in: `apply_schedule_strategy` (`src/scheduler.rs`) over
 `sort_groups` (`src/cache/timing.rs`). Durations are exact reals; the sort is any stable one.
 */
module Scheduling {
  import opened Grouping

  // ── Stable sorting ────────────────────────────────────────────────────────────────────

  ghost predicate TotalPreorder<T(!new)>(le: (T, T) -> bool) {
    && (forall a, b :: le(a, b) || le(b, a))
    && forall a, b, c :: le(a, b) && le(b, c) ==> le(a, c)
  }

  /** `out` is `xs` sorted by `le`, and `from[i]` says where its i-th element stood: elements
      that tie keep their incoming order. This determines `out`. */
  ghost predicate StablySorted<T>(xs: seq<T>, out: seq<T>, from: seq<nat>, le: (T, T) -> bool) {
    && |out| == |xs| == |from|
    && (forall i | 0 <= i < |from| :: from[i] < |xs| && out[i] == xs[from[i]])
    && (forall i, j | 0 <= i < j < |from| :: from[i] != from[j])
    && forall i, j | 0 <= i < j < |out| :: le(out[i], out[j]) && (le(out[j], out[i]) ==> from[i] < from[j])
  }

  // Insertion of the element at index `k` into already sorted later ones.
  function InsertAt<T>(xs: seq<T>, k: nat, from: seq<nat>, le: (T, T) -> bool): seq<nat>
    requires k < |xs| && forall i | 0 <= i < |from| :: from[i] < |xs|
  {
    if from == [] || le(xs[k], xs[from[0]]) then [k] + from
    else [from[0]] + InsertAt(xs, k, from[1..], le)
  }

  // The order of the elements of `xs` from index `k` on.
  function OrderFrom<T>(xs: seq<T>, k: nat, le: (T, T) -> bool): (r: seq<nat>)
    requires k <= |xs|
    ensures forall i | 0 <= i < |r| :: k <= r[i] < |xs|
    decreases |xs| - k
  {
    if k == |xs| then []
    else
      var rest := OrderFrom(xs, k + 1, le);
      InsertRange(xs, k, rest, le);
      InsertAt(xs, k, rest, le)
  }

  lemma {:induction false} InsertRange<T>(xs: seq<T>, k: nat, from: seq<nat>, le: (T, T) -> bool)
    requires k < |xs| && forall i | 0 <= i < |from| :: k < from[i] < |xs|
    ensures |InsertAt(xs, k, from, le)| == |from| + 1
    ensures forall x :: x in InsertAt(xs, k, from, le) <==> x == k || x in from
    ensures forall i | 0 <= i < |InsertAt(xs, k, from, le)| :: k <= InsertAt(xs, k, from, le)[i] < |xs|
    decreases from
  {
    if from != [] && !le(xs[k], xs[from[0]]) {
      InsertRange(xs, k, from[1..], le);
      assert forall x :: x in from <==> x == from[0] || x in from[1..];
    }
  }

  ghost predicate Ordered<T>(xs: seq<T>, from: seq<nat>, le: (T, T) -> bool)
    requires forall i | 0 <= i < |from| :: from[i] < |xs|
  {
    forall i, j | 0 <= i < j < |from| ::
      from[i] != from[j] && le(xs[from[i]], xs[from[j]]) && (le(xs[from[j]], xs[from[i]]) ==> from[i] < from[j])
  }

  lemma {:induction false} InsertOrders<T(!new)>(xs: seq<T>, k: nat, from: seq<nat>, le: (T, T) -> bool)
    requires TotalPreorder(le)
    requires k < |xs| && (forall i | 0 <= i < |from| :: k < from[i] < |xs|) && Ordered(xs, from, le)
    ensures forall i | 0 <= i < |InsertAt(xs, k, from, le)| :: InsertAt(xs, k, from, le)[i] < |xs|
    ensures Ordered(xs, InsertAt(xs, k, from, le), le)
    decreases from
  {
    InsertRange(xs, k, from, le);
    if from == [] || le(xs[k], xs[from[0]]) {
      forall j | 0 <= j < |from| ensures le(xs[k], xs[from[j]]) {
        assert j == 0 || le(xs[from[0]], xs[from[j]]);
      }
      OrderedCons(xs, k, from, le);
    } else {
      InsertOrders(xs, k, from[1..], le);
      InsertRange(xs, k, from[1..], le);
      var r := InsertAt(xs, k, from[1..], le);
      forall j | 0 <= j < |r|
        ensures from[0] != r[j] && le(xs[from[0]], xs[r[j]]) && (le(xs[r[j]], xs[from[0]]) ==> from[0] < r[j])
      {
        assert r[j] in r;
      }
      OrderedCons(xs, from[0], r, le);
    }
  }

  lemma OrderedCons<T>(xs: seq<T>, k: nat, from: seq<nat>, le: (T, T) -> bool)
    requires k < |xs| && (forall i | 0 <= i < |from| :: from[i] < |xs|) && Ordered(xs, from, le)
    requires forall j | 0 <= j < |from| ::
      k != from[j] && le(xs[k], xs[from[j]]) && (le(xs[from[j]], xs[k]) ==> k < from[j])
    ensures Ordered(xs, [k] + from, le)
  {
  }

  lemma {:induction false} OrderFromSorts<T(!new)>(xs: seq<T>, k: nat, le: (T, T) -> bool)
    requires TotalPreorder(le) && k <= |xs|
    ensures |OrderFrom(xs, k, le)| == |xs| - k && Ordered(xs, OrderFrom(xs, k, le), le)
    decreases |xs| - k
  {
    if k < |xs| {
      OrderFromSorts(xs, k + 1, le);
      InsertRange(xs, k, OrderFrom(xs, k + 1, le), le);
      InsertOrders(xs, k, OrderFrom(xs, k + 1, le), le);
    }
  }

  // `sort_by`, with the positions the elements came from.
  function StableSort<T>(xs: seq<T>, le: (T, T) -> bool): (r: (seq<T>, seq<nat>)) {
    var from := OrderFrom(xs, 0, le);
    (seq(|from|, i requires 0 <= i < |from| => xs[from[i]]), from)
  }

  lemma StableSortSorts<T(!new)>(xs: seq<T>, le: (T, T) -> bool)
    requires TotalPreorder(le)
    ensures StablySorted(xs, StableSort(xs, le).0, StableSort(xs, le).1, le)
  {
    OrderFromSorts(xs, 0, le);
  }

  function Pick<T>(xs: seq<T>, from: seq<nat>): seq<T>
    requires forall i | 0 <= i < |from| :: from[i] < |xs|
  {
    seq(|from|, i requires 0 <= i < |from| => xs[from[i]])
  }

  lemma {:induction false} PickInsert<T>(xs: seq<T>, k: nat, from: seq<nat>, le: (T, T) -> bool, x: T)
    requires k < |xs| && forall i | 0 <= i < |from| :: k < from[i] < |xs|
    requires forall i | 0 <= i < |InsertAt(xs, k, from, le)| :: InsertAt(xs, k, from, le)[i] < |xs|
    ensures Count(Pick(xs, InsertAt(xs, k, from, le)), x) == Count([xs[k]], x) + Count(Pick(xs, from), x)
    decreases from
  {
    if from == [] || le(xs[k], xs[from[0]]) {
      assert Pick(xs, [k] + from) == [xs[k]] + Pick(xs, from);
      CountConcat([xs[k]], Pick(xs, from), x);
    } else {
      InsertRange(xs, k, from[1..], le);
      var r := InsertAt(xs, k, from[1..], le);
      PickInsert(xs, k, from[1..], le, x);
      assert Pick(xs, [from[0]] + r) == [xs[from[0]]] + Pick(xs, r);
      assert Pick(xs, from) == [xs[from[0]]] + Pick(xs, from[1..]);
      CountConcat([xs[from[0]]], Pick(xs, r), x);
      CountConcat([xs[from[0]]], Pick(xs, from[1..]), x);
    }
  }

  lemma {:induction false} PickOrder<T>(xs: seq<T>, k: nat, le: (T, T) -> bool, x: T)
    requires k <= |xs|
    ensures Count(Pick(xs, OrderFrom(xs, k, le)), x) == Count(xs[k..], x)
    decreases |xs| - k
  {
    if k < |xs| {
      PickOrder(xs, k + 1, le, x);
      InsertRange(xs, k, OrderFrom(xs, k + 1, le), le);
      PickInsert(xs, k, OrderFrom(xs, k + 1, le), le, x);
      assert xs[k..] == [xs[k]] + xs[k + 1..];
      CountConcat([xs[k]], xs[k + 1..], x);
    }
  }

  /** Sorting permutes: nothing is lost, added or duplicated. */
  lemma StableSortPermutes<T(!new)>(xs: seq<T>, le: (T, T) -> bool)
    ensures multiset(StableSort(xs, le).0) == multiset(xs)
  {
    var out := StableSort(xs, le).0;
    assert out == Pick(xs, OrderFrom(xs, 0, le)) && xs[0..] == xs;
    forall x ensures Count(out, x) == Count(xs, x) {
      PickOrder(xs, 0, le, x);
    }
    Permutation(out, xs);
  }

  // ── How heavy a group is ──────────────────────────────────────────────────────────────

  type Timings = map<string, real>

  function SumOf(timings: Timings, items: seq<TestItem>): real {
    if items == [] then 0.0
    else
      var id := items[|items| - 1].nodeId;
      SumOf(timings, items[..|items| - 1]) + if id in timings then timings[id] else 0.0
  }

  function CoveredOf(timings: Timings, items: seq<TestItem>): nat {
    if items == [] then 0
    else CoveredOf(timings, items[..|items| - 1]) + if items[|items| - 1].nodeId in timings then 1 else 0
  }

  method SumAndCount(timings: Timings, items: seq<TestItem>) returns (total: real, count: nat)
    ensures total == SumOf(timings, items) && count == CoveredOf(timings, items)
  {
    total, count := 0.0, 0;
    for i := 0 to |items|
      invariant total == SumOf(timings, items[..i]) && count == CoveredOf(timings, items[..i])
    {
      assert items[..i + 1][..i] == items[..i];
      var id := items[i].nodeId;
      if id in timings {
        total, count := total + timings[id], count + 1;
      }
    }
    assert items[..|items|] == items;
  }

  // A group with a cached test weighs their total time; any other only its size.
  datatype Weight = Cached(total: real) | Uncached(size: nat)

  function WeightOf(timings: Timings, g: ModuleGroup): Weight {
    if CoveredOf(timings, g.items) > 0 then Cached(SumOf(timings, g.items)) else Uncached(|g.items|)
  }

  predicate Heavier(a: Weight, b: Weight) {
    match (a, b)
    case (Cached(x), Cached(y)) => x >= y
    case (Cached(_), Uncached(_)) => true
    case (Uncached(_), Cached(_)) => false
    case (Uncached(m), Uncached(n)) => m >= n
  }

  function HeavierGroup(timings: Timings): (ModuleGroup, ModuleGroup) -> bool {
    (g, h) => Heavier(WeightOf(timings, g), WeightOf(timings, h))
  }

  predicate HasFailed(failed: set<string>, g: ModuleGroup) {
    exists x | x in g.items :: x.nodeId in failed
  }

  function FailedGroup(failed: set<string>): (ModuleGroup, ModuleGroup) -> bool {
    (g, h) => HasFailed(failed, g) || !HasFailed(failed, h)
  }

  /** The order failed-first scheduling promises: failures first, then heavier first. */
  function FailedThenHeavier(timings: Timings, failed: set<string>): (ModuleGroup, ModuleGroup) -> bool {
    (g, h) =>
      if HasFailed(failed, g) == HasFailed(failed, h) then Heavier(WeightOf(timings, g), WeightOf(timings, h))
      else HasFailed(failed, g)
  }

  // ── The order, on the tests themselves ────────────────────────────────────────────────

  predicate HasTime(timings: Timings, g: ModuleGroup) {
    exists x | x in g.items :: x.nodeId in timings
  }

  // What the cached times of some tests add up to.
  ghost function CachedTime(timings: Timings, items: seq<TestItem>): real {
    if items == [] then 0.0
    else (if items[0].nodeId in timings then timings[items[0].nodeId] else 0.0) + CachedTime(timings, items[1..])
  }

  /** `g` may stand before `h`: groups with a cached time first, those by how much, the others by
      how many tests they hold. */
  ghost predicate MayLead(timings: Timings, g: ModuleGroup, h: ModuleGroup) {
    if HasTime(timings, h) then HasTime(timings, g) && CachedTime(timings, g.items) >= CachedTime(timings, h.items)
    else HasTime(timings, g) || |g.items| >= |h.items|
  }

  ghost predicate Alike(timings: Timings, g: ModuleGroup, h: ModuleGroup) {
    MayLead(timings, g, h) && MayLead(timings, h, g)
  }

  /** `out` is `groups` in another order, `from` saying where each stood: heaviest first, and those
      that are alike in the order they came in. */
  ghost predicate HeaviestFirst(timings: Timings, groups: seq<ModuleGroup>, out: seq<ModuleGroup>, from: seq<nat>) {
    && |out| == |groups| == |from|
    && (forall i | 0 <= i < |from| :: from[i] < |groups| && out[i] == groups[from[i]])
    && (forall i, j | 0 <= i < j < |from| :: from[i] != from[j])
    && forall i, j | 0 <= i < j < |out| :: MayLead(timings, out[i], out[j]) && (Alike(timings, out[i], out[j]) ==> from[i] < from[j])
  }

  /** The same with every group that holds a failed test before every group that does not. */
  ghost predicate FailedThenHeaviest(timings: Timings, failed: set<string>, groups: seq<ModuleGroup>, out: seq<ModuleGroup>, from: seq<nat>) {
    && |out| == |groups| == |from|
    && (forall i | 0 <= i < |from| :: from[i] < |groups| && out[i] == groups[from[i]])
    && (forall i, j | 0 <= i < j < |from| :: from[i] != from[j])
    && forall i, j | 0 <= i < j < |out| ::
         var a, b := exists x | x in out[i].items :: x.nodeId in failed, exists x | x in out[j].items :: x.nodeId in failed;
         && (b ==> a)
         && (a == b ==> MayLead(timings, out[i], out[j]) && (Alike(timings, out[i], out[j]) ==> from[i] < from[j]))
  }

  lemma {:induction false} CachedTimeConcat(timings: Timings, a: seq<TestItem>, b: seq<TestItem>)
    ensures CachedTime(timings, a + b) == CachedTime(timings, a) + CachedTime(timings, b)
  {
    if a == [] {
      assert a + b == b;
    } else {
      assert (a + b)[1..] == a[1..] + b;
      CachedTimeConcat(timings, a[1..], b);
    }
  }

  lemma {:induction false} SumIsTime(timings: Timings, items: seq<TestItem>)
    ensures SumOf(timings, items) == CachedTime(timings, items)
    ensures CoveredOf(timings, items) > 0 <==> exists x | x in items :: x.nodeId in timings
  {
    if items == [] {
    } else {
      var n := |items| - 1;
      SumIsTime(timings, items[..n]);
      CachedTimeConcat(timings, items[..n], [items[n]]);
      assert items == items[..n] + [items[n]];
      assert CachedTime(timings, [items[n]]) == if items[n].nodeId in timings then timings[items[n].nodeId] else 0.0;
    }
  }

  lemma HeavierMeans(timings: Timings, g: ModuleGroup, h: ModuleGroup)
    ensures Heavier(WeightOf(timings, g), WeightOf(timings, h)) <==> MayLead(timings, g, h)
  {
    SumIsTime(timings, g.items);
    SumIsTime(timings, h.items);
  }

  lemma SortedMeansHeaviest(timings: Timings, groups: seq<ModuleGroup>, out: seq<ModuleGroup>, from: seq<nat>)
    requires StablySorted(groups, out, from, HeavierGroup(timings))
    ensures HeaviestFirst(timings, groups, out, from)
  {
    forall i, j | 0 <= i < j < |out|
      ensures MayLead(timings, out[i], out[j]) && (Alike(timings, out[i], out[j]) ==> from[i] < from[j])
    {
      HeavierMeans(timings, out[i], out[j]);
      HeavierMeans(timings, out[j], out[i]);
    }
  }

  lemma SortedMeansFailedFirst(timings: Timings, failed: set<string>, groups: seq<ModuleGroup>, out: seq<ModuleGroup>, from: seq<nat>)
    requires StablySorted(groups, out, from, FailedThenHeavier(timings, failed))
    ensures FailedThenHeaviest(timings, failed, groups, out, from)
  {
    forall i, j | 0 <= i < j < |out|
      ensures HasFailed(failed, out[j]) ==> HasFailed(failed, out[i])
      ensures HasFailed(failed, out[i]) == HasFailed(failed, out[j]) ==>
        MayLead(timings, out[i], out[j]) && (Alike(timings, out[i], out[j]) ==> from[i] < from[j])
    {
      HeavierMeans(timings, out[i], out[j]);
      HeavierMeans(timings, out[j], out[i]);
    }
  }

  // ── The sorts ─────────────────────────────────────────────────────────────────────────

  // The order depends only on how elements compare.
  lemma {:induction false} InsertSame<T, U>(xs: seq<T>, ys: seq<U>, k: nat, from: seq<nat>, le: (T, T) -> bool, le': (U, U) -> bool)
    requires |xs| == |ys| && forall i, j | 0 <= i < |xs| && 0 <= j < |xs| :: le(xs[i], xs[j]) == le'(ys[i], ys[j])
    requires k < |xs| && forall i | 0 <= i < |from| :: from[i] < |xs|
    ensures InsertAt(xs, k, from, le) == InsertAt(ys, k, from, le')
    decreases from
  {
    if from != [] && !le(xs[k], xs[from[0]]) {
      InsertSame(xs, ys, k, from[1..], le, le');
    }
  }

  lemma {:induction false} OrderSame<T, U>(xs: seq<T>, ys: seq<U>, k: nat, le: (T, T) -> bool, le': (U, U) -> bool)
    requires |xs| == |ys| && forall i, j | 0 <= i < |xs| && 0 <= j < |xs| :: le(xs[i], xs[j]) == le'(ys[i], ys[j])
    requires k <= |xs|
    ensures OrderFrom(xs, k, le) == OrderFrom(ys, k, le')
    decreases |xs| - k
  {
    if k < |xs| {
      OrderSame(xs, ys, k + 1, le, le');
      InsertSame(xs, ys, k, OrderFrom(xs, k + 1, le), le, le');
    }
  }

  /** Weighs every group once, sorts the weighed groups, and drops the weights again: heaviest
      cached groups first, then the uncached by size, ties in incoming order. */
  method SortGroups(timings: Timings, groups: seq<ModuleGroup>) returns (out: seq<ModuleGroup>, ghost from: seq<nat>)
    ensures StablySorted(groups, out, from, HeavierGroup(timings))
    ensures HeaviestFirst(timings, groups, out, from)
    ensures multiset(out) == multiset(groups)
  {
    var keyed: seq<(Weight, ModuleGroup)> := [];
    for i := 0 to |groups|
      invariant |keyed| == i
      invariant forall j | 0 <= j < i :: keyed[j] == (WeightOf(timings, groups[j]), groups[j])
    {
      var total, count := SumAndCount(timings, groups[i].items);
      var weight := if count > 0 then Cached(total) else Uncached(|groups[i].items|);
      keyed := keyed + [(weight, groups[i])];
    }
    var le := (a: (Weight, ModuleGroup), b: (Weight, ModuleGroup)) => Heavier(a.0, b.0);
    var sorted := StableSort(keyed, le).0;
    out := seq(|sorted|, i requires 0 <= i < |sorted| => sorted[i].1);
    OrderSame(keyed, groups, 0, le, HeavierGroup(timings));
    StableSortSorts(groups, HeavierGroup(timings));
    StableSortPermutes(groups, HeavierGroup(timings));
    from := StableSort(groups, HeavierGroup(timings)).1;
    assert out == StableSort(groups, HeavierGroup(timings)).0;
    SortedMeansHeaviest(timings, groups, out, from);
  }

  lemma SwapPermutes<T>(xs: seq<T>, i: nat, j: nat)
    requires i < |xs| && j < |xs|
    ensures multiset(xs[i := xs[j]][j := xs[i]]) == multiset(xs)
  {
  }

  /** Swaps each element with one drawn from those up to it, whatever is drawn. */
  method Shuffle<T>(xs: seq<T>, draws: nat -> nat) returns (out: seq<T>)
    ensures multiset(out) == multiset(xs)
  {
    out := xs;
    for i := 0 to |xs|
      invariant |out| == |xs| && multiset(out) == multiset(xs)
    {
      var j := draws(i) % (i + 1);
      SwapPermutes(out, i, j);
      out := out[i := out[j]][j := out[i]];
    }
  }

  datatype Strategy = LongestFirst | FailedFirst | Random

  function OrderOf(strategy: Strategy, timings: Timings, failed: set<string>): (ModuleGroup, ModuleGroup) -> bool
    requires strategy != Random
  {
    match strategy
    case LongestFirst => HeavierGroup(timings)
    case FailedFirst => FailedThenHeavier(timings, failed)
  }

  /** Two strategies give a stable sort of the groups, the third any order of them. Failed-first
      gets there by two sorts in a row, and the result is the one a single sort by "failures
      first, then heavier" gives. */
  method ApplyScheduleStrategy(groups: seq<ModuleGroup>, strategy: Strategy, timings: Timings, failed: set<string>, draws: nat -> nat)
    returns (out: seq<ModuleGroup>, ghost from: seq<nat>)
    ensures strategy != Random ==> StablySorted(groups, out, from, OrderOf(strategy, timings, failed))
    ensures strategy == LongestFirst ==> HeaviestFirst(timings, groups, out, from)
    ensures strategy == FailedFirst ==> FailedThenHeaviest(timings, failed, groups, out, from)
    ensures multiset(out) == multiset(groups)
  {
    if strategy == Random {
      out := Shuffle(groups, draws);
      from := [];
      return;
    }
    var heaviest;
    heaviest, from := SortGroups(timings, groups);
    match strategy {
      case LongestFirst => out := heaviest;
      case FailedFirst =>
        out := StableSort(heaviest, FailedGroup(failed)).0;
        ghost var from2 := StableSort(heaviest, FailedGroup(failed)).1;
        StableSortSorts(heaviest, FailedGroup(failed));
        StableSortPermutes(heaviest, FailedGroup(failed));
        TwoSorts(groups, heaviest, out, from, from2, timings, failed);
        from := Pick(from, from2);
        SortedMeansFailedFirst(timings, failed, groups, out, from);
    }
  }

  lemma TwoSorts(groups: seq<ModuleGroup>, mid: seq<ModuleGroup>, out: seq<ModuleGroup>, from1: seq<nat>, from2: seq<nat>,
                 timings: Timings, failed: set<string>)
    requires StablySorted(groups, mid, from1, HeavierGroup(timings))
    requires StablySorted(mid, out, from2, FailedGroup(failed))
    ensures StablySorted(groups, out, Pick(from1, from2), FailedThenHeavier(timings, failed))
  {
    var le := FailedThenHeavier(timings, failed);
    var from := Pick(from1, from2);
    forall i, j | 0 <= i < j < |out|
      ensures from[i] != from[j] && le(out[i], out[j]) && (le(out[j], out[i]) ==> from[i] < from[j])
    {
      assert from2[i] != from2[j];
      if HasFailed(failed, out[i]) == HasFailed(failed, out[j]) {
        assert from2[i] < from2[j];
      }
    }
  }
}
