/**
 Which tests start the product (`_starts_product`, `_rows_for_module` in
 `scripts/check_band_record.py`): a search through local calls and fixture parameters that
 remembers, along each path, the names it has been through.
 */
module ProductReach {
  import opened Options

  // A call in a body: a spawn, whose program may be unreadable, or a call by some name.
  datatype Call = Spawn(starts: Option<bool>) | Named(name: Option<string>)

  datatype Def = Def(name: string, mentionsStarter: bool, calls: seq<Call>, params: seq<string>)

  datatype Scope = Scope(localDefs: map<string, Def>, fixtures: map<string, Def>) {
    ghost predicate Valid() {
      && (forall n | n in localDefs :: localDefs[n].name == n)
      && (forall n | n in fixtures :: n in localDefs && fixtures[n].name == n)
    }
  }

  // ── What can be reached ───────────────────────────────────────────────────────────────

  predicate Calls(scope: Scope, d: Def, e: Def) {
    exists c | c in d.calls :: c.Named? && c.name.Some? && c.name.value in scope.localDefs && scope.localDefs[c.name.value] == e
  }

  predicate Requests(scope: Scope, d: Def, e: Def) {
    exists p | p in d.params :: p in scope.fixtures && scope.fixtures[p] == e
  }

  predicate Edge(scope: Scope, d: Def, e: Def) {
    Calls(scope, d, e) || Requests(scope, d, e)
  }

  ghost predicate Path(scope: Scope, p: seq<Def>, from: Def, to: Def) {
    p != [] && p[0] == from && p[|p| - 1] == to && forall i | 0 <= i < |p| - 1 :: Edge(scope, p[i], p[i + 1])
  }

  // No name twice, and none of `seen`.
  ghost predicate Simple(p: seq<Def>, seen: set<string>) {
    && (forall i | 0 <= i < |p| :: p[i].name !in seen)
    && (forall i, j | 0 <= i < j < |p| :: p[i].name != p[j].name)
  }

  ghost predicate Reaches(scope: Scope, from: Def, to: Def) {
    exists p :: Path(scope, p, from, to)
  }

  ghost predicate SimplyReaches(scope: Scope, from: Def, to: Def, seen: set<string>) {
    exists p :: Path(scope, p, from, to) && Simple(p, seen)
  }

  // ── What is looked for ────────────────────────────────────────────────────────────────

  predicate StartsProduct(d: Def) {
    d.mentionsStarter || Spawn(Some(true)) in d.calls
  }

  predicate Unreadable(d: Def) {
    Spawn(None) in d.calls
  }

  datatype Answer = Returned(starts: bool) | Refused

  // The answer is right about the definitions that can be reached without a name twice.
  ghost predicate Right(scope: Scope, node: Def, seen: set<string>, r: Answer) {
    match r
    case Returned(true) => exists d :: SimplyReaches(scope, node, d, seen) && StartsProduct(d)
    case Returned(false) => forall d | SimplyReaches(scope, node, d, seen) :: !StartsProduct(d) && !Unreadable(d)
    case Refused => exists d :: SimplyReaches(scope, node, d, seen) && Unreadable(d)
  }

  // ── Paths ─────────────────────────────────────────────────────────────────────────────

  lemma PathPrepend(scope: Scope, node: Def, e: Def, d: Def, seen: set<string>)
    requires node.name !in seen && Edge(scope, node, e) && SimplyReaches(scope, e, d, seen + {node.name})
    ensures SimplyReaches(scope, node, d, seen)
  {
    var p :| Path(scope, p, e, d) && Simple(p, seen + {node.name});
    var q := [node] + p;
    assert forall i | 1 <= i < |q| :: q[i] == p[i - 1];
    assert Path(scope, q, node, d) && Simple(q, seen);
  }

  lemma PathHere(scope: Scope, node: Def, seen: set<string>)
    requires node.name !in seen
    ensures SimplyReaches(scope, node, node, seen)
  {
    assert Path(scope, [node], node, node) && Simple([node], seen);
  }

  lemma PathSplit(scope: Scope, node: Def, d: Def, seen: set<string>)
    requires SimplyReaches(scope, node, d, seen)
    ensures node.name !in seen
    ensures d == node || exists e :: Edge(scope, node, e) && SimplyReaches(scope, e, d, seen + {node.name})
  {
    var p :| Path(scope, p, node, d) && Simple(p, seen);
    if |p| > 1 {
      var q := p[1..];
      assert forall i | 0 <= i < |q| :: q[i] == p[i + 1];
      assert Path(scope, q, p[1], d) && Simple(q, seen + {node.name});
      assert Edge(scope, node, p[1]);
    }
  }

  // ── The search ────────────────────────────────────────────────────────────────────────

  // Nothing was found through these successors.
  ghost predicate Cleared(scope: Scope, e: Def, seen: set<string>) {
    forall d | SimplyReaches(scope, e, d, seen) :: !StartsProduct(d) && !Unreadable(d)
  }

  method Search(scope: Scope, node: Def, seen: set<string>) returns (r: Answer)
    requires scope.Valid() && node.name in scope.localDefs
    ensures Right(scope, node, seen, r)
    decreases |scope.localDefs.Keys - seen|, 1
  {
    if node.name in seen {
      forall d | SimplyReaches(scope, node, d, seen) ensures false {
        PathSplit(scope, node, d, seen);
      }
      return Returned(false);
    }
    PathHere(scope, node, seen);
    if node.mentionsStarter {
      return Returned(true);
    }
    var seen' := seen + {node.name};
    assert scope.localDefs.Keys - seen == (scope.localDefs.Keys - seen') + {node.name};
    r := SearchCalls(scope, node, seen, seen');
    if r != Returned(false) {
      return;
    }
    r := SearchFixtures(scope, node, seen, seen');
    if r == Returned(false) {
      AllClear(scope, node, seen);
    }
  }

  lemma AllClear(scope: Scope, node: Def, seen: set<string>)
    requires !StartsProduct(node) && !Unreadable(node)
    requires forall e | Edge(scope, node, e) :: Cleared(scope, e, seen + {node.name})
    ensures Cleared(scope, node, seen)
  {
    forall d | SimplyReaches(scope, node, d, seen) ensures !StartsProduct(d) && !Unreadable(d) {
      PathSplit(scope, node, d, seen);
    }
  }

  // The loop over the calls in the body.
  method SearchCalls(scope: Scope, node: Def, seen: set<string>, seen': set<string>) returns (r: Answer)
    requires scope.Valid() && node.name in scope.localDefs && node.name !in seen && seen' == seen + {node.name}
    requires !node.mentionsStarter
    ensures r != Returned(false) ==> Right(scope, node, seen, r)
    ensures r == Returned(false) ==> !StartsProduct(node) && !Unreadable(node)
    ensures r == Returned(false) ==> forall e | Calls(scope, node, e) :: Cleared(scope, e, seen')
    decreases |scope.localDefs.Keys - seen'|, 3
  {
    PathHere(scope, node, seen);
    for i := 0 to |node.calls|
      invariant forall k | 0 <= k < i :: node.calls[k] != Spawn(Some(true)) && node.calls[k] != Spawn(None)
      invariant forall k | 0 <= k < i ::
        var c := node.calls[k];
        c.Named? && c.name.Some? && c.name.value in scope.localDefs ==> Cleared(scope, scope.localDefs[c.name.value], seen')
    {
      var c := node.calls[i];
      if c.Spawn? {
        if c.starts.None? {
          return Refused;
        }
        if c.starts.value {
          return Returned(true);
        }
      } else if c.name.Some? && c.name.value in scope.localDefs {
        var e := scope.localDefs[c.name.value];
        assert Calls(scope, node, e);
        r := Follow(scope, node, e, seen, seen');
        if r != Returned(false) {
          return;
        }
      }
    }
    r := Returned(false);
  }

  // The loop over the parameters.
  method SearchFixtures(scope: Scope, node: Def, seen: set<string>, seen': set<string>) returns (r: Answer)
    requires scope.Valid() && node.name in scope.localDefs && node.name !in seen && seen' == seen + {node.name}
    ensures r != Returned(false) ==> Right(scope, node, seen, r)
    ensures r == Returned(false) ==> forall e | Requests(scope, node, e) :: Cleared(scope, e, seen')
    decreases |scope.localDefs.Keys - seen'|, 3
  {
    for i := 0 to |node.params|
      invariant forall k | 0 <= k < i :: node.params[k] in scope.fixtures ==> Cleared(scope, scope.fixtures[node.params[k]], seen')
    {
      if node.params[i] in scope.fixtures {
        var e := scope.fixtures[node.params[i]];
        assert Requests(scope, node, e);
        r := Follow(scope, node, e, seen, seen');
        if r != Returned(false) {
          return;
        }
      }
    }
    r := Returned(false);
  }

  // One edge.
  method Follow(scope: Scope, node: Def, e: Def, seen: set<string>, seen': set<string>) returns (r: Answer)
    requires scope.Valid() && node.name !in seen && seen' == seen + {node.name}
    requires Edge(scope, node, e) && e.name in scope.localDefs
    ensures r != Returned(false) ==> Right(scope, node, seen, r)
    ensures r == Returned(false) ==> Cleared(scope, e, seen')
    decreases |scope.localDefs.Keys - seen'|, 2
  {
    r := Search(scope, e, seen');
    if r == Returned(true) {
      ghost var d :| SimplyReaches(scope, e, d, seen') && StartsProduct(d);
      PathPrepend(scope, node, e, d, seen);
    } else if r == Refused {
      ghost var d :| SimplyReaches(scope, e, d, seen') && Unreadable(d);
      PathPrepend(scope, node, e, d, seen);
    }
  }

  // ── Unique names ──────────────────────────────────────────────────────────────────────

  /** No definition hides another of its name: the test is the one its name stands for, and so
      is every fixture. */
  ghost predicate UniqueNames(scope: Scope, node: Def) {
    && node.name in scope.localDefs && scope.localDefs[node.name] == node
    && forall n | n in scope.fixtures :: n in scope.localDefs && scope.fixtures[n] == scope.localDefs[n]
  }

  lemma {:induction false} OnPathIsDefined(scope: Scope, p: seq<Def>, from: Def, to: Def, i: nat)
    requires scope.Valid() && UniqueNames(scope, from) && Path(scope, p, from, to) && i < |p|
    ensures p[i].name in scope.localDefs && scope.localDefs[p[i].name] == p[i]
  {
    if i == 0 {
    } else {
      assert Edge(scope, p[i - 1], p[i]);
    }
  }

  // A path that comes back to a name can be cut short there.
  lemma CutPath(scope: Scope, p: seq<Def>, from: Def, to: Def, i: nat, j: nat) returns (q: seq<Def>)
    requires scope.Valid() && UniqueNames(scope, from) && Path(scope, p, from, to)
    requires i < j < |p| && p[i].name == p[j].name
    ensures Path(scope, q, from, to) && |q| < |p|
  {
    OnPathIsDefined(scope, p, from, to, i);
    OnPathIsDefined(scope, p, from, to, j);
    q := p[..i] + p[j..];
    assert forall k | 0 <= k < i :: q[k] == p[k];
    assert forall k | i <= k < |q| :: q[k] == p[k - i + j];
    forall k | 0 <= k < |q| - 1 ensures Edge(scope, q[k], q[k + 1]) {
      if k + 1 == i {
        assert q[k] == p[i - 1] && q[k + 1] == p[j] == p[i];
      } else if k + 1 < i {
        assert Edge(scope, p[k], p[k + 1]);
      } else {
        assert Edge(scope, p[k - i + j], p[k - i + j + 1]);
      }
    }
  }

  lemma {:induction false} SimplePath(scope: Scope, p: seq<Def>, from: Def, to: Def)
    requires scope.Valid() && UniqueNames(scope, from) && Path(scope, p, from, to)
    ensures SimplyReaches(scope, from, to, {})
    decreases |p|
  {
    if !Simple(p, {}) {
      var i: nat, j: nat :| i < j < |p| && p[i].name == p[j].name;
      var q := CutPath(scope, p, from, to, i, j);
      SimplePath(scope, q, from, to);
    }
  }

  /** With unique names, what can be reached at all can be reached without a name twice. */
  lemma SimplePathsSuffice(scope: Scope, from: Def, to: Def)
    requires scope.Valid() && UniqueNames(scope, from)
    ensures Reaches(scope, from, to) <==> SimplyReaches(scope, from, to, {})
  {
    if Reaches(scope, from, to) {
      var p :| Path(scope, p, from, to);
      SimplePath(scope, p, from, to);
    }
  }

  datatype Band = Command | Library

  datatype RowResult = Row(band: Band, answered: bool, stale: bool) | Unresolved

  /** One test's row. With unique names: Command if and only if a definition that starts the
      product can be reached, Library only if every spawn that can be reached was read, and no
      verdict or the reader's own only where some spawn could not be. */
  method ClassifyTest(scope: Scope, node: Def, exception: Option<Band>) returns (r: RowResult)
    requires scope.Valid() && UniqueNames(scope, node)
    ensures r.Row? && !r.answered ==> (r.band == Command <==> exists d :: Reaches(scope, node, d) && StartsProduct(d))
    ensures r.Row? && !r.answered && r.band == Library ==> forall d | Reaches(scope, node, d) :: !Unreadable(d)
    ensures r.Unresolved? || r.answered ==> exists d :: Reaches(scope, node, d) && Unreadable(d)
    ensures r.Unresolved? ==> exception.None?
    ensures r.Row? && r.answered ==> exception == Some(r.band)
    ensures r.Row? ==> (r.stale <==> exception.Some? && !r.answered)
  {
    var answer := Search(scope, node, {});
    forall d ensures Reaches(scope, node, d) <==> SimplyReaches(scope, node, d, {}) {
      SimplePathsSuffice(scope, node, d);
    }
    match answer {
      case Returned(starts) => r := Row(if starts then Command else Library, false, exception.Some?);
      case Refused => r := if exception.None? then Unresolved else Row(exception.value, true, false);
    }
  }

  /** Without unique names the search can miss: a method that calls the last method of its own
      name, which starts the product, is taken for one that does not. */
  lemma HiddenDefinitionMissed(scope: Scope, outer: Def, inner: Def, r: Answer)
    requires inner == Def("test_x", true, [], []) && outer == Def("test_x", false, [Named(Some("test_x"))], [])
    requires scope == Scope(map["test_x" := inner], map[]) && Right(scope, outer, {}, r)
    ensures scope.Valid() && Reaches(scope, outer, inner) && StartsProduct(inner)
    ensures r == Returned(false)
  {
    assert Named(Some("test_x")) in outer.calls;
    assert Path(scope, [outer, inner], outer, inner);
    forall d | SimplyReaches(scope, outer, d, {}) ensures d == outer {
      PathSplit(scope, outer, d, {});
      forall e | Edge(scope, outer, e) && SimplyReaches(scope, e, d, {} + {outer.name}) ensures d == outer {
        PathSplit(scope, e, d, {} + {outer.name});
      }
    }
  }
}
