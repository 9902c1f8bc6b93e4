/**
 The two searches for bare asserts, and how they agree: `walk_bare_asserts` looks at one test
 function with an explicit stack (`src/bare_asserts.rs`), while the rewriter files what it
 meets under the outermost function's name (`src/assert_rewriter.rs`).
 */
module BareAsserts {
  import opened Options
  import opened PyAst
  import opened Rewriter
  import opened BodyRewriter
  import opened LineIndex

  // ── Tallies ───────────────────────────────────────────────────────────────────────────

  function Sum(ms: seq<multiset<int>>): multiset<int> {
    if ms == [] then multiset{} else ms[0] + Sum(ms[1..])
  }

  // The lines of a tree's bare asserts; `prune` leaves out those inside nested functions.
  function TallyS(s: Stmt, prune: bool): multiset<int>
    decreases s, 1
  {
    if s.Assert? then if s.msg.None? then multiset{s.lineno} else multiset{}
    else if prune && s.FunctionDef? then multiset{}
    else Sum(TallyLists(s, prune))
  }

  function TallyLists(s: Stmt, prune: bool): (r: seq<multiset<int>>)
    ensures |r| == |Bodies(s)|
    ensures forall i | 0 <= i < |r| :: r[i] == TallyB(Bodies(s)[i], prune)
    decreases s, 0
  {
    seq(|Bodies(s)|, i requires 0 <= i < |Bodies(s)| => TallyB(Bodies(s)[i], prune))
  }

  function TallyB(body: seq<Stmt>, prune: bool): multiset<int>
    decreases body
  {
    if body == [] then multiset{} else TallyS(body[0], prune) + TallyB(body[1..], prune)
  }

  lemma {:induction false} SumConcat(a: seq<multiset<int>>, b: seq<multiset<int>>)
    ensures Sum(a + b) == Sum(a) + Sum(b)
  {
    if a == [] {
      assert a + b == b;
    } else {
      assert (a + b)[1..] == a[1..] + b;
      SumConcat(a[1..], b);
    }
  }

  lemma {:induction false} TallyConcat(a: seq<Stmt>, b: seq<Stmt>, prune: bool)
    ensures TallyB(a + b, prune) == TallyB(a, prune) + TallyB(b, prune)
  {
    if a == [] {
      assert a + b == b;
    } else {
      assert (a + b)[1..] == a[1..] + b;
      TallyConcat(a[1..], b, prune);
    }
  }

  // ── The stack walk ────────────────────────────────────────────────────────────────────

  function CompoundChildren(s: Stmt): seq<Stmt> {
    Flatten(CompoundLists(s))
  }

  function Tallies(lists: seq<seq<Stmt>>, prune: bool): (r: seq<multiset<int>>)
    ensures |r| == |lists|
    ensures forall i | 0 <= i < |r| :: r[i] == TallyB(lists[i], prune)
  {
    seq(|lists|, i requires 0 <= i < |lists| => TallyB(lists[i], prune))
  }

  lemma {:induction false} TallyFlatten(lists: seq<seq<Stmt>>, prune: bool)
    ensures TallyB(Flatten(lists), prune) == Sum(Tallies(lists, prune))
  {
    if lists == [] {
    } else {
      TallyFlatten(lists[1..], prune);
      TallyConcat(lists[0], Flatten(lists[1..]), prune);
      assert Tallies(lists, prune)[1..] == Tallies(lists[1..], prune);
    }
  }

  lemma SumRotate(a: seq<multiset<int>>, b: seq<multiset<int>>, c: seq<multiset<int>>)
    ensures Sum(a + b + c) == Sum(a + c + b)
  {
    SumConcat(a + b, c);
    SumConcat(a, b);
    SumConcat(a + c, b);
    SumConcat(a, c);
  }

  lemma TalliesConcat(a: seq<seq<Stmt>>, b: seq<seq<Stmt>>, prune: bool)
    ensures Tallies(a + b, prune) == Tallies(a, prune) + Tallies(b, prune)
  {
  }

  lemma TryLists(s: Stmt, handlers: seq<seq<Stmt>>)
    requires s.Try? && |handlers| == |s.handlers| && forall i | 0 <= i < |handlers| :: handlers[i] == s.handlers[i].body
    ensures CompoundLists(s) == [s.body] + handlers + [s.orelse, s.finalbody]
    ensures Bodies(s) == [s.body] + [s.orelse, s.finalbody] + handlers
  {
  }

  // Chaining the handlers second instead of last changes nothing in the tally.
  lemma TallyTry(s: Stmt, prune: bool)
    requires s.Try?
    ensures Sum(Tallies(CompoundLists(s), prune)) == Sum(Tallies(Bodies(s), prune))
  {
    var hs := seq(|s.handlers|, i requires 0 <= i < |s.handlers| => s.handlers[i].body);
    TryLists(s, hs);
    var first, last := [s.body], [s.orelse, s.finalbody];
    TalliesConcat(first + hs, last, prune);
    TalliesConcat(first, hs, prune);
    TalliesConcat(first + last, hs, prune);
    TalliesConcat(first, last, prune);
    SumRotate(Tallies(first, prune), Tallies(hs, prune), Tallies(last, prune));
  }

  lemma TallyChildren(s: Stmt, prune: bool)
    requires !s.Assert? && !(prune && s.FunctionDef?)
    ensures TallyB(CompoundChildren(s), prune) == TallyS(s, prune)
  {
    TallyFlatten(CompoundLists(s), prune);
    assert Tallies(Bodies(s), prune) == TallyLists(s, prune);
    if s.Try? {
      TallyTry(s, prune);
    }
  }

  // How much walking is left.
  function SizeS(s: Stmt): nat
    decreases s, 1
  {
    1 + SumNat(Sizes(s))
  }

  function Sizes(s: Stmt): (r: seq<nat>)
    ensures |r| == |CompoundLists(s)|
    ensures forall i | 0 <= i < |r| :: r[i] == SizeB(CompoundLists(s)[i])
    decreases s, 0
  {
    seq(|CompoundLists(s)|, i requires 0 <= i < |CompoundLists(s)| => SizeB(CompoundLists(s)[i]))
  }

  function SizeB(body: seq<Stmt>): nat
    decreases body
  {
    if body == [] then 0 else SizeS(body[0]) + SizeB(body[1..])
  }

  function SumNat(ns: seq<nat>): nat {
    if ns == [] then 0 else ns[0] + SumNat(ns[1..])
  }

  lemma {:induction false} SizeConcat(a: seq<Stmt>, b: seq<Stmt>)
    ensures SizeB(a + b) == SizeB(a) + SizeB(b)
  {
    if a == [] {
      assert a + b == b;
    } else {
      assert (a + b)[1..] == a[1..] + b;
      SizeConcat(a[1..], b);
    }
  }

  lemma {:induction false} SizeFlatten(lists: seq<seq<Stmt>>, sizes: seq<nat>)
    requires |lists| == |sizes| && forall i | 0 <= i < |lists| :: sizes[i] == SizeB(lists[i])
    ensures SizeB(Flatten(lists)) == SumNat(sizes)
  {
    if lists == [] {
    } else {
      SizeFlatten(lists[1..], sizes[1..]);
      SizeConcat(lists[0], Flatten(lists[1..]));
    }
  }

  // Popping a statement and pushing its children leaves less to walk.
  lemma SizeShrinks(rest: seq<Stmt>, s: Stmt)
    ensures SizeB(rest + CompoundChildren(s)) < SizeB(rest + [s])
  {
    SizeConcat(rest, CompoundChildren(s));
    SizeConcat(rest, [s]);
    SizeFlatten(CompoundLists(s), Sizes(s));
    assert SizeB([s]) == SizeS(s);
  }

  // Both parsers put an assert on the line its first byte lies on.
  ghost predicate Located(body: seq<Stmt>, source: seq<Byte>)
    decreases body
  {
    body == [] || (LocatedS(body[0], source) && Located(body[1..], source))
  }

  ghost predicate LocatedS(s: Stmt, source: seq<Byte>)
    decreases s, 0
  {
    && (s.Assert? ==> s.lineno == LineOf(source, s.start))
    && forall i | 0 <= i < |CompoundLists(s)| :: Located(CompoundLists(s)[i], source)
  }

  lemma {:induction false} LocatedConcat(a: seq<Stmt>, b: seq<Stmt>, source: seq<Byte>)
    ensures Located(a + b, source) <==> Located(a, source) && Located(b, source)
  {
    if a == [] {
      assert a + b == b;
    } else {
      assert (a + b)[1..] == a[1..] + b;
      LocatedConcat(a[1..], b, source);
    }
  }

  lemma {:induction false} LocatedFlatten(lists: seq<seq<Stmt>>, source: seq<Byte>)
    requires forall i | 0 <= i < |lists| :: Located(lists[i], source)
    ensures Located(Flatten(lists), source)
  {
    if lists == [] {
    } else {
      LocatedFlatten(lists[1..], source);
      LocatedConcat(lists[0], Flatten(lists[1..]), source);
    }
  }

  ghost predicate Sorted(xs: seq<int>) {
    forall i, j | 0 <= i < j < |xs| :: xs[i] <= xs[j]
  }

  function Insert(x: int, xs: seq<int>): seq<int> {
    if xs == [] || x <= xs[0] then [x] + xs else [xs[0]] + Insert(x, xs[1..])
  }

  lemma {:induction false} InsertKeeps(x: int, xs: seq<int>)
    ensures multiset(Insert(x, xs)) == multiset(xs) + multiset{x}
  {
    if xs == [] {
    } else {
      InsertKeeps(x, xs[1..]);
      assert xs == [xs[0]] + xs[1..];
    }
  }

  lemma {:induction false} InsertSorts(x: int, xs: seq<int>)
    requires Sorted(xs)
    ensures Sorted(Insert(x, xs))
  {
    if xs != [] && x > xs[0] {
      InsertSorts(x, xs[1..]);
      InsertKeeps(x, xs[1..]);
      var r := Insert(x, xs[1..]);
      forall k | 0 <= k < |r| ensures xs[0] <= r[k] {
        assert r[k] in multiset(r);
        assert r[k] == x || r[k] in multiset(xs[1..]);
      }
      assert Insert(x, xs) == [xs[0]] + r;
    }
  }

  function SortLines(xs: seq<int>): (r: seq<int>)
    ensures Sorted(r) && multiset(r) == multiset(xs)
  {
    if xs == [] then []
    else
      var r := SortLines(xs[1..]);
      InsertSorts(xs[0], r);
      InsertKeeps(xs[0], r);
      assert xs == [xs[0]] + xs[1..];
      Insert(xs[0], r)
  }

  function OwnLine(s: Stmt): multiset<int> {
    if s.Assert? && s.msg.None? then multiset{s.lineno} else multiset{}
  }

  // What popping a statement leaves to do, and what it finds.
  lemma WalkStep(rest: seq<Stmt>, s: Stmt, source: seq<Byte>)
    requires Located(rest + [s], source)
    ensures Located(rest, source) && LocatedS(s, source)
    ensures s.FunctionDef? ==> TallyB(rest + [s], true) == TallyB(rest, true) && SizeB(rest) < SizeB(rest + [s])
    ensures !s.FunctionDef? ==> Located(rest + CompoundChildren(s), source)
    ensures !s.FunctionDef? ==> TallyB(rest + [s], true) == OwnLine(s) + TallyB(rest + CompoundChildren(s), true)
  {
    LocatedConcat(rest, [s], source);
    assert Located([s], source) ==> LocatedS(s, source);
    TallyConcat(rest, [s], true);
    TallySingle(s);
    SizeConcat(rest, [s]);
    if !s.FunctionDef? {
      LocatedFlatten(CompoundLists(s), source);
      LocatedConcat(rest, CompoundChildren(s), source);
      TallyConcat(rest, CompoundChildren(s), true);
      if s.Assert? {
        assert CompoundChildren(s) == [];
      } else {
        TallyChildren(s, true);
      }
    }
  }

  lemma TallySingle(s: Stmt)
    ensures TallyB([s], true) == TallyS(s, true) && SizeB([s]) == SizeS(s)
  {
  }

  // One turn of the walk: the top statement is popped, reported, and its children pushed.
  method VisitTop(queue: seq<Stmt>, lines: seq<int>, index: seq<nat>, ghost source: seq<Byte>)
    returns (queue': seq<Stmt>, lines': seq<int>)
    requires Increasing(index) && |index| < U32 && index == Starts(source)
    requires queue != [] && Located(queue, source)
    ensures Located(queue', source) && SizeB(queue') < SizeB(queue)
    ensures multiset(lines') + TallyB(queue', true) == multiset(lines) + TallyB(queue, true)
  {
    var s, rest := queue[|queue| - 1], queue[..|queue| - 1];
    assert queue == rest + [s];
    WalkStep(rest, s, source);
    SizeShrinks(rest, s);
    queue', lines' := rest, lines;
    if !s.FunctionDef? {
      if s.Assert? && s.msg.None? {
        var line := OffsetToLine(index, s.start);
        LineAtStarts(source, s.start);
        lines' := lines + [line];
      }
      queue' := rest + CompoundChildren(s);
    }
  }

  /** The stack walk visits every statement outside nested functions once and returns the
      lines of its bare asserts, sorted. */
  method WalkBareAsserts(body: seq<Stmt>, index: seq<nat>, ghost source: seq<Byte>) returns (lines: seq<int>)
    requires Increasing(index) && |index| < U32 && index == Starts(source) && Located(body, source)
    ensures Sorted(lines) && multiset(lines) == TallyB(body, true)
  {
    lines := [];
    var queue := body;
    while queue != []
      invariant Located(queue, source)
      invariant multiset(lines) + TallyB(queue, true) == TallyB(body, true)
      decreases SizeB(queue)
    {
      queue, lines := VisitTop(queue, lines, index, source);
    }
    lines := SortLines(lines);
  }

  // ── What the rewriter files ───────────────────────────────────────────────────────────

  function Filed(byFn: map<string, seq<int>>, name: string): seq<int> {
    if name in byFn then byFn[name] else []
  }

  function LinesFor(records: seq<(string, int)>, name: string): multiset<int> {
    if records == [] then multiset{}
    else (if records[0].0 == name then multiset{records[0].1} else multiset{}) + LinesFor(records[1..], name)
  }

  lemma {:induction false} LinesForConcat(a: seq<(string, int)>, b: seq<(string, int)>, name: string)
    ensures LinesFor(a + b, name) == LinesFor(a, name) + LinesFor(b, name)
  {
    if a == [] {
      assert a + b == b;
    } else {
      assert (a + b)[1..] == a[1..] + b;
      LinesForConcat(a[1..], b, name);
    }
  }

  lemma {:induction false} LinesForFlatten(rss: seq<seq<(string, int)>>, ms: seq<multiset<int>>, name: string)
    requires |rss| == |ms| && forall i | 0 <= i < |rss| :: ms[i] == LinesFor(rss[i], name)
    ensures LinesFor(Flatten(rss), name) == Sum(ms)
  {
    if rss == [] {
    } else {
      LinesForFlatten(rss[1..], ms[1..], name);
      LinesForConcat(rss[0], Flatten(rss[1..]), name);
    }
  }

  lemma {:induction false} FileTally(byFn: map<string, seq<int>>, records: seq<(string, int)>, name: string)
    ensures multiset(Filed(File(byFn, records), name)) == multiset(Filed(byFn, name)) + LinesFor(records, name)
    decreases records
  {
    if records == [] {
    } else {
      var (n, line) := records[0];
      FileTally(byFn[n := Filed(byFn, n) + [line]], records[1..], name);
    }
  }

  // Inside a function everything is filed under that function, nested functions included.
  lemma {:induction false} RecordsInside(outer: string, body: seq<Stmt>, name: string)
    ensures LinesFor(RecordsIn(Some(outer), body), name) == if name == outer then TallyB(body, false) else multiset{}
    decreases body
  {
    if body == [] {
    } else {
      RecordsInsideS(outer, body[0], name);
      RecordsInside(outer, body[1..], name);
      LinesForConcat(RecordsOf(Some(outer), body[0]), RecordsIn(Some(outer), body[1..]), name);
    }
  }

  lemma {:induction false} RecordsInsideS(outer: string, s: Stmt, name: string)
    ensures LinesFor(RecordsOf(Some(outer), s), name) == if name == outer then TallyS(s, false) else multiset{}
    decreases s, 0
  {
    if !s.Assert? {
      var rss := RecordLists(Some(outer), s);
      var ms := seq(|rss|, i requires 0 <= i < |rss| => LinesFor(rss[i], name));
      LinesForFlatten(rss, ms, name);
      forall i | 0 <= i < |rss| ensures ms[i] == if name == outer then TallyLists(s, false)[i] else multiset{} {
        RecordsInside(outer, Bodies(s)[i], name);
      }
      if name == outer {
        assert ms == TallyLists(s, false);
      } else {
        SumEmpty(ms);
      }
    }
  }

  lemma {:induction false} SumEmpty(ms: seq<multiset<int>>)
    requires forall i | 0 <= i < |ms| :: ms[i] == multiset{}
    ensures Sum(ms) == multiset{}
  {
    if ms == [] {
    } else {
      SumEmpty(ms[1..]);
    }
  }

  // ── Functions not inside another function ─────────────────────────────────────────────

  function DefsOf(s: Stmt): seq<Stmt>
    decreases s, 1
  {
    if s.FunctionDef? then [s] else Flatten(DefLists(s))
  }

  function DefLists(s: Stmt): (r: seq<seq<Stmt>>)
    ensures |r| == |Bodies(s)|
    ensures forall i | 0 <= i < |r| :: r[i] == DefsIn(Bodies(s)[i])
    decreases s, 0
  {
    seq(|Bodies(s)|, i requires 0 <= i < |Bodies(s)| => DefsIn(Bodies(s)[i]))
  }

  /** The functions of a body that no other function of it encloses. */
  function DefsIn(body: seq<Stmt>): seq<Stmt>
    decreases body
  {
    if body == [] then [] else DefsOf(body[0]) + DefsIn(body[1..])
  }

  lemma {:induction false} DefsAreFunctions(body: seq<Stmt>, d: Stmt)
    requires d in DefsIn(body)
    ensures d.FunctionDef?
    decreases body
  {
    if d in DefsOf(body[0]) {
      DefsAreFunctionsS(body[0], d);
    } else {
      DefsAreFunctions(body[1..], d);
    }
  }

  lemma {:induction false} DefsAreFunctionsS(s: Stmt, d: Stmt)
    requires d in DefsOf(s)
    ensures d.FunctionDef?
    decreases s, 0
  {
    if !s.FunctionDef? {
      var i := InFlatten(DefLists(s), d);
      DefsAreFunctions(Bodies(s)[i], d);
    }
  }

  lemma {:induction false} InFlatten<T>(xss: seq<seq<T>>, x: T) returns (i: nat)
    requires x in Flatten(xss)
    ensures i < |xss| && x in xss[i]
  {
    if x in xss[0] {
      i := 0;
    } else {
      i := InFlatten(xss[1..], x);
      i := i + 1;
    }
  }

  // The bare asserts of the functions in `defs`, those called `name` or all of them.
  function DefTally(defs: seq<Stmt>, name: Option<string>): multiset<int> {
    if defs == [] then multiset{} else DefTallyOf(defs[0], name) + DefTally(defs[1..], name)
  }

  function DefTallyOf(d: Stmt, name: Option<string>): multiset<int> {
    if d.FunctionDef? && (name.None? || d.name == name.value) then TallyB(d.body, false) else multiset{}
  }

  lemma {:induction false} DefTallyConcat(a: seq<Stmt>, b: seq<Stmt>, name: Option<string>)
    ensures DefTally(a + b, name) == DefTally(a, name) + DefTally(b, name)
  {
    if a == [] {
      assert a + b == b;
    } else {
      assert (a + b)[1..] == a[1..] + b;
      DefTallyConcat(a[1..], b, name);
    }
  }

  lemma {:induction false} DefTallyFlatten(dss: seq<seq<Stmt>>, ms: seq<multiset<int>>, name: Option<string>)
    requires |dss| == |ms| && forall i | 0 <= i < |dss| :: ms[i] == DefTally(dss[i], name)
    ensures DefTally(Flatten(dss), name) == Sum(ms)
  {
    if dss == [] {
    } else {
      DefTallyFlatten(dss[1..], ms[1..], name);
      DefTallyConcat(dss[0], Flatten(dss[1..]), name);
    }
  }

  // Outside any function nothing is filed until one is entered.
  lemma {:induction false} RecordsOutside(body: seq<Stmt>, name: string)
    ensures LinesFor(RecordsIn(None, body), name) == DefTally(DefsIn(body), Some(name))
    decreases body
  {
    if body == [] {
    } else {
      RecordsOutsideS(body[0], name);
      RecordsOutside(body[1..], name);
      LinesForConcat(RecordsOf(None, body[0]), RecordsIn(None, body[1..]), name);
      DefTallyConcat(DefsOf(body[0]), DefsIn(body[1..]), Some(name));
    }
  }

  lemma {:induction false} RecordsOutsideS(s: Stmt, name: string)
    ensures LinesFor(RecordsOf(None, s), name) == DefTally(DefsOf(s), Some(name))
    decreases s, 0
  {
    if s.FunctionDef? {
      var rss := RecordLists(Some(s.name), s);
      assert Bodies(s) == [s.body] && rss == [RecordsIn(Some(s.name), s.body)];
      assert rss[1..] == [] && Flatten(rss[1..]) == [];
      assert RecordsOf(None, s) == rss[0];
      RecordsInside(s.name, s.body, name);
      assert DefTally([s], Some(name)) == DefTallyOf(s, Some(name));
    } else if !s.Assert? {
      var rss, dss := RecordLists(None, s), DefLists(s);
      var ms := seq(|rss|, i requires 0 <= i < |rss| => LinesFor(rss[i], name));
      forall i | 0 <= i < |rss| ensures ms[i] == DefTally(dss[i], Some(name)) {
        RecordsOutside(Bodies(s)[i], name);
      }
      LinesForFlatten(rss, ms, name);
      DefTallyFlatten(dss, ms, Some(name));
    }
  }

  // Pruning nested functions leaves out exactly what they hold.
  lemma {:induction false} PrunedPart(body: seq<Stmt>)
    ensures TallyB(body, false) == TallyB(body, true) + DefTally(DefsIn(body), None)
    decreases body
  {
    if body == [] {
    } else {
      PrunedPartS(body[0]);
      PrunedPart(body[1..]);
      DefTallyConcat(DefsOf(body[0]), DefsIn(body[1..]), None);
    }
  }

  lemma {:induction false} PrunedPartS(s: Stmt)
    ensures TallyS(s, false) == TallyS(s, true) + DefTally(DefsOf(s), None)
    decreases s, 0
  {
    if s.FunctionDef? {
      var ms := TallyLists(s, false);
      assert Bodies(s) == [s.body] && ms[1..] == [] && Sum(ms[1..]) == multiset{};
      assert DefTally([s], None) == DefTallyOf(s, None);
    } else if !s.Assert? {
      var dss := DefLists(s);
      var ms := seq(|dss|, i requires 0 <= i < |dss| => DefTally(dss[i], None));
      DefTallyFlatten(dss, ms, None);
      forall i | 0 <= i < |dss| ensures TallyLists(s, false)[i] == TallyLists(s, true)[i] + ms[i] {
        PrunedPart(Bodies(s)[i]);
      }
      SumAdd(TallyLists(s, true), ms, TallyLists(s, false));
    }
  }

  lemma {:induction false} SumAdd(a: seq<multiset<int>>, b: seq<multiset<int>>, c: seq<multiset<int>>)
    requires |a| == |b| == |c| && forall i | 0 <= i < |a| :: c[i] == a[i] + b[i]
    ensures Sum(c) == Sum(a) + Sum(b)
  {
    if a == [] {
    } else {
      SumAdd(a[1..], b[1..], c[1..]);
    }
  }

  ghost predicate NoneIn(defs: seq<Stmt>, name: Option<string>) {
    forall i | 0 <= i < |defs| :: DefTallyOf(defs[i], name) == multiset{}
  }

  lemma {:induction false} DefTallyEmpty(defs: seq<Stmt>, name: Option<string>)
    ensures DefTally(defs, name) == multiset{} <==> NoneIn(defs, name)
  {
    if defs == [] {
    } else {
      DefTallyEmpty(defs[1..], name);
      var a, b := DefTallyOf(defs[0], name), DefTally(defs[1..], name);
      assert a + b == multiset{} <==> a == multiset{} && b == multiset{} by {
        assert forall x :: (a + b)[x] == a[x] + b[x];
      }
      if NoneIn(defs, name) {
        forall i | 0 <= i < |defs[1..]| ensures DefTallyOf(defs[1..][i], name) == multiset{} {
          assert defs[1..][i] == defs[i + 1];
        }
      }
      if DefTally(defs, name) == multiset{} {
        forall i | 0 <= i < |defs| ensures DefTallyOf(defs[i], name) == multiset{} {
          assert i > 0 ==> defs[i] == defs[1..][i - 1];
        }
      }
    }
  }

  lemma DefTallySplit(defs: seq<Stmt>, k: nat, name: Option<string>)
    requires k < |defs|
    ensures DefTally(defs, name) == DefTallyOf(defs[k], name) + DefTally(defs[..k] + defs[k + 1..], name)
  {
    var a, d, b := defs[..k], [defs[k]], defs[k + 1..];
    assert defs == a + (d + b);
    DefTallyConcat(a, d + b, name);
    DefTallyConcat(d, b, name);
    DefTallyConcat(a, b, name);
    assert DefTally(d, name) == DefTallyOf(defs[k], name);
  }

  // What is filed under an outermost function's name: its own, its nested ones', its namesakes'.
  lemma FiledParts(body: seq<Stmt>, k: nat)
    requires k < |DefsIn(body)| && DefsIn(body)[k].FunctionDef?
    ensures
      var defs := DefsIn(body);
      var d := defs[k];
      multiset(Filed(File(map[], RecordsIn(None, body)), d.name)) ==
      TallyB(d.body, true) + DefTally(DefsIn(d.body), None) + DefTally(defs[..k] + defs[k + 1..], Some(d.name))
  {
    var defs := DefsIn(body);
    var d := defs[k];
    FileTally(map[], RecordsIn(None, body), d.name);
    RecordsOutside(body, d.name);
    DefTallySplit(defs, k, Some(d.name));
    PrunedPart(d.body);
  }

  /** The two searches agree. What the walk finds in an outermost function is always part of
      what the rewriter files under its name; it is all of it exactly when no function nested
      in it, and no other outermost function of that name, holds a bare assert. */
  lemma SearchesAgree(body: seq<Stmt>, k: nat)
    requires k < |DefsIn(body)|
    ensures
      var defs := DefsIn(body);
      var d := defs[k];
      && d.FunctionDef?
      && var found := TallyB(d.body, true);
      var filed := multiset(Filed(File(map[], RecordsIn(None, body)), d.name));
      && found <= filed
      && (found == filed <==> NoneIn(DefsIn(d.body), None) && NoneIn(defs[..k] + defs[k + 1..], Some(d.name)))
  {
    var defs := DefsIn(body);
    var d := defs[k];
    DefsAreFunctions(body, d);
    FiledParts(body, k);
    var others := defs[..k] + defs[k + 1..];
    DefTallyEmpty(DefsIn(d.body), None);
    DefTallyEmpty(others, Some(d.name));
    AddedNothing(TallyB(d.body, true), DefTally(DefsIn(d.body), None), DefTally(others, Some(d.name)));
  }

  lemma AddedNothing(a: multiset<int>, b: multiset<int>, c: multiset<int>)
    ensures a <= a + b + c
    ensures a == a + b + c <==> b == multiset{} && c == multiset{}
  {
    if a == a + b + c {
      forall x ensures b[x] == 0 && c[x] == 0 {
        assert (a + b + c)[x] == a[x] + b[x] + c[x];
      }
    }
  }

  // ── The test functions looked at ──────────────────────────────────────────────────────

  predicate IsTestFn(s: Stmt) {
    s.FunctionDef? && "test_" <= s.name
  }

  predicate IsTestClass(s: Stmt) {
    s.ClassDef? && "Test" <= s.name
  }

  // The test functions of a list, in order.
  function TestFns(body: seq<Stmt>): seq<Stmt> {
    if body == [] then []
    else (if IsTestFn(body[0]) then [body[0]] else []) + TestFns(body[1..])
  }

  /** Every definition `walk_test_defs` visits, with its class. */
  function TestDefs(stmts: seq<Stmt>): seq<(Option<string>, Stmt)> {
    if stmts == [] then []
    else
      var s := stmts[0];
      (if IsTestFn(s) then [(None, s)]
       else if IsTestClass(s) then
         var fns := TestFns(s.body);
         seq(|fns|, i requires 0 <= i < |fns| => (Some(s.name), fns[i]))
       else []) + TestDefs(stmts[1..])
  }

  // A test function, where it stands: on its own, or directly in a test class of this name.
  ghost predicate IsTestDef(stmts: seq<Stmt>, cls: Option<string>, d: Stmt) {
    && d.FunctionDef? && "test_" <= d.name
    && if cls.None? then d in stmts
       else exists s | s in stmts :: s.ClassDef? && "Test" <= s.name && s.name == cls.value && d in s.body
  }

  lemma {:induction false} TestFnsMember(body: seq<Stmt>, d: Stmt)
    ensures d in TestFns(body) <==> d in body && d.FunctionDef? && "test_" <= d.name
  {
    if body == [] {
    } else {
      TestFnsMember(body[1..], d);
      assert body == [body[0]] + body[1..];
    }
  }

  lemma TestDefsHere(s: Stmt, rest: seq<Stmt>, cls: Option<string>, d: Stmt)
    ensures (cls, d) in TestDefs([s] + rest) <==> IsTestDef([s], cls, d) || (cls, d) in TestDefs(rest)
  {
    assert ([s] + rest)[1..] == rest && s in [s];
    if IsTestClass(s) {
      var fns := TestFns(s.body);
      TestFnsMember(s.body, d);
      if d in fns {
        var i :| 0 <= i < |fns| && fns[i] == d;
        assert TestDefs([s] + rest)[i] == (Some(s.name), d);
      }
    }
  }

  /** Visited are exactly the test functions, on their own and directly in test classes. */
  lemma {:induction false} TestDefsExactly(stmts: seq<Stmt>, cls: Option<string>, d: Stmt)
    ensures (cls, d) in TestDefs(stmts) <==> IsTestDef(stmts, cls, d)
  {
    if stmts == [] {
    } else {
      TestDefsExactly(stmts[1..], cls, d);
      TestDefsHere(stmts[0], stmts[1..], cls, d);
      assert stmts == [stmts[0]] + stmts[1..];
    }
  }

  /** And in the order of the file. */
  lemma {:induction false} TestDefsInOrder(a: seq<Stmt>, b: seq<Stmt>)
    ensures TestDefs(a + b) == TestDefs(a) + TestDefs(b)
  {
    if a == [] {
      assert a + b == b;
    } else {
      assert (a + b)[1..] == a[1..] + b;
      TestDefsInOrder(a[1..], b);
    }
  }

  lemma {:induction false} TestFnsAreOutermost(body: seq<Stmt>, d: Stmt)
    requires d in TestFns(body)
    ensures d in DefsIn(body)
  {
    if IsTestFn(body[0]) && d == body[0] {
      assert d in DefsOf(body[0]);
    } else {
      TestFnsAreOutermost(body[1..], d);
    }
  }

  /** Every visited definition is an outermost one, so `SearchesAgree` covers it. */
  lemma {:induction false} TestDefsAreOutermost(stmts: seq<Stmt>, c: Option<string>, d: Stmt)
    requires (c, d) in TestDefs(stmts)
    ensures d in DefsIn(stmts)
  {
    var s := stmts[0];
    if (c, d) in TestDefs(stmts[1..]) {
      TestDefsAreOutermost(stmts[1..], c, d);
    } else if IsTestFn(s) {
      assert d == s;
    } else {
      assert d in TestFns(s.body);
      TestFnsAreOutermost(s.body, d);
      assert Bodies(s) == [s.body];
      FlattenMember(DefLists(s), 0, d);
    }
  }

  function NodeIdOf(path: string, cls: Option<string>, d: Stmt): string
    requires d.FunctionDef?
  {
    if cls.Some? then path + "::" + cls.value + "::" + d.name else path + "::" + d.name
  }

  lemma {:induction false} TestDefsAreFunctions(stmts: seq<Stmt>)
    ensures forall i | 0 <= i < |TestDefs(stmts)| :: TestDefs(stmts)[i].1.FunctionDef?
    ensures forall source | Located(stmts, source) ::
      forall i | 0 <= i < |TestDefs(stmts)| :: Located(TestDefs(stmts)[i].1.body, source)
  {
    if stmts == [] {
    } else {
      TestDefsAreFunctions(stmts[1..]);
      var s := stmts[0];
      if IsTestFn(s) {
        forall source | LocatedS(s, source) ensures Located(s.body, source) {
          assert CompoundLists(s)[0] == s.body;
        }
      } else if IsTestClass(s) {
        TestFnsShape(s.body);
        forall source | LocatedS(s, source) ensures Located(s.body, source) {
          assert CompoundLists(s)[0] == s.body;
        }
      }
    }
  }

  lemma {:induction false} TestFnsShape(body: seq<Stmt>)
    ensures forall i | 0 <= i < |TestFns(body)| :: TestFns(body)[i].FunctionDef?
    ensures forall source | Located(body, source) ::
      forall i | 0 <= i < |TestFns(body)| :: Located(TestFns(body)[i].body, source)
  {
    if body == [] {
    } else {
      TestFnsShape(body[1..]);
      var s := body[0];
      if IsTestFn(s) {
        forall source | LocatedS(s, source) ensures Located(s.body, source) {
          assert CompoundLists(s)[0] == s.body;
        }
      }
    }
  }

  ghost predicate Entry(path: string, visited: (Option<string>, Stmt), e: (string, seq<int>)) {
    && visited.1.FunctionDef?
    && e.0 == NodeIdOf(path, visited.0, visited.1)
    && Sorted(e.1) && multiset(e.1) == TallyB(visited.1.body, true)
  }

  /** One entry per visited definition that holds a bare assert of its own, in order. */
  /** An entry is filed under the test's own ID. */
  lemma EntryNamed(path: string, cls: Option<string>, d: Stmt, e: (string, seq<int>))
    requires Entry(path, (cls, d), e)
    ensures cls.None? ==> e.0 == path + ("::" + d.name)
    ensures cls.Some? ==> e.0 == path + ("::" + cls.value + ("::" + d.name))
  {
  }

  ghost predicate Entries(path: string, visited: seq<(Option<string>, Stmt)>, found: seq<(string, seq<int>)>)
    requires forall i | 0 <= i < |visited| :: visited[i].1.FunctionDef?
  {
    if visited == [] then found == []
    else
      var n := |visited| - 1;
      if TallyB(visited[n].1.body, true) == multiset{} then Entries(path, visited[..n], found)
      else
        && found != []
        && Entry(path, visited[n], found[|found| - 1])
        && Entries(path, visited[..n], found[..|found| - 1])
  }

  method FindBareAsserts(path: string, stmts: seq<Stmt>, index: seq<nat>, ghost source: seq<Byte>)
    returns (found: seq<(string, seq<int>)>)
    requires Increasing(index) && |index| < U32 && index == Starts(source) && Located(stmts, source)
    ensures (forall i | 0 <= i < |TestDefs(stmts)| :: TestDefs(stmts)[i].1.FunctionDef?) && Entries(path, TestDefs(stmts), found)
  {
    var defs := TestDefs(stmts);
    TestDefsAreFunctions(stmts);
    found := [];
    for i := 0 to |defs|
      invariant Entries(path, defs[..i], found)
    {
      var (cls, d) := defs[i];
      var lines := WalkBareAsserts(d.body, index, source);
      assert defs[..i + 1][..i] == defs[..i];
      if lines != [] {
        assert lines[0] in multiset(lines);
        ghost var before := found;
        found := found + [(NodeIdOf(path, cls, d), lines)];
        assert found[..|found| - 1] == before;
      }
    }
    assert defs[..|defs|] == defs;
  }
}
