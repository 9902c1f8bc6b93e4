/**
 Extraction of the fixture accesses a test body makes through its proxy parameter
 (`extract_fx_usages`, `collect_fx_usages` in `src/prescan.rs`, over the child enumerators of
 `src/python_ast.rs`).
 */
module FxUsages {
  import opened Options
  import opened PyAst
  import opened Rewriter
  import opened LineIndex
  import opened BareAsserts

  datatype FxUsage = FxUsage(namespace: Option<string>, name: string, lineno: nat)

  // ── What the enumerators reach ────────────────────────────────────────────────────────

  function StmtExprs(s: Stmt): seq<Expr> {
    match s
    case ExprStmt(e) => [e]
    case Return(e) => OptExpr(e)
    case Assign(t, e) => [t, e]
    case If(t, _, _) => [t]
    case While(t, _, _) => [t]
    case For(t, i, _, _) => [t, i]
    case With(c, t, _) => [c] + OptExpr(t)
    case Raise(e) => [e]
    case Assert(t, m, _, _) => [t] + OptExpr(m)
    case Match(e, _) => [e]
    case Try(_, hs, _, _) => Flatten(seq(|hs|, i requires 0 <= i < |hs| => OptExpr(hs[i].kind)))
    case FunctionDef(_, _, _, ds, _) => ds
    case ClassDef(_, bases, ds, _) => ds + bases
    case _ => []
  }

  // The target of a walrus is a bare name, which holds no access, so only its value is listed.
  function ExprChildren(e: Expr): seq<Expr> {
    match e
    case Name(_) => []
    case Constant(_) => []
    case Attribute(b, _, _) => [b]
    case Compare(l, _, cs) => [l] + cs
    case BoolOp(_, es) => es
    case Not(b) => [b]
    case NamedExpr(_, b) => [b]
    case IfExp(c, t, f) => [c, t, f]
    case Call(fn, args) => [fn] + args
    case Lambda(_, b) => [b]
    case Operation(_, es) => es
  }

  lemma ChildIsSmaller(e: Expr, i: nat)
    requires i < |ExprChildren(e)|
    ensures e decreases to ExprChildren(e)[i]
    ensures !e.Name?
  {
  }

  /** `c` stands directly inside `e`. */
  ghost predicate ChildExpr(e: Expr, c: Expr) {
    || (e.Attribute? && c == e.value)
    || (e.Compare? && (c == e.left || c in e.comparators))
    || (e.BoolOp? && c in e.values)
    || (e.Not? && c == e.operand)
    || (e.NamedExpr? && c == e.bound)
    || (e.IfExp? && (c == e.test || c == e.thn || c == e.els))
    || (e.Call? && (c == e.func || c in e.args))
    || (e.Lambda? && c == e.body)
    || (e.Operation? && c in e.operands)
  }

  /** The enumerator reaches every expression directly inside another. */
  lemma ChildrenExactly(e: Expr, c: Expr)
    ensures c in ExprChildren(e) <==> ChildExpr(e, c)
  {
  }

  /** `e` stands directly in the statement `s`, outside its lists. */
  ghost predicate OwnExpr(s: Stmt, e: Expr) {
    || ((s.ExprStmt? || s.Assign?) && e == s.value)
    || ((s.Assign? || s.For?) && e == s.target)
    || (s.Return? && s.result == Some(e))
    || ((s.If? || s.While? || s.Assert?) && e == s.test)
    || (s.For? && e == s.iter)
    || (s.With? && (e == s.context || s.asTarget == Some(e)))
    || (s.Raise? && e == s.exc)
    || (s.Assert? && s.msg == Some(e))
    || (s.Match? && e == s.subject)
    || (s.Try? && exists h | h in s.handlers :: h.kind == Some(e))
    || (s.FunctionDef? && e in s.decorators)
    || (s.ClassDef? && (e in s.decorators || e in s.bases))
  }

  lemma OwnExprsExactly(s: Stmt, e: Expr)
    ensures e in StmtExprs(s) <==> OwnExpr(s, e)
  {
    if s.Try? {
      var kinds := seq(|s.handlers|, i requires 0 <= i < |s.handlers| => OptExpr(s.handlers[i].kind));
      FlattenMembers(kinds, e);
      if h :| h in s.handlers && h.kind == Some(e) {
        var i :| 0 <= i < |s.handlers| && s.handlers[i] == h;
        assert e in kinds[i];
      }
      if i :| 0 <= i < |kinds| && e in kinds[i] {
        assert s.handlers[i] in s.handlers;
      }
    }
  }

  // ── The reference: every attribute whose base is a proxy, where it stands ─────────────

  predicate IsProxyRoot(e: Expr, proxies: seq<string>) {
    e.Name? && e.id in proxies
  }

  /** The accesses in `e`, outermost first. `around` is the attribute `e` is the base of, if
      any: it is what makes an access qualified. */
  function Accesses(e: Expr, around: Option<Expr>, proxies: seq<string>, index: seq<nat>): seq<FxUsage>
    decreases e, 1
  {
    (if e.Attribute? && e.value.Name? && e.value.id in proxies then
       if around.Some? && around.value.Attribute? then
         [FxUsage(Some(e.attr), around.value.attr, LineAt(index, around.value.start))]
       else
         [FxUsage(None, e.attr, LineAt(index, e.start))]
     else [])
    + Flatten(ChildAccesses(e, proxies, index))
  }

  function ChildAccesses(e: Expr, proxies: seq<string>, index: seq<nat>): (r: seq<seq<FxUsage>>)
    ensures |r| == |ExprChildren(e)|
    decreases e, 0
  {
    seq(|ExprChildren(e)|, i requires 0 <= i < |ExprChildren(e)| =>
      ChildIsSmaller(e, i);
      Accesses(ExprChildren(e)[i], if e.Attribute? then Some(e) else None, proxies, index))
  }

  function AccessesAll(es: seq<Expr>, proxies: seq<string>, index: seq<nat>): seq<FxUsage> {
    if es == [] then [] else Accesses(es[0], None, proxies, index) + AccessesAll(es[1..], proxies, index)
  }

  // ── The recursive collector ───────────────────────────────────────────────────────────

  lemma NameHasNone(e: Expr, around: Option<Expr>, proxies: seq<string>, index: seq<nat>)
    requires e.Name?
    ensures Accesses(e, around, proxies, index) == []
  {
    assert ChildAccesses(e, proxies, index) == [];
  }

  lemma AttributeAccesses(e: Expr, proxies: seq<string>, index: seq<nat>)
    requires e.Attribute?
    ensures Flatten(ChildAccesses(e, proxies, index)) == Accesses(e.value, Some(e), proxies, index)
  {
    var r := ChildAccesses(e, proxies, index);
    assert r == [Accesses(e.value, Some(e), proxies, index)];
    assert Flatten(r[1..]) == [];
  }

  // The qualified form: the inner access is reported as part of it, and holds nothing else.
  lemma QualifiedAccess(e: Expr, proxies: seq<string>, index: seq<nat>)
    requires e.Attribute? && e.value.Attribute? && IsProxyRoot(e.value.value, proxies)
    ensures Accesses(e, None, proxies, index) == [FxUsage(Some(e.value.attr), e.attr, LineAt(index, e.start))]
  {
    AttributeAccesses(e, proxies, index);
    AttributeAccesses(e.value, proxies, index);
    NameHasNone(e.value.value, Some(e.value), proxies, index);
  }

  lemma ShortcutAccess(e: Expr, proxies: seq<string>, index: seq<nat>)
    requires e.Attribute? && IsProxyRoot(e.value, proxies)
    ensures Accesses(e, None, proxies, index) == [FxUsage(None, e.attr, LineAt(index, e.start))]
  {
    AttributeAccesses(e, proxies, index);
    NameHasNone(e.value, Some(e), proxies, index);
  }

  /** The collector stops at the first form that matches, yet reports every access exactly
      once, qualified if and only if the attribute is itself the base of another. */
  method CollectFxUsages(e: Expr, proxies: seq<string>, index: seq<nat>, usages: seq<FxUsage>)
    returns (out: seq<FxUsage>)
    requires Increasing(index) && |index| < U32
    ensures out == usages + Accesses(e, None, proxies, index)
    decreases e, 1
  {
    if e.Attribute? {
      if e.value.Attribute? && IsProxyRoot(e.value.value, proxies) {
        QualifiedAccess(e, proxies, index);
        var line := OffsetToLine(index, e.start);
        return usages + [FxUsage(Some(e.value.attr), e.attr, line)];
      }
      if IsProxyRoot(e.value, proxies) {
        ShortcutAccess(e, proxies, index);
        var line := OffsetToLine(index, e.start);
        return usages + [FxUsage(None, e.attr, line)];
      }
    }
    out := CollectChildren(e, proxies, index, usages);
  }

  method CollectChildren(e: Expr, proxies: seq<string>, index: seq<nat>, usages: seq<FxUsage>)
    returns (out: seq<FxUsage>)
    requires Increasing(index) && |index| < U32
    requires e.Attribute? ==> !(e.value.Attribute? && IsProxyRoot(e.value.value, proxies))
    ensures out == usages + Flatten(ChildAccesses(e, proxies, index))
    decreases e, 0
  {
    out := usages;
    var children := ExprChildren(e);
    ghost var parts := ChildAccesses(e, proxies, index);
    ghost var done: seq<FxUsage> := [];
    for i := 0 to |children|
      invariant done == Flatten(parts[..i])
      invariant out == usages + done
    {
      FlattenSnoc(parts, i);
      ChildPart(e, proxies, index, i);
      out := CollectFxUsages(children[i], proxies, index, out);
      AppendAssoc(usages, done, parts[i]);
      done := done + parts[i];
    }
    assert parts[..|children|] == parts;
  }

  lemma AppendAssoc<T>(a: seq<T>, b: seq<T>, c: seq<T>)
    ensures (a + b) + c == a + (b + c)
  {
  }

  // A child that is no proxy access itself does not care what stands around it.
  lemma ChildPart(e: Expr, proxies: seq<string>, index: seq<nat>, i: nat)
    requires i < |ExprChildren(e)|
    requires e.Attribute? ==> !(e.value.Attribute? && IsProxyRoot(e.value.value, proxies))
    ensures ChildAccesses(e, proxies, index)[i] == Accesses(ExprChildren(e)[i], None, proxies, index)
    ensures e decreases to ExprChildren(e)[i]
  {
    ChildIsSmaller(e, i);
  }

  // ── The stack walk ────────────────────────────────────────────────────────────────────

  function SumU(ms: seq<multiset<FxUsage>>): multiset<FxUsage> {
    if ms == [] then multiset{} else ms[0] + SumU(ms[1..])
  }

  /** Every access of a statement and of everything below it, each counted once. */
  function UsesS(s: Stmt, proxies: seq<string>, index: seq<nat>): multiset<FxUsage>
    decreases s, 1
  {
    multiset(AccessesAll(StmtExprs(s), proxies, index)) + SumU(UseLists(s, proxies, index))
  }

  function UseLists(s: Stmt, proxies: seq<string>, index: seq<nat>): (r: seq<multiset<FxUsage>>)
    ensures |r| == |CompoundLists(s)|
    ensures forall i | 0 <= i < |r| :: r[i] == UsesB(CompoundLists(s)[i], proxies, index)
    decreases s, 0
  {
    seq(|CompoundLists(s)|, i requires 0 <= i < |CompoundLists(s)| => UsesB(CompoundLists(s)[i], proxies, index))
  }

  function UsesB(body: seq<Stmt>, proxies: seq<string>, index: seq<nat>): multiset<FxUsage>
    decreases body
  {
    if body == [] then multiset{} else UsesS(body[0], proxies, index) + UsesB(body[1..], proxies, index)
  }

  lemma {:induction false} UsesConcat(a: seq<Stmt>, b: seq<Stmt>, proxies: seq<string>, index: seq<nat>)
    ensures UsesB(a + b, proxies, index) == UsesB(a, proxies, index) + UsesB(b, proxies, index)
    decreases a
  {
    if a == [] {
      assert a + b == b;
    } else {
      assert (a + b)[1..] == a[1..] + b;
      UsesConcat(a[1..], b, proxies, index);
    }
  }

  lemma {:induction false} UsesFlatten(lists: seq<seq<Stmt>>, ms: seq<multiset<FxUsage>>, proxies: seq<string>, index: seq<nat>)
    requires |lists| == |ms| && forall i | 0 <= i < |lists| :: ms[i] == UsesB(lists[i], proxies, index)
    ensures UsesB(Flatten(lists), proxies, index) == SumU(ms)
    decreases lists
  {
    if lists == [] {
    } else {
      UsesFlatten(lists[1..], ms[1..], proxies, index);
      UsesConcat(lists[0], Flatten(lists[1..]), proxies, index);
    }
  }

  lemma {:induction false} AccessesAllStep(es: seq<Expr>, k: nat, proxies: seq<string>, index: seq<nat>)
    requires k < |es|
    ensures AccessesAll(es[..k + 1], proxies, index) == AccessesAll(es[..k], proxies, index) + Accesses(es[k], None, proxies, index)
    decreases k
  {
    if k == 0 {
      assert es[..1] == [es[0]] && es[..1][1..] == [];
    } else {
      assert es[..k + 1][1..] == es[1..][..k] && es[..k][1..] == es[1..][..k - 1];
      AccessesAllStep(es[1..], k - 1, proxies, index);
    }
  }

  lemma {:induction false} NoProxiesE(e: Expr, around: Option<Expr>, index: seq<nat>)
    ensures Accesses(e, around, [], index) == []
    decreases e
  {
    var parts := ChildAccesses(e, [], index);
    forall i | 0 <= i < |parts| ensures parts[i] == [] {
      ChildIsSmaller(e, i);
      NoProxiesE(ExprChildren(e)[i], if e.Attribute? then Some(e) else None, index);
    }
    FlattenEmpty(parts);
  }

  lemma {:induction false} NoProxiesAll(es: seq<Expr>, index: seq<nat>)
    ensures AccessesAll(es, [], index) == []
  {
    if es == [] {
    } else {
      NoProxiesE(es[0], None, index);
      NoProxiesAll(es[1..], index);
    }
  }

  lemma {:induction false} NoProxies(body: seq<Stmt>, index: seq<nat>)
    ensures UsesB(body, [], index) == multiset{}
    decreases body
  {
    if body == [] {
    } else {
      NoProxiesS(body[0], index);
      NoProxies(body[1..], index);
    }
  }

  lemma {:induction false} NoProxiesS(s: Stmt, index: seq<nat>)
    ensures UsesS(s, [], index) == multiset{}
    decreases s, 0
  {
    NoProxiesAll(StmtExprs(s), index);
    forall i | 0 <= i < |CompoundLists(s)| ensures UsesB(CompoundLists(s)[i], [], index) == multiset{} {
      NoProxies(CompoundLists(s)[i], index);
    }
    SumUEmpty(UseLists(s, [], index));
  }

  lemma {:induction false} SumUEmpty(ms: seq<multiset<FxUsage>>)
    requires forall i | 0 <= i < |ms| :: ms[i] == multiset{}
    ensures SumU(ms) == multiset{}
  {
    if ms == [] {
    } else {
      SumUEmpty(ms[1..]);
    }
  }

  method CollectAll(es: seq<Expr>, proxies: seq<string>, index: seq<nat>, usages: seq<FxUsage>)
    returns (out: seq<FxUsage>)
    requires Increasing(index) && |index| < U32
    ensures out == usages + AccessesAll(es, proxies, index)
  {
    out := usages;
    ghost var done: seq<FxUsage> := [];
    for i := 0 to |es|
      invariant done == AccessesAll(es[..i], proxies, index)
      invariant out == usages + done
    {
      AccessesAllStep(es, i, proxies, index);
      ghost var more := Accesses(es[i], None, proxies, index);
      out := CollectFxUsages(es[i], proxies, index, out);
      assert (usages + done) + more == usages + (done + more);
      done := done + more;
    }
    assert es[..|es|] == es;
  }

  lemma UsesPop(rest: seq<Stmt>, s: Stmt, proxies: seq<string>, index: seq<nat>)
    ensures UsesB(rest + [s], proxies, index)
         == multiset(AccessesAll(StmtExprs(s), proxies, index)) + UsesB(rest + CompoundChildren(s), proxies, index)
  {
    UsesConcat(rest, [s], proxies, index);
    assert UsesB([s], proxies, index) == UsesS(s, proxies, index);
    UsesFlatten(CompoundLists(s), UseLists(s, proxies, index), proxies, index);
    UsesConcat(rest, CompoundChildren(s), proxies, index);
  }

  lemma WalkStep(before: seq<FxUsage>, after: seq<FxUsage>, rest: seq<Stmt>, s: Stmt, proxies: seq<string>, index: seq<nat>)
    requires after == before + AccessesAll(StmtExprs(s), proxies, index)
    ensures multiset(after) + UsesB(rest + CompoundChildren(s), proxies, index)
         == multiset(before) + UsesB(rest + [s], proxies, index)
  {
    UsesPop(rest, s, proxies, index);
  }

  // One turn of the walk: the top statement is popped, its accesses reported, its children pushed.
  method VisitTop(stmts: seq<Stmt>, proxies: seq<string>, index: seq<nat>, usages: seq<FxUsage>)
    returns (stmts': seq<Stmt>, usages': seq<FxUsage>)
    requires Increasing(index) && |index| < U32 && stmts != []
    ensures SizeB(stmts') < SizeB(stmts)
    ensures multiset(usages') + UsesB(stmts', proxies, index) == multiset(usages) + UsesB(stmts, proxies, index)
  {
    var s, rest := stmts[|stmts| - 1], stmts[..|stmts| - 1];
    assert stmts == rest + [s];
    SizeShrinks(rest, s);
    usages' := CollectAll(StmtExprs(s), proxies, index, usages);
    WalkStep(usages, usages', rest, s, proxies, index);
    stmts' := rest + CompoundChildren(s);
  }

  /** The explicit-stack walk terminates and reports every access below `body` exactly once,
      nested definitions included. */
  method ExtractFxUsages(body: seq<Stmt>, proxies: seq<string>, index: seq<nat>)
    returns (usages: seq<FxUsage>)
    requires Increasing(index) && |index| < U32
    ensures multiset(usages) == UsesB(body, proxies, index)
  {
    if proxies == [] {
      NoProxies(body, index);
      return [];
    }
    usages := [];
    var stmts := body;
    while stmts != []
      invariant multiset(usages) + UsesB(stmts, proxies, index) == UsesB(body, proxies, index)
      decreases SizeB(stmts)
    {
      stmts, usages := VisitTop(stmts, proxies, index, usages);
    }
  }

  // ── How many ──────────────────────────────────────────────────────────────────────────

  // The attributes in `e` whose base is a proxy, form by form.
  ghost function ProxyAttributes(e: Expr, proxies: seq<string>): nat {
    match e
    case Name(_) => 0
    case Constant(_) => 0
    case Attribute(b, _, _) => ProxyAttributes(b, proxies) + if b.Name? && b.id in proxies then 1 else 0
    case Compare(l, _, cs) => ProxyAttributes(l, proxies) + ProxyAttributesAll(cs, proxies)
    case BoolOp(_, es) => ProxyAttributesAll(es, proxies)
    case Not(b) => ProxyAttributes(b, proxies)
    case NamedExpr(_, b) => ProxyAttributes(b, proxies)
    case IfExp(c, t, f) => ProxyAttributes(c, proxies) + ProxyAttributes(t, proxies) + ProxyAttributes(f, proxies)
    case Call(fn, args) => ProxyAttributes(fn, proxies) + ProxyAttributesAll(args, proxies)
    case Lambda(_, b) => ProxyAttributes(b, proxies)
    case Operation(_, es) => ProxyAttributesAll(es, proxies)
  }

  ghost function ProxyAttributesAll(es: seq<Expr>, proxies: seq<string>): nat {
    if es == [] then 0 else ProxyAttributes(es[0], proxies) + ProxyAttributesAll(es[1..], proxies)
  }

  ghost function Lengths<T>(xss: seq<seq<T>>): nat {
    if xss == [] then 0 else |xss[0]| + Lengths(xss[1..])
  }

  lemma {:induction false} FlattenLength<T>(xss: seq<seq<T>>)
    ensures |Flatten(xss)| == Lengths(xss)
  {
    if xss == [] {
    } else {
      FlattenLength(xss[1..]);
    }
  }

  // Lists as long as there are accesses in the expressions.
  lemma {:induction false} LengthsAre(es: seq<Expr>, xss: seq<seq<FxUsage>>, proxies: seq<string>)
    requires |es| == |xss| && forall i | 0 <= i < |es| :: |xss[i]| == ProxyAttributes(es[i], proxies)
    ensures Lengths(xss) == ProxyAttributesAll(es, proxies)
  {
    if es == [] {
    } else {
      LengthsAre(es[1..], xss[1..], proxies);
    }
  }

  lemma ChildrenCount(e: Expr, proxies: seq<string>)
    ensures ProxyAttributes(e, proxies) ==
      ProxyAttributesAll(ExprChildren(e), proxies) + if e.Attribute? && e.value.Name? && e.value.id in proxies then 1 else 0
  {
    match e
    case Attribute(b, _, _) => assert [b][1..] == [];
    case Compare(l, _, cs) => assert ([l] + cs)[1..] == cs;
    case Not(b) => assert [b][1..] == [];
    case NamedExpr(_, b) => assert [b][1..] == [];
    case IfExp(c, t, f) =>
      assert [c, t, f][1..] == [t, f] && [t, f][1..] == [f] && [f][1..] == [];
      assert ProxyAttributesAll([f], proxies) == ProxyAttributes(f, proxies);
      assert ProxyAttributesAll([t, f], proxies) == ProxyAttributes(t, proxies) + ProxyAttributes(f, proxies);
    case Call(fn, args) => assert ([fn] + args)[1..] == args;
    case Lambda(_, b) => assert [b][1..] == [];
    case _ =>
  }

  /** As many accesses are reported as attributes of proxies stand in the expression. */
  lemma {:induction false} AccessCount(e: Expr, around: Option<Expr>, proxies: seq<string>, index: seq<nat>)
    ensures |Accesses(e, around, proxies, index)| == ProxyAttributes(e, proxies)
    decreases e
  {
    var parts, children := ChildAccesses(e, proxies, index), ExprChildren(e);
    forall i | 0 <= i < |children| ensures |parts[i]| == ProxyAttributes(children[i], proxies) {
      ChildIsSmaller(e, i);
      AccessCount(children[i], if e.Attribute? then Some(e) else None, proxies, index);
    }
    LengthsAre(children, parts, proxies);
    FlattenLength(parts);
    ChildrenCount(e, proxies);
  }
}
