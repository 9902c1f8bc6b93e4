/**
 Rewriting preserves meaning: a program and its rewrite, started in related states, ask the
 same questions of the world in the same order and end alike, temporaries aside. The proof
 follows the interpreter clause by clause.
 */
module RewriteMeaning {
  import opened Options
  import opened PyAst
  import opened Rewriter
  import opened PySemantics
  import opened RewriteRelation

  // ── The outside, which may call back ──────────────────────────────────────────────────

  lemma {:induction false} SimOutside(fuel: nat, w: World, ev: Event, s1: State, s2: State, s0: State, g: int)
    requires Rel(s1, s2) && Kept(s0, s2, g)
    ensures Sim(Outside(fuel, w, ev, s1), Outside(fuel, w, ev, s2), s0, g)
    decreases fuel, 0, 0
  {
    RelAsked(ev, s1, s2, s0, g);
    var t1, t2 := Asked(s1, ev), Asked(s2, ev);
    match w(ev, s1.trace)
    case Returns(_) =>
    case Raises(cls, args) => RelThrow<Option<Value>>(ExcObj(cls, args, None), t1, t2, s0, g);
    case Throws(x) => RelRaiseExisting<Option<Value>>(x, t1, t2, s0, g);
    case Stops =>
    case Calls(fv, args) =>
      if fuel > 0 {
        SimApply(fuel - 1, w, fv, args, t1, t2, s0, g);
        SimResume(fuel - 1, w, Apply(fuel - 1, w, fv, args, t1), Apply(fuel - 1, w, fv, args, t2), s0, g);
      }
  }

  lemma {:induction false} SimResume(fuel: nat, w: World, r1: R<Value>, r2: R<Value>, s0: State, g: int)
    requires Sim(r1, r2, s0, g)
    ensures Sim(Resume(fuel, w, r1), Resume(fuel, w, r2), s0, g)
    decreases fuel, 0, 1
  {
    match r1
    case Done(v, t1) => SimOutside(fuel, w, Did("returned", "", [v]), t1, r2.st, s0, g);
    case Exn(x, t1) => SimOutside(fuel, w, Did("raised", "", [x]), t1, r2.st, s0, g);
    case Diverge =>
  }

  lemma {:induction false} SimAsk(fuel: nat, w: World, kind: string, detail: string, args: seq<Value>,
                                  s1: State, s2: State, s0: State, g: int)
    requires Rel(s1, s2) && Kept(s0, s2, g)
    ensures Sim(Ask(fuel, w, kind, detail, args, s1), Ask(fuel, w, kind, detail, args, s2), s0, g)
    decreases fuel, 0, 1
  {
    SimOutside(fuel, w, Did(kind, detail, args), s1, s2, s0, g);
  }

  lemma {:induction false} SimTruth(fuel: nat, w: World, v: Value, s1: State, s2: State, s0: State, g: int)
    requires Rel(s1, s2) && Kept(s0, s2, g)
    ensures Sim(Truth(fuel, w, v, s1), Truth(fuel, w, v, s2), s0, g)
    decreases fuel, 0, 2
  {
    SimAsk(fuel, w, "truth", "", [v], s1, s2, s0, g);
  }

  lemma {:induction false} SimGetAttr(fuel: nat, w: World, v: Value, attr: string, s1: State, s2: State, s0: State, g: int)
    requires Rel(s1, s2) && Kept(s0, s2, g) && attr !in RESERVED
    ensures Sim(GetAttr(fuel, w, v, attr, s1), GetAttr(fuel, w, v, attr, s2), s0, g)
    decreases fuel, 0, 2
  {
    SimAsk(fuel, w, "getattr", attr, [v], s1, s2, s0, g);
    if v.ClassV? && v.frame < |s1.frames| {
      FrameVar(s1.frames[v.frame], s2.frames[v.frame], attr);
    }
  }

  lemma {:induction false} SimSetAttr(fuel: nat, w: World, o: Value, attr: string, v: Value, s1: State, s2: State, s0: State, g: int)
    requires Rel(s1, s2) && Kept(s0, s2, g) && attr !in RESERVED
    ensures Sim(SetAttr(fuel, w, o, attr, v, s1), SetAttr(fuel, w, o, attr, v, s2), s0, g)
    decreases fuel, 0, 2
  {
    SimAsk(fuel, w, "setattr", attr, [o, v], s1, s2, s0, g);
    if o.ClassV? && o.frame < |s1.frames| {
      RelSetVar(s1, s2, o.frame, attr, v, s0, g);
    }
  }

  lemma {:induction false} SimReadName(fuel: nat, w: World, x: string, f: nat, s1: State, s2: State, s0: State, g: int)
    requires Rel(s1, s2) && Kept(s0, s2, g) && x !in RESERVED
    ensures Sim(ReadName(fuel, w, x, f, s1), ReadName(fuel, w, x, f, s2), s0, g)
    decreases fuel, 0, 2
  {
    RelResolve(s1, s2, f, x, true);
    SimAsk(fuel, w, "name", x, [], s1, s2, s0, g);
    RelThrow<Value>(ExcObj("UnboundLocalError", [StrV(x)], None), s1, s2, s0, g);
  }

  lemma {:induction false} SimBindFetched(fuel: nat, w: World, kind: string, v: Value, aliases: seq<Alias>, f: nat,
                                          s1: State, s2: State, s0: State, g: int)
    requires Rel(s1, s2) && Kept(s0, s2, g) && CleanAliases(aliases)
    ensures Sim(BindFetched(fuel, w, kind, v, aliases, f, s1), BindFetched(fuel, w, kind, v, aliases, f, s2), s0, g)
    decreases fuel, 0, 2, |aliases|
  {
    if aliases == [] {
    } else {
      SimAsk(fuel, w, kind, aliases[0].source, [v], s1, s2, s0, g);
      var r1, r2 := Ask(fuel, w, kind, aliases[0].source, [v], s1), Ask(fuel, w, kind, aliases[0].source, [v], s2);
      if r1.Done? {
        var x := aliases[0].bound;
        RelBind(r1.st, r2.st, f, x, r1.value, s0, g);
        SimBindFetched(fuel, w, kind, v, aliases[1..], f, Bind(r1.st, f, x, r1.value), Bind(r2.st, f, x, r2.value), s0, g);
      }
    }
  }

  // ── Expressions (the rewriter moves them but never changes them) ──────────────────────

  lemma {:induction false} SimEval(fuel: nat, w: World, e: Expr, f: nat, s1: State, s2: State, s0: State, g: int)
    requires Rel(s1, s2) && Kept(s0, s2, g) && CleanE(e)
    ensures Sim(Eval(fuel, w, e, f, s1), Eval(fuel, w, e, f, s2), s0, g)
    decreases fuel, 1, e, 1
  {
    match e
    case Name(x) => SimReadName(fuel, w, x, f, s1, s2, s0, g);
    case Constant(_) =>
    case Attribute(_, _, _) => SimAttribute(fuel, w, e, f, s1, s2, s0, g);
    case Compare(_, _, _) => SimCompare(fuel, w, e, f, s1, s2, s0, g);
    case BoolOp(isAnd, es) => SimBool(fuel, w, isAnd, es, f, s1, s2, s0, g);
    case Not(_) => SimNot(fuel, w, e, f, s1, s2, s0, g);
    case NamedExpr(_, _) => SimNamed(fuel, w, e, f, s1, s2, s0, g);
    case IfExp(_, _, _) => SimIfExp(fuel, w, e, f, s1, s2, s0, g);
    case Call(_, _) => SimCall(fuel, w, e, f, s1, s2, s0, g);
    case Lambda(_, _) => SimLambda(fuel, w, e, f, s1, s2, s0, g);
    case Operation(_, _) => SimOperation(fuel, w, e, f, s1, s2, s0, g);
  }

  lemma {:induction false} SimNamed(fuel: nat, w: World, e: Expr, f: nat, s1: State, s2: State, s0: State, g: int)
    requires Rel(s1, s2) && Kept(s0, s2, g) && e.NamedExpr? && CleanE(e)
    ensures Sim(Eval(fuel, w, e, f, s1), Eval(fuel, w, e, f, s2), s0, g)
    decreases fuel, 1, e, 0
  {
    SimEval(fuel, w, e.bound, f, s1, s2, s0, g);
    var r1, r2 := Eval(fuel, w, e.bound, f, s1), Eval(fuel, w, e.bound, f, s2);
    if r1.Done? {
      RelBind(r1.st, r2.st, f, e.target, r1.value, s0, g);
    }
  }

  lemma {:induction false} SimOperation(fuel: nat, w: World, e: Expr, f: nat, s1: State, s2: State, s0: State, g: int)
    requires Rel(s1, s2) && Kept(s0, s2, g) && e.Operation? && CleanE(e)
    ensures Sim(Eval(fuel, w, e, f, s1), Eval(fuel, w, e, f, s2), s0, g)
    decreases fuel, 1, e, 0
  {
    SimAll(fuel, w, e.operands, f, s1, s2, s0, g);
    var r1, r2 := EvalAll(fuel, w, e.operands, f, s1), EvalAll(fuel, w, e.operands, f, s2);
    if r1.Done? {
      SimAsk(fuel, w, "operation", e.op, r1.value, r1.st, r2.st, s0, g);
    }
  }

  lemma {:induction false} SimAttribute(fuel: nat, w: World, e: Expr, f: nat, s1: State, s2: State, s0: State, g: int)
    requires Rel(s1, s2) && Kept(s0, s2, g) && e.Attribute? && CleanE(e)
    ensures Sim(Eval(fuel, w, e, f, s1), Eval(fuel, w, e, f, s2), s0, g)
    decreases fuel, 1, e, 0
  {
    SimEval(fuel, w, e.value, f, s1, s2, s0, g);
    var r1, r2 := Eval(fuel, w, e.value, f, s1), Eval(fuel, w, e.value, f, s2);
    if r1.Done? {
      SimGetAttr(fuel, w, r1.value, e.attr, r1.st, r2.st, s0, g);
    }
  }

  lemma {:induction false} SimCompare(fuel: nat, w: World, e: Expr, f: nat, s1: State, s2: State, s0: State, g: int)
    requires Rel(s1, s2) && Kept(s0, s2, g) && e.Compare? && CleanE(e)
    ensures Sim(Eval(fuel, w, e, f, s1), Eval(fuel, w, e, f, s2), s0, g)
    decreases fuel, 1, e, 0
  {
    SimEval(fuel, w, e.left, f, s1, s2, s0, g);
    var r1, r2 := Eval(fuel, w, e.left, f, s1), Eval(fuel, w, e.left, f, s2);
    if r1.Done? {
      SimChain(fuel, w, r1.value, e.ops, e.comparators, f, r1.st, r2.st, s0, g);
    }
  }

  lemma {:induction false} SimIfExp(fuel: nat, w: World, e: Expr, f: nat, s1: State, s2: State, s0: State, g: int)
    requires Rel(s1, s2) && Kept(s0, s2, g) && e.IfExp? && CleanE(e)
    ensures Sim(Eval(fuel, w, e, f, s1), Eval(fuel, w, e, f, s2), s0, g)
    decreases fuel, 1, e, 0
  {
    SimTested(fuel, w, e.test, f, s1, s2, s0, g);
    var t1, t2 := Tested(fuel, w, e.test, f, s1), Tested(fuel, w, e.test, f, s2);
    if t1.Done? {
      SimEval(fuel, w, if t1.value then e.thn else e.els, f, t1.st, t2.st, s0, g);
    }
  }

  lemma {:induction false} SimCall(fuel: nat, w: World, e: Expr, f: nat, s1: State, s2: State, s0: State, g: int)
    requires Rel(s1, s2) && Kept(s0, s2, g) && e.Call? && CleanE(e)
    ensures Sim(Eval(fuel, w, e, f, s1), Eval(fuel, w, e, f, s2), s0, g)
    decreases fuel, 1, e, 0
  {
    SimEval(fuel, w, e.func, f, s1, s2, s0, g);
    var r1, r2 := Eval(fuel, w, e.func, f, s1), Eval(fuel, w, e.func, f, s2);
    if r1.Done? {
      SimAll(fuel, w, e.args, f, r1.st, r2.st, s0, g);
      var a1, a2 := EvalAll(fuel, w, e.args, f, r1.st), EvalAll(fuel, w, e.args, f, r2.st);
      if a1.Done? {
        SimApply(fuel, w, r1.value, a1.value, a1.st, a2.st, s0, g);
      }
    }
  }

  // The test of a loop or branch: its value, and whether that is true.
  function Tested(fuel: nat, w: World, test: Expr, f: nat, st: State): R<bool> {
    var (v, st1) :- Eval(fuel, w, test, f, st);
    Truth(fuel, w, v, st1)
  }

  lemma {:induction false} SimTested(fuel: nat, w: World, test: Expr, f: nat, s1: State, s2: State, s0: State, g: int)
    requires Rel(s1, s2) && Kept(s0, s2, g) && CleanE(test)
    ensures Sim(Tested(fuel, w, test, f, s1), Tested(fuel, w, test, f, s2), s0, g)
    decreases fuel, 1, test, 2
  {
    SimEval(fuel, w, test, f, s1, s2, s0, g);
    var r1, r2 := Eval(fuel, w, test, f, s1), Eval(fuel, w, test, f, s2);
    if r1.Done? {
      SimTruth(fuel, w, r1.value, r1.st, r2.st, s0, g);
    }
  }

  lemma {:induction false} SimNot(fuel: nat, w: World, e: Expr, f: nat, s1: State, s2: State, s0: State, g: int)
    requires Rel(s1, s2) && Kept(s0, s2, g) && e.Not? && CleanE(e)
    ensures Sim(Eval(fuel, w, e, f, s1), Eval(fuel, w, e, f, s2), s0, g)
    decreases fuel, 1, e, 0
  {
    SimTested(fuel, w, e.operand, f, s1, s2, s0, g);
  }

  lemma SimLambda(fuel: nat, w: World, e: Expr, f: nat, s1: State, s2: State, s0: State, g: int)
    requires Rel(s1, s2) && Kept(s0, s2, g) && e.Lambda? && CleanE(e)
    ensures Sim(Eval(fuel, w, e, f, s1), Eval(fuel, w, e, f, s2), s0, g)
  {
    var s := Return(Some(e.body));
    LambdaBody(e.body, s1.exact);
    var fn := FnObj(e.params, {}, [s], f);
    RelNewFn(fn, fn, s1, s2, s0, g);
  }

  lemma LambdaBody(e: Expr, exact: bool)
    requires CleanE(e)
    ensures CleanB([Return(Some(e))], exact) && RewriteBody([Return(Some(e))]) == [Return(Some(e))]
  {
    var s := Return(Some(e));
    assert Bodies(s) == [];
    assert CleanS(s, exact) && CleanB([s], exact);
    assert RewriteChildren(s) == s;
    assert RewriteBody([s]) == RewriteStmt(s) + RewriteBody([]) == [s];
  }

  lemma {:induction false} SimAll(fuel: nat, w: World, es: seq<Expr>, f: nat, s1: State, s2: State, s0: State, g: int)
    requires Rel(s1, s2) && Kept(s0, s2, g) && CleanEs(es)
    ensures Sim(EvalAll(fuel, w, es, f, s1), EvalAll(fuel, w, es, f, s2), s0, g)
    decreases fuel, 1, es
  {
    if es == [] {
    } else {
      SimEval(fuel, w, es[0], f, s1, s2, s0, g);
      var r1, r2 := Eval(fuel, w, es[0], f, s1), Eval(fuel, w, es[0], f, s2);
      if r1.Done? {
        SimAll(fuel, w, es[1..], f, r1.st, r2.st, s0, g);
      }
    }
  }

  lemma {:induction false} SimChain(fuel: nat, w: World, v: Value, ops: seq<string>, cs: seq<Expr>, f: nat,
                                    s1: State, s2: State, s0: State, g: int)
    requires Rel(s1, s2) && Kept(s0, s2, g) && CleanEs(cs)
    ensures Sim(EvalChain(fuel, w, v, ops, cs, f, s1), EvalChain(fuel, w, v, ops, cs, f, s2), s0, g)
    decreases fuel, 1, cs
  {
    if ops != [] && cs != [] {
      SimEval(fuel, w, cs[0], f, s1, s2, s0, g);
      var r1, r2 := Eval(fuel, w, cs[0], f, s1), Eval(fuel, w, cs[0], f, s2);
      if r1.Done? {
        SimAsk(fuel, w, "compare", ops[0], [v, r1.value], r1.st, r2.st, s0, g);
        var c1, c2 := Ask(fuel, w, "compare", ops[0], [v, r1.value], r1.st), Ask(fuel, w, "compare", ops[0], [v, r2.value], r2.st);
        if c1.Done? && |cs| > 1 {
          SimTruth(fuel, w, c1.value, c1.st, c2.st, s0, g);
          var t1, t2 := Truth(fuel, w, c1.value, c1.st), Truth(fuel, w, c2.value, c2.st);
          if t1.Done? && t1.value {
            SimChain(fuel, w, r1.value, ops[1..], cs[1..], f, t1.st, t2.st, s0, g);
          }
        }
      }
    }
  }

  lemma {:induction false} SimBool(fuel: nat, w: World, isAnd: bool, es: seq<Expr>, f: nat,
                                   s1: State, s2: State, s0: State, g: int)
    requires Rel(s1, s2) && Kept(s0, s2, g) && CleanEs(es)
    ensures Sim(EvalBool(fuel, w, isAnd, es, f, s1), EvalBool(fuel, w, isAnd, es, f, s2), s0, g)
    decreases fuel, 1, es
  {
    if es == [] {
    } else {
      SimEval(fuel, w, es[0], f, s1, s2, s0, g);
      var r1, r2 := Eval(fuel, w, es[0], f, s1), Eval(fuel, w, es[0], f, s2);
      if r1.Done? && |es| > 1 {
        SimTruth(fuel, w, r1.value, r1.st, r2.st, s0, g);
        var t1, t2 := Truth(fuel, w, r1.value, r1.st), Truth(fuel, w, r2.value, r2.st);
        if t1.Done? && t1.value == isAnd {
          SimBool(fuel, w, isAnd, es[1..], f, t1.st, t2.st, s0, g);
        }
      }
    }
  }

  // A call runs the rewritten body of the same function in a frame of its own.
  lemma {:induction false} SimApplyFn(fuel: nat, w: World, fv: Value, args: seq<Value>, s1: State, s2: State, s0: State, g: int)
    requires Rel(s1, s2) && Kept(s0, s2, g) && fv.FnV? && fv.id < |s1.fns|
    ensures Sim(Apply(fuel, w, fv, args, s1), Apply(fuel, w, fv, args, s2), s0, g)
    decreases fuel, 0, 1
  {
    var a, b := s1.fns[fv.id], s2.fns[fv.id];
    assert FnRel(a, b, s1.exact);
    if |args| != |a.params| {
      RelThrow<Value>(ExcObj("TypeError", [], None), s1, s2, s0, g);
    } else if fuel > 0 {
      RelCallFrame(a, b, args, s1.exact);
      var f1, f2 := CallFrame(a, args), CallFrame(b, args);
      RelNewFrame(f1, f2, s1, s2, s0, g);
      SimInFrame(fuel - 1, w, a.body, f1, f2, s1, s2, s0, g);
    }
  }

  // A body run in a new frame leaves the older ones as it found them.
  lemma {:induction false} SimInFrame(fuel: nat, w: World, body: seq<Stmt>, f1: Frame, f2: Frame, s1: State, s2: State, s0: State, g: int)
    requires Rel(s1, s2) && Kept(s0, s2, g) && Rel(NewFrame(s1, f1), NewFrame(s2, f2)) && CleanB(body, s0.exact)
    ensures Sim(ExecBody(fuel, w, body, |s1.frames|, NewFrame(s1, f1)),
                ExecBody(fuel, w, RewriteBody(body), |s1.frames|, NewFrame(s2, f2)), s0, g)
    decreases fuel, 3, body, 1
  {
    var t1, t2 := NewFrame(s1, f1), NewFrame(s2, f2);
    assert Kept(t2, t2, |s2.frames|);
    SimBody(fuel, w, body, |s1.frames|, t1, t2, t2);
    var r2 := ExecBody(fuel, w, RewriteBody(body), |s2.frames|, t2);
    if !r2.Diverge? {
      KeptAcrossCall(s0, s2, f2, r2.st, g);
    }
  }

  lemma {:induction false} SimApply(fuel: nat, w: World, fv: Value, args: seq<Value>, s1: State, s2: State, s0: State, g: int)
    requires Rel(s1, s2) && Kept(s0, s2, g)
    ensures Sim(Apply(fuel, w, fv, args, s1), Apply(fuel, w, fv, args, s2), s0, g)
    decreases fuel, 0, 2
  {
    if fv.FnV? && fv.id < |s1.fns| {
      SimApplyFn(fuel, w, fv, args, s1, s2, s0, g);
    } else if fv.ErrorClassV? && |args| == 4 {
      var e := ExcObj(ERROR_CLASS, [args[3]], Some(Operands(args[0], args[1], args[2])));
      RelNewExc(e, e, s1, s2, s0, g);
    } else {
      SimAsk(fuel, w, "call", "", [fv] + args, s1, s2, s0, g);
    }
  }

  lemma {:induction false} SimDecorate(fuel: nat, w: World, ds: seq<Value>, v: Value, s1: State, s2: State, s0: State, g: int)
    requires Rel(s1, s2) && Kept(s0, s2, g)
    ensures Sim(Decorate(fuel, w, ds, v, s1), Decorate(fuel, w, ds, v, s2), s0, g)
    decreases fuel, 1, |ds|
  {
    if ds == [] {
    } else {
      var d := ds[|ds| - 1];
      SimApply(fuel, w, d, [v], s1, s2, s0, g);
      var r1, r2 := Apply(fuel, w, d, [v], s1), Apply(fuel, w, d, [v], s2);
      if r1.Done? {
        SimDecorate(fuel, w, ds[..|ds| - 1], r1.value, r1.st, r2.st, s0, g);
      }
    }
  }

  lemma {:induction false} SimAssignTo(fuel: nat, w: World, target: Expr, v: Value, f: nat,
                                       s1: State, s2: State, s0: State, g: int)
    requires Rel(s1, s2) && Kept(s0, s2, g) && CleanE(target)
    ensures Sim(AssignTo(fuel, w, target, v, f, s1), AssignTo(fuel, w, target, v, f, s2), s0, g)
    decreases fuel, 2, target, 1
  {
    match target
    case Name(x) => RelBind(s1, s2, f, x, v, s0, g);
    case Attribute(_, _, _) => SimAssignAttr(fuel, w, target, v, f, s1, s2, s0, g);
    case Operation(_, _) => SimAssignItem(fuel, w, target, v, f, s1, s2, s0, g);
    case _ => SimAsk(fuel, w, "store", "invalid", [v], s1, s2, s0, g);
  }

  lemma {:induction false} SimAssignAttr(fuel: nat, w: World, target: Expr, v: Value, f: nat,
                                         s1: State, s2: State, s0: State, g: int)
    requires Rel(s1, s2) && Kept(s0, s2, g) && CleanE(target) && target.Attribute?
    ensures Sim(AssignTo(fuel, w, target, v, f, s1), AssignTo(fuel, w, target, v, f, s2), s0, g)
    decreases fuel, 2, target, 0
  {
    SimEval(fuel, w, target.value, f, s1, s2, s0, g);
    var r1, r2 := Eval(fuel, w, target.value, f, s1), Eval(fuel, w, target.value, f, s2);
    if r1.Done? {
      SimSetAttr(fuel, w, r1.value, target.attr, v, r1.st, r2.st, s0, g);
    }
  }

  lemma {:induction false} SimAssignItem(fuel: nat, w: World, target: Expr, v: Value, f: nat,
                                         s1: State, s2: State, s0: State, g: int)
    requires Rel(s1, s2) && Kept(s0, s2, g) && CleanE(target) && target.Operation?
    ensures Sim(AssignTo(fuel, w, target, v, f, s1), AssignTo(fuel, w, target, v, f, s2), s0, g)
    decreases fuel, 2, target, 0
  {
    SimAll(fuel, w, target.operands, f, s1, s2, s0, g);
    var r1, r2 := EvalAll(fuel, w, target.operands, f, s1), EvalAll(fuel, w, target.operands, f, s2);
    if r1.Done? {
      SimAsk(fuel, w, "store", target.op, r1.value + [v], r1.st, r2.st, s0, g);
    }
  }

  // ── Statement lists ───────────────────────────────────────────────────────────────────

  lemma ExecBodySingle(fuel: nat, w: World, s: Stmt, f: nat, st: State)
    ensures ExecBody(fuel, w, [s], f, st) == Exec(fuel, w, s, f, st)
  {
    var r := Exec(fuel, w, s, f, st);
    if r.Done? {
      assert ExecBody(fuel, w, [s][1..], f, r.st) == Done(Normal, r.st);
    }
  }

  lemma {:induction false} ExecBodyConcat(fuel: nat, w: World, a: seq<Stmt>, b: seq<Stmt>, f: nat, st: State)
    ensures
      var r := ExecBody(fuel, w, a, f, st);
      ExecBody(fuel, w, a + b, f, st) ==
      if r.Done? && r.value.Normal? then ExecBody(fuel, w, b, f, r.st) else r
    decreases a
  {
    if a == [] {
      assert a + b == b;
    } else {
      assert (a + b)[1..] == a[1..] + b;
      var r := Exec(fuel, w, a[0], f, st);
      if r.Done? {
        ExecBodyConcat(fuel, w, a[1..], b, f, r.st);
      }
    }
  }

  lemma {:induction false} SimBody(fuel: nat, w: World, body: seq<Stmt>, f: nat, s1: State, s2: State, s0: State)
    requires Rel(s1, s2) && Kept(s0, s2, f) && CleanB(body, s0.exact) && f < |s0.frames|
    ensures Sim(ExecBody(fuel, w, body, f, s1), ExecBody(fuel, w, RewriteBody(body), f, s2), s0, f)
    decreases fuel, 3, body, 0
  {
    if body == [] {
    } else {
      var head, rest := RewriteStmt(body[0]), RewriteBody(body[1..]);
      SimStmt(fuel, w, body[0], f, s1, s2, s0);
      ExecBodyConcat(fuel, w, head, rest, f, s2);
      var r1, r2 := Exec(fuel, w, body[0], f, s1), ExecBody(fuel, w, head, f, s2);
      if r1.Done? && r1.value.Normal? {
        SimBody(fuel, w, body[1..], f, r1.st, r2.st, s0);
      }
    }
  }

  lemma {:induction false} SimStmt(fuel: nat, w: World, s: Stmt, f: nat, s1: State, s2: State, s0: State)
    requires Rel(s1, s2) && Kept(s0, s2, f) && CleanS(s, s0.exact) && f < |s0.frames|
    ensures Sim(Exec(fuel, w, s, f, s1), ExecBody(fuel, w, RewriteStmt(s), f, s2), s0, f)
    decreases fuel, 3, s, 3
  {
    if Eligible(s) {
      SimAssert(fuel, w, s, f, s1, s2, s0);
    } else {
      ExecBodySingle(fuel, w, RewriteStmt(s)[0], f, s2);
      if s.Assert? {
        SimPlainAssert(fuel, w, s.test, s.msg, f, s1, s2, s0, f);
      } else {
        SimChildren(fuel, w, s, f, s1, s2, s0);
      }
    }
  }

  // ── The rewritten assert ──────────────────────────────────────────────────────────────

  // Assigning a temporary is invisible to the original run.
  lemma RelTemp(s1: State, s2: State, f: nat, x: string, v: Value, s0: State)
    requires Rel(s1, s2) && Kept(s0, s2, f) && x in TEMPS && f < |s2.frames|
    ensures Bind(s2, f, x, v) == SetVar(s2, f, x, v)
    ensures Rel(s1, Bind(s2, f, x, v)) && Kept(s0, Bind(s2, f, x, v), f)
  {
    var a, b := s1.frames[f], s2.frames[f];
    assert FrameRel(a, b);
    assert x in RESERVED && x !in INJECTED;
    var b' := b.(vars := b.vars[x := v]);
    assert b'.vars - RESERVED == b.vars - RESERVED;
    assert FrameRel(a, b');
  }

  // The name holds `v` for code running in frame `f`: a temporary, or the injected sentinel.
  ghost predicate Stored(st: State, f: nat, x: string, v: Value) {
    && f < |st.frames|
    && ((x in TEMPS && x in st.frames[f].vars && st.frames[f].vars[x] == v) || (x == NO_RHS && v == NoRhsV))
  }

  // It reads the same in any later state that kept the temporaries.
  lemma ResolveStored(s1: State, s: State, t: State, f: nat, x: string, v: Value)
    requires Rel(s1, t) && Kept(s, t, -1) && Stored(s, f, x, v)
    ensures Resolve(t, f, x, true) == Found(v)
  {
    if x == NO_RHS && v == NoRhsV {
      ResolveInjected(s1, t, f, x, true);
    } else {
      assert FrameRel(s1.frames[f], t.frames[f]);
      assert x in RESERVED;
      assert Temps(t.frames[f]) == Temps(s.frames[f]);
      assert x in Temps(s.frames[f]);
      assert x in Temps(t.frames[f]) && Temps(t.frames[f])[x] == t.frames[f].vars[x];
    }
  }

  lemma KeptTrans(s0: State, s: State, t: State, g: int)
    requires Kept(s0, s, g) && Kept(s, t, -1)
    ensures Kept(s0, t, g)
  {
    forall i | 0 <= i < |s0.frames| && i != g ensures Temps(t.frames[i]) == Temps(s0.frames[i]) {
      assert Temps(t.frames[i]) == Temps(s.frames[i]);
    }
  }

  // Test the value `r` came to, and run `body` when it is false.
  function TestThen(fuel: nat, w: World, body: seq<Stmt>, f: nat, r: R<Value>): R<Completion> {
    var (v, st1) :- r;
    var (t, st2) :- Truth(fuel, w, v, st1);
    if t then Done(Normal, st2) else ExecBody(fuel, w, body, f, st2)
  }

  // `not test`
  function Negated(fuel: nat, w: World, r: R<Value>): R<Value> {
    var (v, st1) :- r;
    var (t, st2) :- Truth(fuel, w, v, st1);
    Done(BoolV(!t), st2)
  }

  lemma EvalNot(fuel: nat, w: World, test: Expr, f: nat, st: State)
    ensures Eval(fuel, w, Not(test), f, st) == Negated(fuel, w, Eval(fuel, w, test, f, st))
  {
  }

  // The branch of an `if` whose negated test came from `r`.
  lemma NegatedBranch(fuel: nat, w: World, body: seq<Stmt>, f: nat, r: R<Value>)
    ensures
      var n := Negated(fuel, w, r);
      TestThen(fuel, w, body, f, r) ==
      if !n.Done? then n.PropagateFailure()
      else if n.value == BoolV(true) then ExecBody(fuel, w, body, f, n.st)
      else Done(Normal, n.st)
  {
  }

  // `if not test: body` evaluates the test once and tests its value once.
  lemma ExecIfNot(fuel: nat, w: World, test: Expr, body: seq<Stmt>, f: nat, st: State)
    ensures ExecBody(fuel, w, [If(Not(test), body, [])], f, st) == TestThen(fuel, w, body, f, Eval(fuel, w, test, f, st))
  {
    var s := If(Not(test), body, []);
    ExecBodySingle(fuel, w, s, f, st);
    assert Exec(fuel, w, s, f, st) == ExecIf(fuel, w, s, f, st);
    EvalNot(fuel, w, test, f, st);
    NegatedBranch(fuel, w, body, f, Eval(fuel, w, test, f, st));
    var n := Eval(fuel, w, s.test, f, st);
    if n.Done? {
      assert Truth(fuel, w, n.value, n.st) == Done(n.value.b, n.st);
      assert ExecBody(fuel, w, s.orelse, f, n.st) == Done(Normal, n.st);
    }
  }

  // `x = e` followed by `rest`.
  lemma ExecTempAssign(fuel: nat, w: World, x: string, e: Expr, rest: seq<Stmt>, f: nat, st: State)
    ensures
      var r := Eval(fuel, w, e, f, st);
      ExecBody(fuel, w, [Assign(Name(x), e)] + rest, f, st) ==
      if !r.Done? then r.PropagateFailure() else ExecBody(fuel, w, rest, f, Bind(r.st, f, x, r.value))
  {
    var assign := Assign(Name(x), e);
    ExecBodyConcat(fuel, w, [assign], rest, f, st);
    ExecBodySingle(fuel, w, assign, f, st);
    assert Exec(fuel, w, assign, f, st) == ExecAssign(fuel, w, assign, f, st);
  }

  lemma EvalAllStep(fuel: nat, w: World, es: seq<Expr>, v: Value, f: nat, st: State)
    requires es != [] && Eval(fuel, w, es[0], f, st) == Done(v, st)
    ensures
      var r := EvalAll(fuel, w, es[1..], f, st);
      EvalAll(fuel, w, es, f, st) == if !r.Done? then r.PropagateFailure() else Done([v] + r.value, r.st)
  {
  }

  lemma EvalAllSingle(fuel: nat, w: World, e: Expr, f: nat, st: State)
    ensures
      var m := Eval(fuel, w, e, f, st);
      EvalAll(fuel, w, [e], f, st) == if !m.Done? then m.PropagateFailure() else Done([m.value], m.st)
  {
    var m := Eval(fuel, w, e, f, st);
    if m.Done? {
      assert EvalAll(fuel, w, [e][1..], f, m.st) == Done([], m.st);
      assert [m.value] + [] == [m.value];
    }
  }

  // The error's arguments: both operands are read back, then the message is evaluated.
  lemma {:induction false} EvalErrorArgs(fuel: nat, w: World, es: seq<Expr>, vs: seq<Value>, last: Expr, f: nat, st: State)
    requires |es| == |vs|
    requires forall i | 0 <= i < |es| :: Eval(fuel, w, es[i], f, st) == Done(vs[i], st)
    ensures
      var m := Eval(fuel, w, last, f, st);
      EvalAll(fuel, w, es + [last], f, st) ==
      if !m.Done? then m.PropagateFailure() else Done(vs + [m.value], m.st)
    decreases es
  {
    var m := Eval(fuel, w, last, f, st);
    if es == [] {
      EvalAllSingle(fuel, w, last, f, st);
      assert es + [last] == [last] && (m.Done? ==> vs + [m.value] == [m.value]);
    } else {
      var all := es + [last];
      assert all[1..] == es[1..] + [last] && all[0] == es[0];
      EvalErrorArgs(fuel, w, es[1..], vs[1..], last, f, st);
      EvalAllStep(fuel, w, all, vs[0], f, st);
      assert m.Done? ==> [vs[0]] + (vs[1..] + [m.value]) == vs + [m.value];
    }
  }

  lemma EvalErrorCall(fuel: nat, w: World, left: string, right: string, op: string, msg: Option<Expr>, f: nat,
                      lv: Value, rv: Value, s1: State, st: State)
    requires Rel(s1, st) && f < |st.frames|
    requires Resolve(st, f, left, true) == Found(lv) && Resolve(st, f, right, true) == Found(rv)
    ensures
      var m := Eval(fuel, w, MsgExpr(msg), f, st);
      Eval(fuel, w, ErrorCall(left, right, op, msg), f, st) ==
      if !m.Done? then m
      else Done(ExcV(|m.st.excs|), NewExc(m.st, ExcObj(ERROR_CLASS, [m.value], Some(Operands(lv, rv, StrV(op))))))
  {
    ResolveInjected(s1, st, f, ERROR_CLASS, true);
    assert Eval(fuel, w, Name(ERROR_CLASS), f, st) == Done(ErrorClassV, st);
    var es, vs := [Name(left), Name(right), Constant(LitStr(op))], [lv, rv, StrV(op)];
    assert Eval(fuel, w, es[0], f, st) == Done(lv, st) && Eval(fuel, w, es[1], f, st) == Done(rv, st);
    EvalErrorArgs(fuel, w, es, vs, MsgExpr(msg), f, st);
    assert ErrorCall(left, right, op, msg).args == es + [MsgExpr(msg)];
    ErrorMade(fuel, w, es + [MsgExpr(msg)], f, st);
  }

  function ErrorOf(args: seq<Value>): ExcObj
    requires |args| == 4
  {
    ExcObj(ERROR_CLASS, [args[3]], Some(Operands(args[0], args[1], args[2])))
  }

  // A call of the error class makes the error.
  lemma ErrorMade(fuel: nat, w: World, args: seq<Expr>, f: nat, st: State)
    requires Eval(fuel, w, Name(ERROR_CLASS), f, st) == Done(ErrorClassV, st)
    ensures
      var r, made := EvalAll(fuel, w, args, f, st), Eval(fuel, w, Call(Name(ERROR_CLASS), args), f, st);
      if !r.Done? then made == r.PropagateFailure()
      else |r.value| == 4 ==> made == Done(ExcV(|r.st.excs|), NewExc(r.st, ErrorOf(r.value)))
  {
  }

  // The failing branch: the message is evaluated now, and the error carries both operands.
  lemma SimFail(fuel: nat, w: World, left: string, right: string, op: string, msg: Option<Expr>, f: nat,
                lv: Value, rv: Value, s1: State, s2: State, s0: State)
    requires Rel(s1, s2) && Kept(s0, s2, f) && CleanMsg(msg, s0.exact) && f < |s0.frames|
    requires Resolve(s2, f, left, true) == Found(lv) && Resolve(s2, f, right, true) == Found(rv)
    ensures Sim(FailAssert(fuel, w, msg, f, s1), ExecBody(fuel, w, [Raise(ErrorCall(left, right, op, msg))], f, s2), s0, f)
    decreases fuel, 2, 0
  {
    var call := ErrorCall(left, right, op, msg);
    ExecRaise(fuel, w, call, f, s2);
    EvalErrorCall(fuel, w, left, right, op, msg, f, lv, rv, s1, s2);
    var operands := Some(Operands(lv, rv, StrV(op)));
    if msg.None? {
      assert Eval(fuel, w, MsgExpr(msg), f, s2) == Done(StrV(""), s2);
      RelNewExc(ExcObj(ASSERTION_ERROR, [], None), ExcObj(ERROR_CLASS, [StrV("")], operands), s1, s2, s0, f);
    } else {
      SimEval(fuel, w, msg.value, f, s1, s2, s0, f);
      var m1, m2 := Eval(fuel, w, msg.value, f, s1), Eval(fuel, w, msg.value, f, s2);
      if m1.Done? {
        RelNewExc(ExcObj(ASSERTION_ERROR, [m1.value], None), ExcObj(ERROR_CLASS, [m2.value], operands), m1.st, m2.st, s0, f);
      }
    }
  }

  lemma ExecRaise(fuel: nat, w: World, e: Expr, f: nat, st: State)
    ensures
      var r := Eval(fuel, w, e, f, st);
      ExecBody(fuel, w, [Raise(e)], f, st) ==
      if !r.Done? then r.PropagateFailure() else RaiseValue(fuel, w, r.value, r.st)
  {
    ExecBodySingle(fuel, w, Raise(e), f, st);
    assert Exec(fuel, w, Raise(e), f, st) == ExecSimple(fuel, w, Raise(e), f, st);
  }

  // From the test's value on: test it, and raise when it fails.
  lemma SimTest(fuel: nat, w: World, left: string, right: string, op: string, msg: Option<Expr>, f: nat,
                lv: Value, rv: Value, r1: R<Value>, r2: R<Value>, s2: State, s0: State)
    requires Sim(r1, r2, s0, f) && Sim(r1, r2, s2, -1) && CleanMsg(msg, s0.exact) && f < |s0.frames|
    requires Stored(s2, f, left, lv) && Stored(s2, f, right, rv)
    ensures Sim(ExecAssert(fuel, w, msg, f, r1), TestThen(fuel, w, [Raise(ErrorCall(left, right, op, msg))], f, r2), s0, f)
    decreases fuel, 2, 1
  {
    if r1.Done? {
      SimTruth(fuel, w, r1.value, r1.st, r2.st, s0, f);
      SimTruth(fuel, w, r1.value, r1.st, r2.st, s2, -1);
      var t1, t2 := Truth(fuel, w, r1.value, r1.st), Truth(fuel, w, r2.value, r2.st);
      if t1.Done? && !t1.value {
        ResolveStored(t1.st, s2, t2.st, f, left, lv);
        ResolveStored(t1.st, s2, t2.st, f, right, rv);
        SimFail(fuel, w, left, right, op, msg, f, lv, rv, t1.st, t2.st, s0);
      }
    }
  }

  lemma SimAssertValue(fuel: nat, w: World, test: Expr, msg: Option<Expr>, f: nat, s1: State, s2: State, s0: State)
    requires Rel(s1, s2) && Kept(s0, s2, f) && CleanE(test) && CleanMsg(msg, s0.exact) && f < |s0.frames|
    ensures Sim(ExecAssert(fuel, w, msg, f, Eval(fuel, w, test, f, s1)), ExecBody(fuel, w, RewriteValue(test, msg), f, s2), s0, f)
    decreases fuel, 2, 4
  {
    var check := IfNotRaise(Name(TEMP_VALUE), TEMP_VALUE, NO_RHS, "", msg);
    assert RewriteValue(test, msg) == [Assign(Name(TEMP_VALUE), test)] + [check];
    ExecTempAssign(fuel, w, TEMP_VALUE, test, [check], f, s2);
    SimEval(fuel, w, test, f, s1, s2, s0, f);
    var r1, r2 := Eval(fuel, w, test, f, s1), Eval(fuel, w, test, f, s2);
    if r1.Done? {
      var v := r1.value;
      RelTemp(r1.st, r2.st, f, TEMP_VALUE, v, s0);
      var u2 := Bind(r2.st, f, TEMP_VALUE, v);
      assert Kept(u2, u2, -1);
      ExecIfNot(fuel, w, Name(TEMP_VALUE), check.body, f, u2);
      ResolveStored(r1.st, u2, u2, f, TEMP_VALUE, v);
      assert Eval(fuel, w, Name(TEMP_VALUE), f, u2) == Done(v, u2);
      SimTest(fuel, w, TEMP_VALUE, NO_RHS, "", msg, f, v, NoRhsV, Done(v, r1.st), Done(v, u2), u2, s0);
    }
  }

  lemma SimAssertCompare(fuel: nat, w: World, left: Expr, op: string, right: Expr, opString: string, msg: Option<Expr>,
                         f: nat, s1: State, s2: State, s0: State)
    requires Rel(s1, s2) && Kept(s0, s2, f) && CleanE(left) && CleanE(right) && CleanMsg(msg, s0.exact) && f < |s0.frames|
    ensures Sim(ExecAssert(fuel, w, msg, f, Eval(fuel, w, Compare(left, [op], [right]), f, s1)),
                ExecBody(fuel, w, RewriteCompare(left, op, right, opString, msg), f, s2), s0, f)
    decreases fuel, 2, 4
  {
    var rest := RewriteCompare(left, op, right, opString, msg)[1..];
    assert RewriteCompare(left, op, right, opString, msg) == [Assign(Name(TEMP_LEFT), left)] + rest;
    ExecTempAssign(fuel, w, TEMP_LEFT, left, rest, f, s2);
    SimEval(fuel, w, left, f, s1, s2, s0, f);
    var r1, r2 := Eval(fuel, w, left, f, s1), Eval(fuel, w, left, f, s2);
    if r1.Done? {
      RelTemp(r1.st, r2.st, f, TEMP_LEFT, r1.value, s0);
      var u2 := Bind(r2.st, f, TEMP_LEFT, r1.value);
      SimAssertRight(fuel, w, op, right, opString, msg, f, r1.value, r1.st, u2, s0);
    }
  }

  function CheckStmt(op: string, opString: string, msg: Option<Expr>): Stmt {
    IfNotRaise(Compare(Name(TEMP_LEFT), [op], [Name(TEMP_RIGHT)]), TEMP_LEFT, TEMP_RIGHT, opString, msg)
  }

  // With the left operand stored: evaluating the right one cannot disturb it.
  lemma SimAssertRight(fuel: nat, w: World, op: string, right: Expr, opString: string, msg: Option<Expr>,
                       f: nat, lv: Value, s1: State, s2: State, s0: State)
    requires Rel(s1, s2) && Kept(s0, s2, f) && CleanE(right) && CleanMsg(msg, s0.exact) && f < |s0.frames|
    requires Stored(s2, f, TEMP_LEFT, lv)
    ensures Sim(ExecAssert(fuel, w, msg, f, EvalChain(fuel, w, lv, [op], [right], f, s1)),
                ExecBody(fuel, w, [Assign(Name(TEMP_RIGHT), right), CheckStmt(op, opString, msg)], f, s2), s0, f)
    decreases fuel, 2, 3
  {
    var assign, check := Assign(Name(TEMP_RIGHT), right), CheckStmt(op, opString, msg);
    assert [assign, check] == [assign] + [check];
    ExecTempAssign(fuel, w, TEMP_RIGHT, right, [check], f, s2);
    ChainOfOne(fuel, w, lv, op, right, f, s1);
    assert Kept(s2, s2, -1);
    SimEval(fuel, w, right, f, s1, s2, s2, -1);
    var r1, r2 := Eval(fuel, w, right, f, s1), Eval(fuel, w, right, f, s2);
    if !r1.Diverge? {
      KeptTrans(s0, s2, r2.st, f);
    }
    if r1.Done? {
      RightStored(f, lv, r1.value, r1.st, s2, r2.st, s0);
      SimCheck(fuel, w, op, opString, msg, f, lv, r1.value, r1.st, Bind(r2.st, f, TEMP_RIGHT, r1.value), s0);
    }
  }

  lemma ChainOfOne(fuel: nat, w: World, v: Value, op: string, right: Expr, f: nat, st: State)
    ensures
      var r := Eval(fuel, w, right, f, st);
      EvalChain(fuel, w, v, [op], [right], f, st) ==
      if !r.Done? then r else Ask(fuel, w, "compare", op, [v, r.value], r.st)
  {
  }

  // Storing the right operand leaves the left one where it is.
  lemma RightStored(f: nat, lv: Value, rv: Value, t1: State, s2: State, t2: State, s0: State)
    requires Rel(t1, t2) && Kept(s0, t2, f) && f < |s0.frames| && Kept(s2, t2, -1) && Stored(s2, f, TEMP_LEFT, lv)
    ensures var u2 := Bind(t2, f, TEMP_RIGHT, rv);
            Rel(t1, u2) && Kept(s0, u2, f) && Stored(u2, f, TEMP_LEFT, lv) && Stored(u2, f, TEMP_RIGHT, rv)
  {
    RelTemp(t1, t2, f, TEMP_RIGHT, rv, s0);
    StoredKept(s2, t2, f, TEMP_LEFT, lv);
    assert TEMP_LEFT[9] != TEMP_RIGHT[9];
  }

  lemma StoredKept(s: State, t: State, f: nat, x: string, v: Value)
    requires Kept(s, t, -1) && Stored(s, f, x, v)
    ensures Stored(t, f, x, v)
  {
    assert Temps(t.frames[f]) == Temps(s.frames[f]);
    if x in TEMPS && x in s.frames[f].vars {
      assert x in Temps(s.frames[f]);
      assert x in Temps(t.frames[f]) && Temps(t.frames[f])[x] == t.frames[f].vars[x];
    }
  }

  // Both operands stored: compare them, test the result, raise on failure.
  lemma SimCheck(fuel: nat, w: World, op: string, opString: string, msg: Option<Expr>,
                 f: nat, lv: Value, rv: Value, s1: State, s2: State, s0: State)
    requires Rel(s1, s2) && Kept(s0, s2, f) && CleanMsg(msg, s0.exact) && f < |s0.frames|
    requires Stored(s2, f, TEMP_LEFT, lv) && Stored(s2, f, TEMP_RIGHT, rv)
    ensures Sim(ExecAssert(fuel, w, msg, f, Ask(fuel, w, "compare", op, [lv, rv], s1)),
                ExecBody(fuel, w, [CheckStmt(op, opString, msg)], f, s2), s0, f)
    decreases fuel, 2, 2
  {
    var test := Compare(Name(TEMP_LEFT), [op], [Name(TEMP_RIGHT)]);
    assert Kept(s2, s2, -1);
    ResolveStored(s1, s2, s2, f, TEMP_LEFT, lv);
    ResolveStored(s1, s2, s2, f, TEMP_RIGHT, rv);
    ExecIfNot(fuel, w, test, CheckStmt(op, opString, msg).body, f, s2);
    EvalNames(fuel, w, op, f, lv, rv, s2);
    SimAsk(fuel, w, "compare", op, [lv, rv], s1, s2, s0, f);
    SimAsk(fuel, w, "compare", op, [lv, rv], s1, s2, s2, -1);
    SimTest(fuel, w, TEMP_LEFT, TEMP_RIGHT, opString, msg, f, lv, rv,
            Ask(fuel, w, "compare", op, [lv, rv], s1), Ask(fuel, w, "compare", op, [lv, rv], s2), s2, s0);
  }

  lemma EvalNames(fuel: nat, w: World, op: string, f: nat, lv: Value, rv: Value, st: State)
    requires Resolve(st, f, TEMP_LEFT, true) == Found(lv) && Resolve(st, f, TEMP_RIGHT, true) == Found(rv)
    ensures Eval(fuel, w, Compare(Name(TEMP_LEFT), [op], [Name(TEMP_RIGHT)]), f, st) == Ask(fuel, w, "compare", op, [lv, rv], st)
  {
    assert Eval(fuel, w, Name(TEMP_LEFT), f, st) == Done(lv, st);
    assert Eval(fuel, w, [Name(TEMP_RIGHT)][0], f, st) == Done(rv, st);
  }

  lemma SimAssert(fuel: nat, w: World, s: Stmt, f: nat, s1: State, s2: State, s0: State)
    requires Rel(s1, s2) && Kept(s0, s2, f) && CleanS(s, s0.exact) && f < |s0.frames| && Eligible(s)
    ensures Sim(ExecAssert(fuel, w, s.msg, f, Eval(fuel, w, s.test, f, s1)), ExecBody(fuel, w, RewriteStmt(s), f, s2), s0, f)
    decreases fuel, 2, 5
  {
    if s.test.Compare? {
      var op, right := s.test.ops[0], s.test.comparators[0];
      assert CleanE(s.test) && CleanEs(s.test.comparators);
      assert CleanE(right);
      SimAssertCompare(fuel, w, s.test.left, op, right, OpStr(op).value, s.msg, f, s1, s2, s0);
      EvalOneComparator(fuel, w, s.test, f, s1);
    } else {
      SimAssertValue(fuel, w, s.test, s.msg, f, s1, s2, s0);
    }
  }

  // With one comparator only the first operator is ever used.
  lemma EvalOneComparator(fuel: nat, w: World, e: Expr, f: nat, st: State)
    requires e.Compare? && |e.comparators| == 1 && |e.ops| > 0
    ensures Eval(fuel, w, e, f, st) == Eval(fuel, w, Compare(e.left, [e.ops[0]], [e.comparators[0]]), f, st)
  {
    assert e.comparators == [e.comparators[0]];
  }

  lemma SimPlainAssert(fuel: nat, w: World, test: Expr, msg: Option<Expr>, f: nat, s1: State, s2: State, s0: State, g: int)
    requires Rel(s1, s2) && Kept(s0, s2, g) && CleanE(test) && CleanOpt(msg)
    ensures Sim(ExecAssert(fuel, w, msg, f, Eval(fuel, w, test, f, s1)),
                ExecAssert(fuel, w, msg, f, Eval(fuel, w, test, f, s2)), s0, g)
    decreases fuel, 2, 2
  {
    SimEval(fuel, w, test, f, s1, s2, s0, g);
    SimPlainTest(fuel, w, msg, f, Eval(fuel, w, test, f, s1), Eval(fuel, w, test, f, s2), s0, g);
  }

  lemma SimPlainTest(fuel: nat, w: World, msg: Option<Expr>, f: nat, r1: R<Value>, r2: R<Value>, s0: State, g: int)
    requires Sim(r1, r2, s0, g) && CleanOpt(msg)
    ensures Sim(ExecAssert(fuel, w, msg, f, r1), ExecAssert(fuel, w, msg, f, r2), s0, g)
    decreases fuel, 2, 1
  {
    if r1.Done? {
      SimTruth(fuel, w, r1.value, r1.st, r2.st, s0, g);
      var t1, t2 := Truth(fuel, w, r1.value, r1.st), Truth(fuel, w, r2.value, r2.st);
      if t1.Done? && !t1.value {
        SimFailPlain(fuel, w, msg, f, t1.st, t2.st, s0, g);
      }
    }
  }

  lemma SimFailPlain(fuel: nat, w: World, msg: Option<Expr>, f: nat, s1: State, s2: State, s0: State, g: int)
    requires Rel(s1, s2) && Kept(s0, s2, g) && CleanOpt(msg)
    ensures Sim(FailAssert(fuel, w, msg, f, s1), FailAssert(fuel, w, msg, f, s2), s0, g)
    decreases fuel, 2, 0
  {
    if msg.None? {
      RelThrow<Completion>(ExcObj(ASSERTION_ERROR, [], None), s1, s2, s0, g);
    } else {
      SimEval(fuel, w, msg.value, f, s1, s2, s0, g);
      var m1, m2 := Eval(fuel, w, msg.value, f, s1), Eval(fuel, w, msg.value, f, s2);
      if m1.Done? {
        RelThrow<Completion>(ExcObj(ASSERTION_ERROR, [m1.value], None), m1.st, m2.st, s0, g);
      }
    }
  }

  // ── Statements with children ──────────────────────────────────────────────────────────

  lemma {:induction false} SimSimple(fuel: nat, w: World, s: Stmt, f: nat, s1: State, s2: State, s0: State, g: int)
    requires Rel(s1, s2) && Kept(s0, s2, g) && CleanOwn(s, s0.exact) && !s.Assert?
    ensures Sim(ExecSimple(fuel, w, s, f, s1), ExecSimple(fuel, w, s, f, s2), s0, g)
    decreases fuel, 3, s, 0, 1
  {
    match s
    case ExprStmt(e) => SimEval(fuel, w, e, f, s1, s2, s0, g);
    case Return(e) =>
      if e.Some? {
        SimEval(fuel, w, e.value, f, s1, s2, s0, g);
      }
    case Raise(e) =>
      SimEval(fuel, w, e, f, s1, s2, s0, g);
      var r1, r2 := Eval(fuel, w, e, f, s1), Eval(fuel, w, e, f, s2);
      if r1.Done? {
        SimRaiseValue(fuel, w, r1.value, r1.st, r2.st, s0, g);
      }
    case Import(aliases) => SimBindFetched(fuel, w, "import", NoneV, aliases, f, s1, s2, s0, g);
    case ImportFrom(source, level, aliases) =>
      SimBindFetched(fuel, w, "import from", Imported(source, level), aliases, f, s1, s2, s0, g);
    case _ =>
  }

  lemma {:induction false} SimRaiseValue(fuel: nat, w: World, v: Value, s1: State, s2: State, s0: State, g: int)
    requires Rel(s1, s2) && Kept(s0, s2, g)
    ensures Sim(RaiseValue(fuel, w, v, s1), RaiseValue(fuel, w, v, s2), s0, g)
    decreases fuel, 0, 2
  {
    SimAsk(fuel, w, "raise", "", [v], s1, s2, s0, g);
    var r1, r2 := Ask(fuel, w, "raise", "", [v], s1), Ask(fuel, w, "raise", "", [v], s2);
    if r1.Done? {
      RelRaiseExisting<Completion>(r1.value, r1.st, r2.st, s0, g);
    }
  }

  lemma {:induction false} SimAssign(fuel: nat, w: World, s: Stmt, f: nat, s1: State, s2: State, s0: State, g: int)
    requires Rel(s1, s2) && Kept(s0, s2, g) && s.Assign? && CleanOwn(s, s0.exact)
    ensures Sim(ExecAssign(fuel, w, s, f, s1), ExecAssign(fuel, w, s, f, s2), s0, g)
    decreases fuel, 3, s, 0, 1
  {
    SimEval(fuel, w, s.value, f, s1, s2, s0, g);
    var r1, r2 := Eval(fuel, w, s.value, f, s1), Eval(fuel, w, s.value, f, s2);
    if r1.Done? {
      SimAssignTo(fuel, w, s.target, r1.value, f, r1.st, r2.st, s0, g);
    }
  }

  lemma {:induction false} SimFunctionDef(fuel: nat, w: World, s: Stmt, s': Stmt, f: nat, s1: State, s2: State, s0: State, g: int)
    requires Rel(s1, s2) && Kept(s0, s2, g) && s.FunctionDef? && Compound(s, s', s0.exact)
    ensures Sim(ExecFunctionDef(fuel, w, s, f, s1), ExecFunctionDef(fuel, w, s', f, s2), s0, g)
    decreases fuel, 3, s, 0, 1
  {
    SimAll(fuel, w, s.decorators, f, s1, s2, s0, g);
    var d1, d2 := EvalAll(fuel, w, s.decorators, f, s1), EvalAll(fuel, w, s.decorators, f, s2);
    if d1.Done? {
      var fn1, fn2 := FnObj(s.params, s.globals, s.body, f), FnObj(s.params, s.globals, s'.body, f);
      RelNewFn(fn1, fn2, d1.st, d2.st, s0, g);
      var t1, t2 := NewFn(d1.st, fn1), NewFn(d2.st, fn2);
      var v := FnV(|d1.st.fns|);
      SimDecorate(fuel, w, d1.value, v, t1, t2, s0, g);
      var r1, r2 := Decorate(fuel, w, d1.value, v, t1), Decorate(fuel, w, d2.value, v, t2);
      if r1.Done? {
        RelBind(r1.st, r2.st, f, s.name, r1.value, s0, g);
      }
    }
  }

  lemma {:induction false} SimClassDef(fuel: nat, w: World, s: Stmt, s': Stmt, f: nat, s1: State, s2: State, s0: State, g: int)
    requires Rel(s1, s2) && Kept(s0, s2, g) && s.ClassDef? && Compound(s, s', s0.exact)
    ensures Sim(ExecClassDef(fuel, w, s, f, s1), ExecClassDef(fuel, w, s', f, s2), s0, g)
    decreases fuel, 3, s, 0, 2
  {
    ClassUnfolds(fuel, w, s, f, s1);
    ClassUnfolds(fuel, w, s', f, s2);
    SimAll(fuel, w, s.decorators, f, s1, s2, s0, g);
    var d1, d2 := EvalAll(fuel, w, s.decorators, f, s1), EvalAll(fuel, w, s.decorators, f, s2);
    if d1.Done? {
      SimClassBases(fuel, w, s, s', f, d1.value, d1.st, d2.st, s0, g);
    }
  }

  // A class statement from its base classes on.
  function ClassBases(fuel: nat, w: World, name: string, bases: seq<Expr>, body: seq<Stmt>, f: nat, ds: seq<Value>, st: State): R<Completion> {
    var (bvs, st2) :- EvalAll(fuel, w, bases, f, st);
    var (_, st3) :- Ask(fuel, w, "class", name, bvs, st2);
    ClassBody(fuel, w, name, body, f, ds, st3)
  }

  lemma ClassUnfolds(fuel: nat, w: World, s: Stmt, f: nat, st: State)
    requires s.ClassDef?
    ensures
      var d := EvalAll(fuel, w, s.decorators, f, st);
      ExecClassDef(fuel, w, s, f, st) ==
      if !d.Done? then d.PropagateFailure() else ClassBases(fuel, w, s.name, s.bases, s.body, f, d.value, d.st)
  {
  }

  lemma {:induction false} SimClassBases(fuel: nat, w: World, s: Stmt, s': Stmt, f: nat, ds: seq<Value>, s1: State, s2: State, s0: State, g: int)
    requires Rel(s1, s2) && Kept(s0, s2, g) && s.ClassDef? && Compound(s, s', s0.exact)
    ensures Sim(ClassBases(fuel, w, s.name, s.bases, s.body, f, ds, s1),
                ClassBases(fuel, w, s.name, s.bases, RewriteBody(s.body), f, ds, s2), s0, g)
    decreases fuel, 3, s, 0, 1
  {
    SimAll(fuel, w, s.bases, f, s1, s2, s0, g);
    var b1, b2 := EvalAll(fuel, w, s.bases, f, s1), EvalAll(fuel, w, s.bases, f, s2);
    if b1.Done? {
      SimAsk(fuel, w, "class", s.name, b1.value, b1.st, b2.st, s0, g);
      var c1, c2 := Ask(fuel, w, "class", s.name, b1.value, b1.st), Ask(fuel, w, "class", s.name, b2.value, b2.st);
      if c1.Done? {
        SimClassBody(fuel, w, s, s', f, ds, c1.st, c2.st, s0, g);
      }
    }
  }

  function ClassBody(fuel: nat, w: World, name: string, body: seq<Stmt>, f: nat, ds: seq<Value>, st: State): R<Completion> {
    var (_, st4) :- ExecBody(fuel, w, body, |st.frames|, NewFrame(st, Frame(map[], {}, {}, f, true)));
    var (v, st5) :- Decorate(fuel, w, ds, ClassV(|st.frames|), st4);
    Done(Normal, Bind(st5, f, name, v))
  }

  lemma {:induction false} SimClassBody(fuel: nat, w: World, s: Stmt, s': Stmt, f: nat, ds: seq<Value>, s1: State, s2: State, s0: State, g: int)
    requires Rel(s1, s2) && Kept(s0, s2, g) && s.ClassDef? && Compound(s, s', s0.exact)
    ensures Sim(ClassBody(fuel, w, s.name, s.body, f, ds, s1), ClassBody(fuel, w, s.name, RewriteBody(s.body), f, ds, s2), s0, g)
    decreases fuel, 3, s, 0, 0
  {
    var fr := Frame(map[], {}, {}, f, true);
    assert FrameRel(fr, fr);
    RelNewFrame(fr, fr, s1, s2, s0, g);
    var k := |s1.frames|;
    SimInFrame(fuel, w, s.body, fr, fr, s1, s2, s0, g);
    var r1, r2 := ExecBody(fuel, w, s.body, k, NewFrame(s1, fr)), ExecBody(fuel, w, RewriteBody(s.body), k, NewFrame(s2, fr));
    if r1.Done? {
      SimDecorate(fuel, w, ds, ClassV(k), r1.st, r2.st, s0, g);
      var v1, v2 := Decorate(fuel, w, ds, ClassV(k), r1.st), Decorate(fuel, w, ds, ClassV(k), r2.st);
      if v1.Done? {
        RelBind(v1.st, v2.st, f, s.name, v1.value, s0, g);
      }
    }
  }

  lemma {:induction false} SimIf(fuel: nat, w: World, s: Stmt, s': Stmt, f: nat, s1: State, s2: State, s0: State)
    requires Rel(s1, s2) && Kept(s0, s2, f) && f < |s0.frames| && s.If? && Compound(s, s', s0.exact)
    ensures Sim(ExecIf(fuel, w, s, f, s1), ExecIf(fuel, w, s', f, s2), s0, f)
    decreases fuel, 3, s, 0, 1
  {
    SimTested(fuel, w, s.test, f, s1, s2, s0, f);
    var t1, t2 := Tested(fuel, w, s.test, f, s1), Tested(fuel, w, s.test, f, s2);
    if t1.Done? {
      SimBody(fuel, w, if t1.value then s.body else s.orelse, f, t1.st, t2.st, s0);
    }
  }

  // A loop whose test came to `t`.
  function WhileRest(fuel: nat, w: World, s: Stmt, f: nat, t: bool, st: State): R<Completion>
    requires s.While?
  {
    if !t then ExecBody(fuel, w, s.orelse, f, st)
    else
      var (c, st3) :- ExecBody(fuel, w, s.body, f, st);
      if c.Broke? then Done(Normal, st3)
      else if c.Returned? then Done(c, st3)
      else if fuel == 0 then Diverge
      else ExecWhile(fuel - 1, w, s, f, st3)
  }

  lemma {:induction false} SimWhileRest(fuel: nat, w: World, s: Stmt, s': Stmt, f: nat, t: bool, s1: State, s2: State, s0: State)
    requires Rel(s1, s2) && Kept(s0, s2, f) && f < |s0.frames| && s.While? && Compound(s, s', s0.exact)
    ensures Sim(WhileRest(fuel, w, s, f, t, s1), WhileRest(fuel, w, s', f, t, s2), s0, f)
    decreases fuel, 3, s, 0, 0
  {
    SimBody(fuel, w, if t then s.body else s.orelse, f, s1, s2, s0);
    if t {
      var b1, b2 := ExecBody(fuel, w, s.body, f, s1), ExecBody(fuel, w, s'.body, f, s2);
      if b1.Done? && fuel > 0 && !b1.value.Broke? && !b1.value.Returned? {
        SimWhile(fuel - 1, w, s, s', f, b1.st, b2.st, s0);
      }
    }
  }

  lemma WhileUnfolds(fuel: nat, w: World, s: Stmt, f: nat, st: State)
    requires s.While?
    ensures
      var t := Tested(fuel, w, s.test, f, st);
      ExecWhile(fuel, w, s, f, st) == if !t.Done? then t.PropagateFailure() else WhileRest(fuel, w, s, f, t.value, t.st)
  {
  }

  lemma {:induction false} SimWhile(fuel: nat, w: World, s: Stmt, s': Stmt, f: nat, s1: State, s2: State, s0: State)
    requires Rel(s1, s2) && Kept(s0, s2, f) && f < |s0.frames| && s.While? && Compound(s, s', s0.exact)
    ensures Sim(ExecWhile(fuel, w, s, f, s1), ExecWhile(fuel, w, s', f, s2), s0, f)
    decreases fuel, 3, s, 0, 1
  {
    WhileUnfolds(fuel, w, s, f, s1);
    WhileUnfolds(fuel, w, s', f, s2);
    SimTested(fuel, w, s.test, f, s1, s2, s0, f);
    var t1, t2 := Tested(fuel, w, s.test, f, s1), Tested(fuel, w, s.test, f, s2);
    if t1.Done? {
      SimWhileRest(fuel, w, s, s', f, t1.value, t1.st, t2.st, s0);
    }
  }

  lemma {:induction false} SimFor(fuel: nat, w: World, s: Stmt, s': Stmt, f: nat, s1: State, s2: State, s0: State)
    requires Rel(s1, s2) && Kept(s0, s2, f) && f < |s0.frames| && s.For? && Compound(s, s', s0.exact)
    ensures Sim(ExecFor(fuel, w, s, f, s1), ExecFor(fuel, w, s', f, s2), s0, f)
    decreases fuel, 3, s, 0, 3
  {
    SimEval(fuel, w, s.iter, f, s1, s2, s0, f);
    var r1, r2 := Eval(fuel, w, s.iter, f, s1), Eval(fuel, w, s.iter, f, s2);
    if r1.Done? {
      SimAsk(fuel, w, "iter", "", [r1.value], r1.st, r2.st, s0, f);
      var i1, i2 := Ask(fuel, w, "iter", "", [r1.value], r1.st), Ask(fuel, w, "iter", "", [r2.value], r2.st);
      if i1.Done? {
        SimForNext(fuel, w, i1.value, s, s', f, i1.st, i2.st, s0);
      }
    }
  }

  // A loop whose iterator gave a value, assigned with result `a`.
  function ForRest(fuel: nat, w: World, it: Value, s: Stmt, f: nat, a: R<Completion>): R<Completion>
    requires s.For?
  {
    var (_, st1) :- a;
    var (c, st2) :- ExecBody(fuel, w, s.body, f, st1);
    if c.Broke? then Done(Normal, st2)
    else if c.Returned? then Done(c, st2)
    else if fuel == 0 then Diverge
    else ForNext(fuel - 1, w, it, s, f, st2)
  }

  lemma ForUnfolds(fuel: nat, w: World, it: Value, s: Stmt, f: nat, st: State)
    requires s.For?
    ensures
      var r := Outside(fuel, w, Did("next", "", [it]), st);
      ForNext(fuel, w, it, s, f, st) ==
      if !r.Done? then r.PropagateFailure()
      else if r.value.None? then ExecBody(fuel, w, s.orelse, f, r.st)
      else ForRest(fuel, w, it, s, f, AssignTo(fuel, w, s.target, r.value.value, f, r.st))
  {
  }

  lemma {:induction false} SimForRest(fuel: nat, w: World, it: Value, s: Stmt, s': Stmt, f: nat, a1: R<Completion>, a2: R<Completion>, s0: State)
    requires Sim(a1, a2, s0, f) && f < |s0.frames| && s.For? && Compound(s, s', s0.exact)
    ensures Sim(ForRest(fuel, w, it, s, f, a1), ForRest(fuel, w, it, s', f, a2), s0, f)
    decreases fuel, 3, s, 0, 0
  {
    if a1.Done? {
      SimBody(fuel, w, s.body, f, a1.st, a2.st, s0);
      var b1, b2 := ExecBody(fuel, w, s.body, f, a1.st), ExecBody(fuel, w, s'.body, f, a2.st);
      if b1.Done? && fuel > 0 && !b1.value.Broke? && !b1.value.Returned? {
        SimForNext(fuel - 1, w, it, s, s', f, b1.st, b2.st, s0);
      }
    }
  }

  lemma {:induction false} SimForNext(fuel: nat, w: World, it: Value, s: Stmt, s': Stmt, f: nat, s1: State, s2: State, s0: State)
    requires Rel(s1, s2) && Kept(s0, s2, f) && f < |s0.frames| && s.For? && Compound(s, s', s0.exact)
    ensures Sim(ForNext(fuel, w, it, s, f, s1), ForNext(fuel, w, it, s', f, s2), s0, f)
    decreases fuel, 3, s, 0, 2
  {
    ForUnfolds(fuel, w, it, s, f, s1);
    ForUnfolds(fuel, w, it, s', f, s2);
    var ev := Did("next", "", [it]);
    SimOutside(fuel, w, ev, s1, s2, s0, f);
    var r1, r2 := Outside(fuel, w, ev, s1), Outside(fuel, w, ev, s2);
    if r1.Done? {
      if r1.value.None? {
        SimBody(fuel, w, s.orelse, f, r1.st, r2.st, s0);
      } else {
        var v := r1.value.value;
        SimAssignTo(fuel, w, s.target, v, f, r1.st, r2.st, s0, f);
        SimForRest(fuel, w, it, s, s', f, AssignTo(fuel, w, s.target, v, f, r1.st), AssignTo(fuel, w, s.target, v, f, r2.st), s0);
      }
    }
  }

  lemma {:induction false} SimExitWith(fuel: nat, w: World, c: Value, r1: R<Completion>, r2: R<Completion>, s0: State, g: int)
    requires Sim(r1, r2, s0, g)
    ensures Sim(ExitWith(fuel, w, c, r1), ExitWith(fuel, w, c, r2), s0, g)
    decreases fuel, 0, 3
  {
    if r1.Done? {
      SimAsk(fuel, w, "exit", "", [c, NoneV], r1.st, r2.st, s0, g);
    } else if r1.Exn? {
      SimAsk(fuel, w, "exit", "", [c, r1.exc], r1.st, r2.st, s0, g);
      var v1, v2 := Ask(fuel, w, "exit", "", [c, r1.exc], r1.st), Ask(fuel, w, "exit", "", [c, r2.exc], r2.st);
      if v1.Done? {
        SimTruth(fuel, w, v1.value, v1.st, v2.st, s0, g);
      }
    }
  }

  lemma {:induction false} SimWith(fuel: nat, w: World, s: Stmt, s': Stmt, f: nat, s1: State, s2: State, s0: State)
    requires Rel(s1, s2) && Kept(s0, s2, f) && f < |s0.frames| && s.With? && Compound(s, s', s0.exact)
    ensures Sim(ExecWith(fuel, w, s, f, s1), ExecWith(fuel, w, s', f, s2), s0, f)
    decreases fuel, 3, s, 0, 1
  {
    var body' := RewriteBody(s.body);
    SimEval(fuel, w, s.context, f, s1, s2, s0, f);
    var r1, r2 := Eval(fuel, w, s.context, f, s1), Eval(fuel, w, s.context, f, s2);
    if r1.Done? {
      var c := r1.value;
      SimAsk(fuel, w, "enter", "", [c], r1.st, r2.st, s0, f);
      var v1, v2 := Ask(fuel, w, "enter", "", [c], r1.st), Ask(fuel, w, "enter", "", [c], r2.st);
      if v1.Done? {
        if s.asTarget.None? {
          SimBody(fuel, w, s.body, f, v1.st, v2.st, s0);
          SimExitWith(fuel, w, c, ExecBody(fuel, w, s.body, f, v1.st), ExecBody(fuel, w, body', f, v2.st), s0, f);
        } else {
          var t := s.asTarget.value;
          SimAssignTo(fuel, w, t, v1.value, f, v1.st, v2.st, s0, f);
          var a1, a2 := AssignTo(fuel, w, t, v1.value, f, v1.st), AssignTo(fuel, w, t, v2.value, f, v2.st);
          if a1.Done? {
            SimBody(fuel, w, s.body, f, a1.st, a2.st, s0);
            SimExitWith(fuel, w, c, ExecBody(fuel, w, s.body, f, a1.st), ExecBody(fuel, w, body', f, a2.st), s0, f);
          } else {
            SimExitWith(fuel, w, c, a1, a2, s0, f);
          }
        }
      }
    }
  }

  // Whether the first handler is for the exception.
  function Catches(fuel: nat, w: World, kind: Expr, x: Value, f: nat, st: State): R<bool> {
    var (k, st1) :- Eval(fuel, w, kind, f, st);
    var (m, st2) :- Ask(fuel, w, "isinstance", "", [x, k], st1);
    Truth(fuel, w, m, st2)
  }

  lemma {:induction false} SimCatches(fuel: nat, w: World, kind: Expr, x: Value, f: nat, s1: State, s2: State, s0: State, g: int)
    requires Rel(s1, s2) && Kept(s0, s2, g) && CleanE(kind)
    ensures Sim(Catches(fuel, w, kind, x, f, s1), Catches(fuel, w, kind, x, f, s2), s0, g)
    decreases fuel, 2, 0
  {
    SimEval(fuel, w, kind, f, s1, s2, s0, g);
    var k1, k2 := Eval(fuel, w, kind, f, s1), Eval(fuel, w, kind, f, s2);
    if k1.Done? {
      SimAsk(fuel, w, "isinstance", "", [x, k1.value], k1.st, k2.st, s0, g);
      var m1, m2 := Ask(fuel, w, "isinstance", "", [x, k1.value], k1.st), Ask(fuel, w, "isinstance", "", [x, k2.value], k2.st);
      if m1.Done? {
        SimTruth(fuel, w, m1.value, m1.st, m2.st, s0, g);
      }
    }
  }

  lemma HandlersUnfold(fuel: nat, w: World, hs: seq<Handler>, x: Value, f: nat, st: State)
    requires hs != [] && hs[0].kind.Some?
    ensures
      var t := Catches(fuel, w, hs[0].kind.value, x, f, st);
      ExecHandlers(fuel, w, hs, x, f, st) ==
      if !t.Done? then t.PropagateFailure()
      else if t.value then RunHandler(fuel, w, hs[0], x, f, t.st) else ExecHandlers(fuel, w, hs[1..], x, f, t.st)
  {
  }

  lemma {:induction false} SimHandlers(fuel: nat, w: World, hs: seq<Handler>, hs': seq<Handler>, x: Value, f: nat,
                                       s1: State, s2: State, s0: State)
    requires Rel(s1, s2) && Kept(s0, s2, f) && f < |s0.frames| && HandlersRel(hs, hs', s0.exact)
    ensures Sim(ExecHandlers(fuel, w, hs, x, f, s1), ExecHandlers(fuel, w, hs', x, f, s2), s0, f)
    decreases fuel, 3, hs, 1
  {
    if hs == [] {
    } else {
      assert HandlerRel(hs[0], hs'[0], s0.exact);
      if hs[0].kind.None? {
        SimRunHandler(fuel, w, hs[0], hs'[0], x, f, s1, s2, s0);
      } else {
        SimFirstHandler(fuel, w, hs, hs', x, f, s1, s2, s0);
      }
    }
  }

  lemma {:induction false} SimFirstHandler(fuel: nat, w: World, hs: seq<Handler>, hs': seq<Handler>, x: Value, f: nat,
                                           s1: State, s2: State, s0: State)
    requires Rel(s1, s2) && Kept(s0, s2, f) && f < |s0.frames| && HandlersRel(hs, hs', s0.exact) && hs != [] && hs[0].kind.Some?
    ensures Sim(ExecHandlers(fuel, w, hs, x, f, s1), ExecHandlers(fuel, w, hs', x, f, s2), s0, f)
    decreases fuel, 3, hs, 0
  {
    assert HandlerRel(hs[0], hs'[0], s0.exact);
    var e := hs[0].kind.value;
    HandlersUnfold(fuel, w, hs, x, f, s1);
    HandlersUnfold(fuel, w, hs', x, f, s2);
    SimCatches(fuel, w, e, x, f, s1, s2, s0, f);
    var t1, t2 := Catches(fuel, w, e, x, f, s1), Catches(fuel, w, e, x, f, s2);
    if t1.Done? {
      if t1.value {
        SimRunHandler(fuel, w, hs[0], hs'[0], x, f, t1.st, t2.st, s0);
      } else {
        SimHandlers(fuel, w, hs[1..], hs'[1..], x, f, t1.st, t2.st, s0);
      }
    }
  }

  lemma {:induction false} SimRunHandler(fuel: nat, w: World, h: Handler, h': Handler, x: Value, f: nat,
                                         s1: State, s2: State, s0: State)
    requires Rel(s1, s2) && Kept(s0, s2, f) && f < |s0.frames| && HandlerRel(h, h', s0.exact)
    ensures Sim(RunHandler(fuel, w, h, x, f, s1), RunHandler(fuel, w, h', x, f, s2), s0, f)
    decreases fuel, 3, h
  {
    if h.name.None? {
      SimBody(fuel, w, h.body, f, s1, s2, s0);
    } else {
      var n := h.name.value;
      RelBind(s1, s2, f, n, x, s0, f);
      var t1, t2 := Bind(s1, f, n, x), Bind(s2, f, n, x);
      SimBody(fuel, w, h.body, f, t1, t2, s0);
      var r1, r2 := ExecBody(fuel, w, h.body, f, t1), ExecBody(fuel, w, h'.body, f, t2);
      if !r1.Diverge? {
        RelUnbind(r1.st, r2.st, f, n, s0, f);
      }
    }
  }

  // What the body, or a handler, or the `else` part of a `try` came to.
  function TryOutcome(fuel: nat, w: World, s: Stmt, f: nat, r: R<Completion>): R<Completion>
    requires s.Try?
  {
    if r.Exn? then ExecHandlers(fuel, w, s.handlers, r.exc, f, r.st)
    else if r.Done? && r.value.Normal? then ExecBody(fuel, w, s.orelse, f, r.st)
    else r
  }

  function Finally(fuel: nat, w: World, body: seq<Stmt>, f: nat, r: R<Completion>): R<Completion> {
    if r.Diverge? then Diverge
    else
      var (c, st2) :- ExecBody(fuel, w, body, f, r.st);
      if !c.Normal? then Done(c, st2)
      else if r.Exn? then Exn(r.exc, st2)
      else Done(r.value, st2)
  }

  lemma {:induction false} SimTryOutcome(fuel: nat, w: World, s: Stmt, s': Stmt, f: nat, r1: R<Completion>, r2: R<Completion>, s0: State)
    requires Sim(r1, r2, s0, f) && f < |s0.frames| && s.Try? && Compound(s, s', s0.exact)
    ensures Sim(TryOutcome(fuel, w, s, f, r1), TryOutcome(fuel, w, s', f, r2), s0, f)
    decreases fuel, 3, s, 0, 0
  {
    if r1.Exn? {
      SimHandlers(fuel, w, s.handlers, s'.handlers, r1.exc, f, r1.st, r2.st, s0);
    } else if r1.Done? && r1.value.Normal? {
      SimBody(fuel, w, s.orelse, f, r1.st, r2.st, s0);
    }
  }

  lemma {:induction false} SimTry(fuel: nat, w: World, s: Stmt, s': Stmt, f: nat, s1: State, s2: State, s0: State)
    requires Rel(s1, s2) && Kept(s0, s2, f) && f < |s0.frames| && s.Try? && Compound(s, s', s0.exact)
    ensures Sim(ExecTry(fuel, w, s, f, s1), ExecTry(fuel, w, s', f, s2), s0, f)
    decreases fuel, 3, s, 0, 1
  {
    SimBody(fuel, w, s.body, f, s1, s2, s0);
    var r1, r2 := ExecBody(fuel, w, s.body, f, s1), ExecBody(fuel, w, s'.body, f, s2);
    SimTryOutcome(fuel, w, s, s', f, r1, r2, s0);
    SimFinally(fuel, w, s, s', f, TryOutcome(fuel, w, s, f, r1), TryOutcome(fuel, w, s', f, r2), s0);
    TryUnfolds(fuel, w, s, f, s1);
    TryUnfolds(fuel, w, s', f, s2);
  }

  lemma {:induction false} SimFinally(fuel: nat, w: World, s: Stmt, s': Stmt, f: nat, q1: R<Completion>, q2: R<Completion>, s0: State)
    requires Sim(q1, q2, s0, f) && f < |s0.frames| && s.Try? && Compound(s, s', s0.exact)
    ensures Sim(Finally(fuel, w, s.finalbody, f, q1), Finally(fuel, w, s'.finalbody, f, q2), s0, f)
    decreases fuel, 3, s, 0, 0
  {
    if !q1.Diverge? {
      SimBody(fuel, w, s.finalbody, f, q1.st, q2.st, s0);
    }
  }

  lemma TryUnfolds(fuel: nat, w: World, s: Stmt, f: nat, st: State)
    requires s.Try?
    ensures ExecTry(fuel, w, s, f, st)
         == Finally(fuel, w, s.finalbody, f, TryOutcome(fuel, w, s, f, ExecBody(fuel, w, s.body, f, st)))
  {
  }

  lemma {:induction false} SimCases(fuel: nat, w: World, cs: seq<MatchCase>, cs': seq<MatchCase>, v: Value, f: nat,
                                    s1: State, s2: State, s0: State)
    requires Rel(s1, s2) && Kept(s0, s2, f) && f < |s0.frames| && CasesRel(cs, cs', s0.exact)
    ensures Sim(ExecCases(fuel, w, cs, v, f, s1), ExecCases(fuel, w, cs', v, f, s2), s0, f)
    decreases fuel, 3, cs
  {
    if cs == [] {
    } else {
      assert CaseRel(cs[0], cs'[0], s0.exact);
      CasesUnfold(fuel, w, cs, v, f, s1);
      CasesUnfold(fuel, w, cs', v, f, s2);
      var ev := Did("match", "", [IntV(cs[0].pattern), v]);
      SimOutside(fuel, w, ev, s1, s2, s0, f);
      var r1, r2 := Outside(fuel, w, ev, s1), Outside(fuel, w, ev, s2);
      if r1.Done? {
        if r1.value.None? {
          SimCases(fuel, w, cs[1..], cs'[1..], v, f, r1.st, r2.st, s0);
        } else {
          SimMatched(fuel, w, cs, cs', v, f, r1.st, r2.st, s0);
        }
      }
    }
  }

  lemma CasesUnfold(fuel: nat, w: World, cs: seq<MatchCase>, v: Value, f: nat, st: State)
    requires cs != []
    ensures
      var r := Outside(fuel, w, Did("match", "", [IntV(cs[0].pattern), v]), st);
      ExecCases(fuel, w, cs, v, f, st) ==
      if !r.Done? then r.PropagateFailure()
      else if r.value.None? then ExecCases(fuel, w, cs[1..], v, f, r.st)
      else Matched(fuel, w, cs, v, f, r.st)
  {
  }

  // The first case, its pattern having matched.
  function Matched(fuel: nat, w: World, cs: seq<MatchCase>, v: Value, f: nat, st: State): R<Completion>
    requires cs != []
  {
    var (_, st1) :- BindFetched(fuel, w, "capture", v, cs[0].captures, f, st);
    CaseBody(fuel, w, cs, v, f, st1)
  }

  lemma {:induction false} SimMatched(fuel: nat, w: World, cs: seq<MatchCase>, cs': seq<MatchCase>, v: Value, f: nat,
                                      s1: State, s2: State, s0: State)
    requires Rel(s1, s2) && Kept(s0, s2, f) && f < |s0.frames| && CasesRel(cs, cs', s0.exact) && cs != []
    ensures Sim(Matched(fuel, w, cs, v, f, s1), Matched(fuel, w, cs', v, f, s2), s0, f)
    decreases fuel, 3, cs, 1
  {
    assert CaseRel(cs[0], cs'[0], s0.exact);
    SimBindFetched(fuel, w, "capture", v, cs[0].captures, f, s1, s2, s0, f);
    var b1, b2 := BindFetched(fuel, w, "capture", v, cs[0].captures, f, s1), BindFetched(fuel, w, "capture", v, cs[0].captures, f, s2);
    if b1.Done? {
      SimCaseBody(fuel, w, cs, cs', v, f, b1.st, b2.st, s0);
    }
  }

  function CaseBody(fuel: nat, w: World, cs: seq<MatchCase>, v: Value, f: nat, st: State): R<Completion>
    requires cs != []
  {
    if cs[0].guard.None? then ExecBody(fuel, w, cs[0].body, f, st)
    else
      var (g, st2) :- Eval(fuel, w, cs[0].guard.value, f, st);
      var (t, st3) :- Truth(fuel, w, g, st2);
      if t then ExecBody(fuel, w, cs[0].body, f, st3) else ExecCases(fuel, w, cs[1..], v, f, st3)
  }

  lemma {:induction false} SimCaseBody(fuel: nat, w: World, cs: seq<MatchCase>, cs': seq<MatchCase>, v: Value, f: nat,
                                       s1: State, s2: State, s0: State)
    requires Rel(s1, s2) && Kept(s0, s2, f) && f < |s0.frames| && CasesRel(cs, cs', s0.exact) && cs != []
    ensures Sim(CaseBody(fuel, w, cs, v, f, s1), CaseBody(fuel, w, cs', v, f, s2), s0, f)
    decreases fuel, 3, cs, 0
  {
    assert CaseRel(cs[0], cs'[0], s0.exact);
    if cs[0].guard.None? {
      SimBody(fuel, w, cs[0].body, f, s1, s2, s0);
    } else {
      var e := cs[0].guard.value;
      GuardUnfolds(fuel, w, cs, v, f, s1);
      GuardUnfolds(fuel, w, cs', v, f, s2);
      SimTested(fuel, w, e, f, s1, s2, s0, f);
      var t1, t2 := Tested(fuel, w, e, f, s1), Tested(fuel, w, e, f, s2);
      if t1.Done? {
        if t1.value {
          SimBody(fuel, w, cs[0].body, f, t1.st, t2.st, s0);
        } else {
          SimCases(fuel, w, cs[1..], cs'[1..], v, f, t1.st, t2.st, s0);
        }
      }
    }
  }

  lemma GuardUnfolds(fuel: nat, w: World, cs: seq<MatchCase>, v: Value, f: nat, st: State)
    requires cs != [] && cs[0].guard.Some?
    ensures
      var t := Tested(fuel, w, cs[0].guard.value, f, st);
      CaseBody(fuel, w, cs, v, f, st) ==
      if !t.Done? then t.PropagateFailure()
      else if t.value then ExecBody(fuel, w, cs[0].body, f, t.st) else ExecCases(fuel, w, cs[1..], v, f, t.st)
  {
  }

  lemma {:induction false} SimMatch(fuel: nat, w: World, s: Stmt, s': Stmt, f: nat, s1: State, s2: State, s0: State)
    requires Rel(s1, s2) && Kept(s0, s2, f) && f < |s0.frames| && s.Match? && Compound(s, s', s0.exact)
    ensures Sim(ExecMatch(fuel, w, s, f, s1), ExecMatch(fuel, w, s', f, s2), s0, f)
    decreases fuel, 3, s, 0, 1
  {
    SimEval(fuel, w, s.subject, f, s1, s2, s0, f);
    var r1, r2 := Eval(fuel, w, s.subject, f, s1), Eval(fuel, w, s.subject, f, s2);
    if r1.Done? {
      SimCases(fuel, w, s.cases, s'.cases, r1.value, f, r1.st, r2.st, s0);
    }
  }

  lemma {:induction false} SimChildren(fuel: nat, w: World, s: Stmt, f: nat, s1: State, s2: State, s0: State)
    requires Rel(s1, s2) && Kept(s0, s2, f) && CleanS(s, s0.exact) && f < |s0.frames| && !s.Assert?
    ensures Sim(Exec(fuel, w, s, f, s1), Exec(fuel, w, RewriteChildren(s), f, s2), s0, f)
    decreases fuel, 3, s, 2
  {
    if Bodies(s) != [] || s.Match? {
      CompoundRel(s, s0.exact);
      SimCompound(fuel, w, s, RewriteChildren(s), f, s1, s2, s0);
    } else {
      SimpleUnchanged(s, s0.exact);
      ExecDispatch(fuel, w, s, f, s1);
      ExecDispatch(fuel, w, s, f, s2);
      if s.Assign? {
        SimAssign(fuel, w, s, f, s1, s2, s0, f);
      } else {
        SimSimple(fuel, w, s, f, s1, s2, s0, f);
      }
    }
  }

  lemma SimpleUnchanged(s: Stmt, exact: bool)
    requires CleanS(s, exact) && Bodies(s) == [] && !s.Match?
    ensures RewriteChildren(s) == s && CleanOwn(s, exact)
  {
  }

  lemma ExecDispatch(fuel: nat, w: World, s: Stmt, f: nat, st: State)
    requires !s.Assert?
    ensures Exec(fuel, w, s, f, st) ==
      if s.Assign? then ExecAssign(fuel, w, s, f, st)
      else if s.FunctionDef? then ExecFunctionDef(fuel, w, s, f, st)
      else if s.ClassDef? then ExecClassDef(fuel, w, s, f, st)
      else if s.If? then ExecIf(fuel, w, s, f, st)
      else if s.While? then ExecWhile(fuel, w, s, f, st)
      else if s.For? then ExecFor(fuel, w, s, f, st)
      else if s.With? then ExecWith(fuel, w, s, f, st)
      else if s.Try? then ExecTry(fuel, w, s, f, st)
      else if s.Match? then ExecMatch(fuel, w, s, f, st)
      else ExecSimple(fuel, w, s, f, st)
  {
  }

  lemma {:induction false} SimCompound(fuel: nat, w: World, s: Stmt, s': Stmt, f: nat, s1: State, s2: State, s0: State)
    requires Rel(s1, s2) && Kept(s0, s2, f) && f < |s0.frames| && Compound(s, s', s0.exact)
    ensures Sim(Exec(fuel, w, s, f, s1), Exec(fuel, w, s', f, s2), s0, f)
    decreases fuel, 3, s, 1, 1
  {
    ExecDispatch(fuel, w, s, f, s1);
    ExecDispatch(fuel, w, s', f, s2);
    if s.FunctionDef? {
      SimFunctionDef(fuel, w, s, s', f, s1, s2, s0, f);
    } else if s.ClassDef? {
      SimClassDef(fuel, w, s, s', f, s1, s2, s0, f);
    } else if s.Try? {
      SimTry(fuel, w, s, s', f, s1, s2, s0);
    } else if s.Match? {
      SimMatch(fuel, w, s, s', f, s1, s2, s0);
    } else {
      SimBlock(fuel, w, s, s', f, s1, s2, s0);
    }
  }

  lemma {:induction false} SimBlock(fuel: nat, w: World, s: Stmt, s': Stmt, f: nat, s1: State, s2: State, s0: State)
    requires Rel(s1, s2) && Kept(s0, s2, f) && f < |s0.frames| && Compound(s, s', s0.exact)
    requires s.If? || s.While? || s.For? || s.With?
    ensures Sim(Exec(fuel, w, s, f, s1), Exec(fuel, w, s', f, s2), s0, f)
    decreases fuel, 3, s, 1, 0
  {
    ExecDispatch(fuel, w, s, f, s1);
    ExecDispatch(fuel, w, s', f, s2);
    match s
    case If(_, _, _) => SimIf(fuel, w, s, s', f, s1, s2, s0);
    case While(_, _, _) => SimWhile(fuel, w, s, s', f, s1, s2, s0);
    case For(_, _, _, _) => SimFor(fuel, w, s, s', f, s1, s2, s0);
    case With(_, _, _) => SimWith(fuel, w, s, s', f, s1, s2, s0);
  }
}
