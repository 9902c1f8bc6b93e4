/**
 The relation between a run of a program and the run of its rewrite, and the proof that
 every primitive step of the interpreter keeps it.
 */
module RewriteRelation {
  import opened Options
  import opened PyAst
  import opened Rewriter
  import opened PySemantics

  // ── Programs that do not mention the reserved names ───────────────────────────────────
  // Where error arguments are read exactly, rewritten asserts must also have a message.

  ghost predicate CleanE(e: Expr) {
    match e
    case Name(x) => x !in RESERVED
    case Constant(_) => true
    case Attribute(b, attr, _) => attr !in RESERVED && CleanE(b)
    case Compare(l, _, cs) => CleanE(l) && CleanEs(cs)
    case BoolOp(_, es) => CleanEs(es)
    case Not(b) => CleanE(b)
    case NamedExpr(x, b) => x !in RESERVED && CleanE(b)
    case IfExp(c, t, f) => CleanE(c) && CleanE(t) && CleanE(f)
    case Call(fn, args) => CleanE(fn) && CleanEs(args)
    case Lambda(params, b) => CleanNames(params) && CleanE(b)
    case Operation(_, es) => CleanEs(es)
  }

  ghost predicate CleanEs(es: seq<Expr>) {
    es == [] || (CleanE(es[0]) && CleanEs(es[1..]))
  }

  ghost predicate CleanNames(xs: seq<string>) {
    forall x | x in xs :: x !in RESERVED
  }

  ghost predicate CleanOpt(e: Option<Expr>) {
    e.Some? ==> CleanE(e.value)
  }

  // The message of an assert that is rewritten.
  ghost predicate CleanMsg(msg: Option<Expr>, exact: bool) {
    CleanOpt(msg) && (exact ==> msg.Some?)
  }

  ghost predicate CleanAliases(aliases: seq<Alias>) {
    forall a | a in aliases :: a.bound !in RESERVED
  }

  ghost predicate CleanHandler(h: Handler) {
    CleanOpt(h.kind) && (h.name.Some? ==> h.name.value !in RESERVED)
  }

  ghost predicate CleanCase(c: MatchCase) {
    CleanAliases(c.captures) && CleanOpt(c.guard)
  }

  ghost predicate CleanOwn(s: Stmt, exact: bool) {
    match s
    case ExprStmt(e) => CleanE(e)
    case Assign(t, e) => CleanE(t) && CleanE(e)
    case Return(e) => CleanOpt(e)
    case Raise(e) => CleanE(e)
    case Assert(t, m, _, _) => CleanE(t) && CleanMsg(m, exact && Eligible(s))
    case Import(aliases) => CleanAliases(aliases)
    case ImportFrom(_, _, aliases) => CleanAliases(aliases)
    case FunctionDef(name, params, globals, ds, _) =>
      name !in RESERVED && CleanNames(params) && globals !! RESERVED && CleanEs(ds)
    case ClassDef(name, bases, ds, _) => name !in RESERVED && CleanEs(bases) && CleanEs(ds)
    case If(t, _, _) => CleanE(t)
    case While(t, _, _) => CleanE(t)
    case For(t, i, _, _) => CleanE(t) && CleanE(i)
    case With(c, t, _) => CleanE(c) && CleanOpt(t)
    case Try(_, hs, _, _) => forall i | 0 <= i < |hs| :: CleanHandler(hs[i])
    case Match(e, cs) => CleanE(e) && forall i | 0 <= i < |cs| :: CleanCase(cs[i])
    case _ => true
  }

  ghost predicate CleanS(s: Stmt, exact: bool)
    decreases s, 0
  {
    CleanOwn(s, exact) && forall i | 0 <= i < |Bodies(s)| :: CleanB(Bodies(s)[i], exact)
  }

  ghost predicate CleanB(body: seq<Stmt>, exact: bool)
    decreases body
  {
    body == [] || (CleanS(body[0], exact) && CleanB(body[1..], exact))
  }

  // ── Scoping survives the rewrite ──────────────────────────────────────────────────────

  lemma {:induction false} CleanBoundE(e: Expr)
    requires CleanE(e)
    ensures BoundE(e) !! RESERVED
  {
    match e
    case Name(_) =>
    case Constant(_) =>
    case Attribute(b, _, _) => CleanBoundE(b);
    case Compare(l, _, cs) => CleanBoundE(l); CleanBoundEs(cs);
    case BoolOp(_, es) => CleanBoundEs(es);
    case Not(b) => CleanBoundE(b);
    case NamedExpr(x, b) => CleanBoundE(b);
    case IfExp(c, t, f) => CleanBoundE(c); CleanBoundE(t); CleanBoundE(f);
    case Call(fn, args) => CleanBoundE(fn); CleanBoundEs(args);
    case Lambda(_, _) =>
    case Operation(_, es) => CleanBoundEs(es);
  }

  lemma {:induction false} CleanBoundEs(es: seq<Expr>)
    requires CleanEs(es)
    ensures BoundEs(es) !! RESERVED
  {
    if es == [] {
    } else {
      CleanBoundE(es[0]);
      CleanBoundEs(es[1..]);
    }
  }

  lemma CleanBoundOpt(e: Option<Expr>)
    requires CleanOpt(e)
    ensures BoundOpt(e) !! RESERVED
  {
    if e.Some? {
      CleanBoundE(e.value);
    }
  }

  lemma CleanBoundOwn(s: Stmt, exact: bool)
    requires CleanOwn(s, exact)
    ensures BoundOwn(s) !! RESERVED
  {
    match s
    case ExprStmt(e) => CleanBoundE(e);
    case Assign(t, e) => CleanBoundE(t); CleanBoundE(e);
    case Return(e) => CleanBoundOpt(e);
    case Raise(e) => CleanBoundE(e);
    case Assert(t, m, _, _) => CleanBoundE(t); CleanBoundOpt(m);
    case FunctionDef(_, _, _, ds, _) => CleanBoundEs(ds);
    case ClassDef(_, bases, ds, _) => CleanBoundEs(bases); CleanBoundEs(ds);
    case If(t, _, _) => CleanBoundE(t);
    case While(t, _, _) => CleanBoundE(t);
    case For(t, i, _, _) => CleanBoundE(t); CleanBoundE(i);
    case With(c, t, _) => CleanBoundE(c); CleanBoundOpt(t);
    case Try(_, hs, _, _) =>
      forall i | 0 <= i < |hs| ensures BoundHandler(hs[i]) !! RESERVED {
        CleanBoundOpt(hs[i].kind);
      }
    case Match(e, cs) =>
      CleanBoundE(e);
      forall i | 0 <= i < |cs| ensures BoundCase(cs[i]) !! RESERVED {
        CleanBoundOpt(cs[i].guard);
      }
    case _ =>
  }

  lemma {:induction false} CleanBoundS(s: Stmt, exact: bool)
    requires CleanS(s, exact)
    ensures BoundS(s) !! RESERVED
    decreases s, 0
  {
    CleanBoundOwn(s, exact);
    forall i | 0 <= i < |Bodies(s)| ensures BoundB(Bodies(s)[i]) !! RESERVED {
      CleanBoundB(Bodies(s)[i], exact);
    }
  }

  lemma {:induction false} CleanBoundB(body: seq<Stmt>, exact: bool)
    requires CleanB(body, exact)
    ensures BoundB(body) !! RESERVED
    decreases body
  {
    if body == [] {
    } else {
      CleanBoundS(body[0], exact);
      CleanBoundB(body[1..], exact);
    }
  }

  lemma {:induction false} BoundConcat(a: seq<Stmt>, b: seq<Stmt>)
    ensures BoundB(a + b) == BoundB(a) + BoundB(b)
  {
    if a == [] {
      assert a + b == b;
    } else {
      assert (a + b)[1..] == a[1..] + b;
      BoundConcat(a[1..], b);
    }
  }

  lemma BoundOwnWithBodies(s: Stmt, bs: seq<seq<Stmt>>)
    requires |bs| == |Bodies(s)|
    ensures BoundOwn(WithBodies(s, bs)) == BoundOwn(s)
  {
    var r := WithBodies(s, bs);
    match s
    case Try(_, hs, _, _) =>
      assert forall i | 0 <= i < |hs| :: BoundHandler(r.handlers[i]) == BoundHandler(hs[i]);
    case Match(_, cs) =>
      assert forall i | 0 <= i < |cs| :: BoundCase(r.cases[i]) == BoundCase(cs[i]);
    case _ =>
  }

  ghost predicate SameBut(a: set<string>, b: set<string>, except: set<string>) {
    forall x | x !in except :: x in a <==> x in b
  }

  /** Rewriting makes only the temporaries local: every other name keeps its scope. */
  lemma {:induction false} RewriteKeepsScope(body: seq<Stmt>)
    ensures SameBut(BoundB(RewriteBody(body)), BoundB(body), TEMPS)
    decreases body
  {
    if body == [] {
    } else {
      RewriteKeepsScopeS(body[0]);
      RewriteKeepsScope(body[1..]);
      BoundConcat(RewriteStmt(body[0]), RewriteBody(body[1..]));
    }
  }

  lemma {:induction false} RewriteKeepsScopeS(s: Stmt)
    ensures SameBut(BoundB(RewriteStmt(s)), BoundS(s), TEMPS)
    decreases s, 0
  {
    if Eligible(s) {
      BoundGenerated(s);
    } else {
      BoundSingle(RewriteStmt(s)[0]);
      if !s.Assert? {
        forall i | 0 <= i < |Bodies(s)|
          ensures SameBut(BoundB(RewriteBodies(s)[i]), BoundB(Bodies(s)[i]), TEMPS)
        {
          RewriteKeepsScope(Bodies(s)[i]);
        }
        BoundWithBodies(s, RewriteBodies(s), TEMPS);
      }
    }
  }

  lemma BoundWithBodies(s: Stmt, bs: seq<seq<Stmt>>, except: set<string>)
    requires |bs| == |Bodies(s)|
    requires forall i | 0 <= i < |bs| :: SameBut(BoundB(bs[i]), BoundB(Bodies(s)[i]), except)
    ensures SameBut(BoundS(WithBodies(s, bs)), BoundS(s), except)
  {
    BoundOwnWithBodies(s, bs);
    var r := WithBodies(s, bs);
    forall x | x !in except ensures x in BoundS(r) <==> x in BoundS(s) {
      assert forall i | 0 <= i < |bs| :: x in BoundB(Bodies(r)[i]) <==> x in BoundB(Bodies(s)[i]);
    }
  }

  lemma BoundSingle(s: Stmt)
    ensures BoundB([s]) == BoundS(s)
  {
  }

  lemma BoundEsConcat(a: seq<Expr>, b: seq<Expr>)
    ensures BoundEs(a + b) == BoundEs(a) + BoundEs(b)
    decreases a
  {
    if a == [] {
      assert a + b == b;
    } else {
      assert (a + b)[1..] == a[1..] + b;
      BoundEsConcat(a[1..], b);
    }
  }

  lemma BoundErrorCall(left: string, right: string, op: string, msg: Option<Expr>)
    ensures BoundE(ErrorCall(left, right, op, msg)) == BoundOpt(msg)
  {
    var names := [Name(left), Name(right), Constant(LitStr(op))];
    BoundEsConcat(names, [MsgExpr(msg)]);
    assert BoundEs(names) == {} by {
      assert BoundEs(names[2..]) == {};
      assert names[1..][1..] == names[2..];
      assert BoundEs(names[1..]) == {};
    }
    assert ErrorCall(left, right, op, msg).args == names + [MsgExpr(msg)];
  }

  lemma BoundIf(test: Expr, body: seq<Stmt>, orelse: seq<Stmt>)
    ensures BoundS(If(test, body, orelse)) == BoundE(test) + BoundB(body) + BoundB(orelse)
  {
    var s := If(test, body, orelse);
    assert Bodies(s)[0] == body && Bodies(s)[1] == orelse;
  }

  lemma BoundIfNotRaise(test: Expr, left: string, right: string, op: string, msg: Option<Expr>)
    requires BoundE(test) == {}
    ensures BoundS(IfNotRaise(test, left, right, op, msg)) == BoundOpt(msg)
  {
    var raised := Raise(ErrorCall(left, right, op, msg));
    BoundErrorCall(left, right, op, msg);
    BoundSingle(raised);
    BoundIf(Not(test), [raised], []);
  }

  // Assigning a temporary binds it and what its value binds.
  lemma BoundTemp(x: string, e: Expr)
    ensures BoundB([Assign(Name(x), e)]) == {x} + BoundE(e)
  {
    BoundSingle(Assign(Name(x), e));
  }

  lemma BoundGenerated(s: Stmt)
    requires Eligible(s)
    ensures SameBut(BoundB(RewriteStmt(s)), BoundS(s), TEMPS)
  {
    if s.test.Compare? {
      BoundCompare(s.test.left, s.test.ops[0], s.test.comparators[0], OpStr(s.test.ops[0]).value, s.msg);
      assert s.test.comparators == [s.test.comparators[0]];
      assert BoundEs([s.test.comparators[0]]) == BoundE(s.test.comparators[0]);
    } else {
      BoundValue(s.test, s.msg);
    }
  }

  lemma BoundCompare(left: Expr, op: string, right: Expr, opString: string, msg: Option<Expr>)
    ensures BoundB(RewriteCompare(left, op, right, opString, msg))
         == {TEMP_LEFT, TEMP_RIGHT} + BoundE(left) + BoundE(right) + BoundOpt(msg)
  {
    var r := RewriteCompare(left, op, right, opString, msg);
    var test := Compare(Name(TEMP_LEFT), [op], [Name(TEMP_RIGHT)]);
    assert BoundEs(test.comparators) == {};
    BoundIfNotRaise(test, TEMP_LEFT, TEMP_RIGHT, opString, msg);
    assert r == [r[0]] + ([r[1]] + [r[2]]);
    BoundConcat([r[0]], [r[1]] + [r[2]]);
    BoundConcat([r[1]], [r[2]]);
    BoundTemp(TEMP_LEFT, left);
    BoundTemp(TEMP_RIGHT, right);
    BoundSingle(r[2]);
  }

  lemma BoundValue(test: Expr, msg: Option<Expr>)
    ensures BoundB(RewriteValue(test, msg)) == {TEMP_VALUE} + BoundE(test) + BoundOpt(msg)
  {
    var r := RewriteValue(test, msg);
    BoundIfNotRaise(Name(TEMP_VALUE), TEMP_VALUE, NO_RHS, "", msg);
    assert r == [r[0]] + [r[1]];
    BoundConcat([r[0]], [r[1]]);
    BoundTemp(TEMP_VALUE, test);
    BoundSingle(r[1]);
  }

  // ── Compound statements ───────────────────────────────────────────────────────────────

  ghost predicate HandlersRel(hs: seq<Handler>, hs': seq<Handler>, exact: bool) {
    |hs| == |hs'| && forall i | 0 <= i < |hs| :: HandlerRel(hs[i], hs'[i], exact)
  }

  ghost predicate HandlerRel(h: Handler, h': Handler, exact: bool) {
    CleanHandler(h) && CleanB(h.body, exact) && h' == Handler(h.kind, h.name, RewriteBody(h.body))
  }

  ghost predicate CaseRel(c: MatchCase, c': MatchCase, exact: bool) {
    CleanCase(c) && CleanB(c.body, exact) && c' == MatchCase(c.pattern, c.captures, c.guard, RewriteBody(c.body))
  }

  ghost predicate CasesRel(cs: seq<MatchCase>, cs': seq<MatchCase>, exact: bool) {
    |cs| == |cs'| && forall i | 0 <= i < |cs| :: CaseRel(cs[i], cs'[i], exact)
  }

  // A clean compound statement and its rewrite, part by part.
  ghost predicate Compound(s: Stmt, s': Stmt, exact: bool) {
    match s
    case FunctionDef(name, params, globals, ds, body) =>
      && name !in RESERVED && CleanNames(params) && globals !! RESERVED && CleanEs(ds) && CleanB(body, exact)
      && s' == FunctionDef(name, params, globals, ds, RewriteBody(body))
    case ClassDef(name, bases, ds, body) =>
      && name !in RESERVED && CleanEs(bases) && CleanEs(ds) && CleanB(body, exact)
      && s' == ClassDef(name, bases, ds, RewriteBody(body))
    case If(test, body, orelse) =>
      CleanE(test) && CleanB(body, exact) && CleanB(orelse, exact) && s' == If(test, RewriteBody(body), RewriteBody(orelse))
    case While(test, body, orelse) =>
      CleanE(test) && CleanB(body, exact) && CleanB(orelse, exact) && s' == While(test, RewriteBody(body), RewriteBody(orelse))
    case For(target, iter, body, orelse) =>
      && CleanE(target) && CleanE(iter) && CleanB(body, exact) && CleanB(orelse, exact)
      && s' == For(target, iter, RewriteBody(body), RewriteBody(orelse))
    case With(context, asTarget, body) =>
      CleanE(context) && CleanOpt(asTarget) && CleanB(body, exact) && s' == With(context, asTarget, RewriteBody(body))
    case Try(body, handlers, orelse, finalbody) =>
      && CleanB(body, exact) && CleanB(orelse, exact) && CleanB(finalbody, exact)
      && s'.Try? && HandlersRel(handlers, s'.handlers, exact)
      && s' == Try(RewriteBody(body), s'.handlers, RewriteBody(orelse), RewriteBody(finalbody))
    case Match(subject, cases) =>
      CleanE(subject) && s'.Match? && s'.subject == subject && CasesRel(cases, s'.cases, exact)
    case _ => false
  }

  lemma TryHandlersRel(s: Stmt, exact: bool)
    requires s.Try? && CleanS(s, exact)
    ensures |s.handlers| == |RewriteChildren(s).handlers| && HandlersRel(s.handlers, RewriteChildren(s).handlers, exact)
  {
    var bs := RewriteBodies(s);
    assert CleanOwn(s, exact);
    forall i | 0 <= i < |s.handlers| ensures |s.handlers| == |RewriteChildren(s).handlers| && HandlerRel(s.handlers[i], RewriteChildren(s).handlers[i], exact) {
      TryBodies(s, bs, i);
      assert CleanB(Bodies(s)[3 + i], exact);
    }
  }

  lemma MatchCasesRel(s: Stmt, exact: bool)
    requires s.Match? && CleanS(s, exact)
    ensures CasesRel(s.cases, RewriteChildren(s).cases, exact)
  {
    var bs := RewriteBodies(s);
    assert CleanOwn(s, exact);
    forall i | 0 <= i < |s.cases| ensures |s.cases| == |RewriteChildren(s).cases| && CaseRel(s.cases[i], RewriteChildren(s).cases[i], exact) {
      MatchBodies(s, bs, i);
      assert CleanB(Bodies(s)[i], exact);
    }
  }

  lemma CompoundRel(s: Stmt, exact: bool)
    requires CleanS(s, exact) && (Bodies(s) != [] || s.Match?)
    ensures Compound(s, RewriteChildren(s), exact)
  {
    assert CleanOwn(s, exact);
    assert forall i | 0 <= i < |Bodies(s)| :: CleanB(Bodies(s)[i], exact);
    if s.Try? {
      TryHandlersRel(s, exact);
      assert CleanB(Bodies(s)[0], exact) && CleanB(Bodies(s)[1], exact) && CleanB(Bodies(s)[2], exact);
    } else if s.Match? {
      MatchCasesRel(s, exact);
    } else if |Bodies(s)| == 2 {
      assert CleanB(Bodies(s)[0], exact) && CleanB(Bodies(s)[1], exact);
    } else {
      assert CleanB(Bodies(s)[0], exact);
    }
  }

  // ── The relation ──────────────────────────────────────────────────────────────────────

  ghost predicate FrameRel(a: Frame, b: Frame) {
    && a.parent == b.parent && a.isClass == b.isClass && a.globals == b.globals
    && a.globals !! RESERVED
    && b.locals !! INJECTED
    && a.locals - RESERVED == b.locals - RESERVED
    && a.vars - RESERVED == b.vars - RESERVED
  }

  ghost predicate FnRel(a: FnObj, b: FnObj, exact: bool) {
    && a.params == b.params && a.globals == b.globals && a.env == b.env
    && CleanNames(a.params) && a.globals !! RESERVED && CleanB(a.body, exact)
    && b.body == RewriteBody(a.body)
  }

  // A failed assert: the rewritten one carries its operands and the same message.
  ghost predicate ExcRel(a: ExcObj, b: ExcObj, exact: bool) {
    a == b || (a.cls == ASSERTION_ERROR && b.cls == ERROR_CLASS && b.operands.Some? && ViewOf(a, exact) == ViewOf(b, exact))
  }

  // The loader's two names are found from every frame, and only in frame 0.
  ghost predicate Injected(st: State) {
    && |st.frames| > 0
    && ERROR_CLASS in st.frames[0].vars && st.frames[0].vars[ERROR_CLASS] == ErrorClassV
    && NO_RHS in st.frames[0].vars && st.frames[0].vars[NO_RHS] == NoRhsV
    && forall i | 0 < i < |st.frames| :: st.frames[i].vars.Keys !! INJECTED
  }

  ghost predicate Rel(s1: State, s2: State) {
    && |s1.frames| == |s2.frames| && |s1.fns| == |s2.fns| && |s1.excs| == |s2.excs|
    && (forall i | 0 <= i < |s1.frames| :: FrameRel(s1.frames[i], s2.frames[i]))
    && (forall i | 0 <= i < |s1.fns| :: FnRel(s1.fns[i], s2.fns[i], s1.exact))
    && (forall i | 0 <= i < |s1.excs| :: ExcRel(s1.excs[i], s2.excs[i], s1.exact))
    && s1.trace == s2.trace && s1.exact == s2.exact
    && Injected(s2)
  }

  ghost function Temps(fr: Frame): map<string, Value> {
    map x | x in fr.vars && x in TEMPS :: fr.vars[x]
  }

  // From `s` to `t` no frame but `g` had a temporary touched.
  ghost predicate Kept(s: State, t: State, g: int) {
    && |s.frames| <= |t.frames| && s.exact == t.exact
    && forall i | 0 <= i < |s.frames| && i != g :: Temps(t.frames[i]) == Temps(s.frames[i])
  }

  /** Two outcomes agree: same value or exception, related states, temporaries of `s0` kept. */
  ghost predicate Sim<T>(r1: R<T>, r2: R<T>, s0: State, g: int) {
    match r1
    case Done(v, t1) => r2.Done? && r2.value == v && Rel(t1, r2.st) && Kept(s0, r2.st, g)
    case Exn(x, t1) => r2.Exn? && r2.exc == x && Rel(t1, r2.st) && Kept(s0, r2.st, g)
    case Diverge => r2.Diverge?
  }

  // ── Primitive steps keep the relation ─────────────────────────────────────────────────

  lemma RelAsked(ev: Event, s1: State, s2: State, s0: State, g: int)
    requires Rel(s1, s2) && Kept(s0, s2, g)
    ensures Rel(Asked(s1, ev), Asked(s2, ev)) && Kept(s0, Asked(s2, ev), g)
  {
  }

  lemma RelNewExc(a: ExcObj, b: ExcObj, s1: State, s2: State, s0: State, g: int)
    requires Rel(s1, s2) && Kept(s0, s2, g) && ExcRel(a, b, s1.exact)
    ensures Rel(NewExc(s1, a), NewExc(s2, b)) && Kept(s0, NewExc(s2, b), g)
  {
  }

  lemma RelThrow<T>(e: ExcObj, s1: State, s2: State, s0: State, g: int)
    requires Rel(s1, s2) && Kept(s0, s2, g)
    ensures Sim<T>(Throw(e, s1), Throw(e, s2), s0, g)
  {
    RelNewExc(e, e, s1, s2, s0, g);
  }

  lemma RelRaiseExisting<T>(x: Value, s1: State, s2: State, s0: State, g: int)
    requires Rel(s1, s2) && Kept(s0, s2, g)
    ensures Sim<T>(RaiseExisting(x, s1), RaiseExisting(x, s2), s0, g)
  {
    RelThrow<T>(ExcObj("TypeError", [], None), s1, s2, s0, g);
  }

  lemma FrameVar(a: Frame, b: Frame, x: string)
    requires FrameRel(a, b) && x !in RESERVED
    ensures x in a.vars <==> x in b.vars
    ensures x in a.vars ==> a.vars[x] == b.vars[x]
    ensures x in a.locals <==> x in b.locals
  {
    var va, vb := a.vars - RESERVED, b.vars - RESERVED;
    assert x in a.vars <==> x in va;
    assert x in b.vars <==> x in vb;
    assert x in va ==> va[x] == a.vars[x];
    assert x in vb ==> vb[x] == b.vars[x];
    assert x in a.locals <==> x in a.locals - RESERVED;
    assert x in b.locals <==> x in b.locals - RESERVED;
  }

  lemma {:induction false} RelResolve(s1: State, s2: State, f: nat, x: string, own: bool)
    requires Rel(s1, s2) && x !in RESERVED
    ensures Resolve(s1, f, x, own) == Resolve(s2, f, x, own)
    decreases f
  {
    FrameVar(s1.frames[0], s2.frames[0], x);
    if f < |s1.frames| {
      var a, b := s1.frames[f], s2.frames[f];
      FrameVar(a, b, x);
      if a.parent < f {
        RelResolve(s1, s2, a.parent, x, false);
      }
    }
  }

  // The loader's names resolve to what it put there, whatever frame asks.
  lemma {:induction false} ResolveInjected(s1: State, s2: State, f: nat, x: string, own: bool)
    requires Rel(s1, s2) && x in INJECTED && f < |s2.frames|
    ensures Resolve(s2, f, x, own) == Found(s2.frames[0].vars[x])
    decreases f
  {
    var a, b := s1.frames[f], s2.frames[f];
    assert FrameRel(a, b);
    assert x in RESERVED && x !in b.globals && x !in b.locals;
    if f > 0 {
      assert x !in b.vars.Keys;
      if b.parent < f {
        ResolveInjected(s1, s2, b.parent, x, false);
      }
    }
  }

  lemma RelSetVar(s1: State, s2: State, f: nat, x: string, v: Value, s0: State, g: int)
    requires Rel(s1, s2) && Kept(s0, s2, g) && x !in RESERVED
    ensures Rel(SetVar(s1, f, x, v), SetVar(s2, f, x, v)) && Kept(s0, SetVar(s2, f, x, v), g)
  {
    if f < |s1.frames| {
      var a, b := s1.frames[f], s2.frames[f];
      assert FrameRel(a, b);
      FrameSet(a, b, x, v);
    }
  }

  lemma FrameSet(a: Frame, b: Frame, x: string, v: Value)
    requires FrameRel(a, b) && x !in RESERVED
    ensures FrameRel(a.(vars := a.vars[x := v]), b.(vars := b.vars[x := v]))
    ensures Temps(b.(vars := b.vars[x := v])) == Temps(b)
  {
    assert a.vars[x := v] - RESERVED == (a.vars - RESERVED)[x := v];
    assert b.vars[x := v] - RESERVED == (b.vars - RESERVED)[x := v];
  }

  lemma FrameDel(a: Frame, b: Frame, x: string)
    requires FrameRel(a, b) && x !in RESERVED
    ensures FrameRel(a.(vars := a.vars - {x}), b.(vars := b.vars - {x}))
    ensures Temps(b.(vars := b.vars - {x})) == Temps(b)
  {
    assert a.vars - {x} - RESERVED == (a.vars - RESERVED) - {x};
    assert b.vars - {x} - RESERVED == (b.vars - RESERVED) - {x};
  }

  lemma RelDelVar(s1: State, s2: State, f: nat, x: string, s0: State, g: int)
    requires Rel(s1, s2) && Kept(s0, s2, g) && x !in RESERVED
    ensures Rel(DelVar(s1, f, x), DelVar(s2, f, x)) && Kept(s0, DelVar(s2, f, x), g)
  {
    if f < |s1.frames| {
      var a, b := s1.frames[f], s2.frames[f];
      assert FrameRel(a, b);
      FrameDel(a, b, x);
    }
  }

  lemma RelHome(s1: State, s2: State, f: nat, x: string)
    requires Rel(s1, s2)
    ensures Home(s1, f, x) == Home(s2, f, x)
  {
    if f < |s1.frames| {
      assert FrameRel(s1.frames[f], s2.frames[f]);
    }
  }

  lemma RelBind(s1: State, s2: State, f: nat, x: string, v: Value, s0: State, g: int)
    requires Rel(s1, s2) && Kept(s0, s2, g) && x !in RESERVED
    ensures Rel(Bind(s1, f, x, v), Bind(s2, f, x, v)) && Kept(s0, Bind(s2, f, x, v), g)
  {
    RelHome(s1, s2, f, x);
    RelSetVar(s1, s2, Home(s1, f, x), x, v, s0, g);
  }

  lemma RelUnbind(s1: State, s2: State, f: nat, x: string, s0: State, g: int)
    requires Rel(s1, s2) && Kept(s0, s2, g) && x !in RESERVED
    ensures Rel(Unbind(s1, f, x), Unbind(s2, f, x)) && Kept(s0, Unbind(s2, f, x), g)
  {
    RelHome(s1, s2, f, x);
    RelDelVar(s1, s2, Home(s1, f, x), x, s0, g);
  }

  lemma RelNewFrame(a: Frame, b: Frame, s1: State, s2: State, s0: State, g: int)
    requires Rel(s1, s2) && Kept(s0, s2, g) && FrameRel(a, b) && b.vars.Keys !! INJECTED
    ensures Rel(NewFrame(s1, a), NewFrame(s2, b)) && Kept(s0, NewFrame(s2, b), g)
  {
  }

  lemma RelNewFn(a: FnObj, b: FnObj, s1: State, s2: State, s0: State, g: int)
    requires Rel(s1, s2) && Kept(s0, s2, g) && FnRel(a, b, s1.exact)
    ensures Rel(NewFn(s1, a), NewFn(s2, b)) && Kept(s0, NewFn(s2, b), g)
  {
  }

  lemma {:induction false} BindArgsKeys(params: seq<string>, args: seq<Value>)
    requires |params| == |args|
    ensures BindArgs(params, args).Keys == set p | p in params
    decreases params
  {
    if params == [] {
    } else {
      BindArgsKeys(params[1..], args[1..]);
      assert forall p :: p in params <==> p == params[0] || p in params[1..];
    }
  }

  // The frame of a call: the rewritten body has the temporaries as extra locals.
  lemma RelCallFrame(a: FnObj, b: FnObj, args: seq<Value>, exact: bool)
    requires FnRel(a, b, exact) && |args| == |a.params|
    ensures FrameRel(CallFrame(a, args), CallFrame(b, args))
    ensures CallFrame(b, args).vars.Keys !! RESERVED
  {
    BindArgsKeys(a.params, args);
    RewriteKeepsScope(a.body);
    CleanBoundB(a.body, exact);
    var la, lb := BoundB(a.body), BoundB(b.body);
    assert SameBut(lb, la, TEMPS) && la !! RESERVED;
    assert lb !! INJECTED;
    assert CallFrame(a, args).locals - RESERVED == CallFrame(b, args).locals - RESERVED;
  }

  // Running a callee in a fresh frame leaves every older frame's temporaries alone.
  lemma KeptAcrossCall(s0: State, s2: State, fr: Frame, t2: State, g: int)
    requires Kept(s0, s2, g)
    requires Kept(NewFrame(s2, fr), t2, |s2.frames|)
    ensures Kept(s0, t2, g)
  {
    forall i | 0 <= i < |s0.frames| && i != g ensures Temps(t2.frames[i]) == Temps(s0.frames[i]) {
      assert NewFrame(s2, fr).frames[i] == s2.frames[i];
    }
  }
}
