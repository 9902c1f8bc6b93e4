/**
 What the assert rewriter promises, stated on whole programs.
 */
module RewriteTheorems {
  import opened Options
  import opened PyAst
  import opened Rewriter
  import opened PySemantics
  import opened RewriteRelation
  import opened RewriteMeaning

  // A module about to run, and the same module as the loader prepares it for rewritten code.
  function Start(globals: map<string, Value>, exact: bool): State {
    State([Frame(globals, {}, {}, 0, false)], [], [], [], exact)
  }

  function Loaded(globals: map<string, Value>, exact: bool): State {
    Start(globals[ERROR_CLASS := ErrorClassV][NO_RHS := NoRhsV], exact)
  }

  lemma LoadedRelated(globals: map<string, Value>, exact: bool)
    ensures Rel(Start(globals, exact), Loaded(globals, exact))
  {
    var a, b := Start(globals, exact).frames[0], Loaded(globals, exact).frames[0];
    assert ERROR_CLASS[1] != NO_RHS[1];
    assert a.vars - RESERVED == b.vars - RESERVED;
    assert FrameRel(a, b);
  }

  // The store of a run, as the program can name it.
  function Visible(st: State): seq<map<string, Value>> {
    seq(|st.frames|, i requires 0 <= i < |st.frames| => st.frames[i].vars - RESERVED)
  }

  function Views(st: State): seq<View> {
    seq(|st.excs|, i requires 0 <= i < |st.excs| => ViewOf(st.excs[i], st.exact))
  }

  /** Same ending (value, exception or divergence), same questions asked in the same order,
      same store but for the reserved names, same exceptions as a handler can see them. */
  ghost predicate SameMeaning<T>(r1: R<T>, r2: R<T>) {
    match r1
    case Diverge => r2.Diverge?
    case Done(v, t) => r2.Done? && r2.value == v && SameState(t, r2.st)
    case Exn(x, t) => r2.Exn? && r2.exc == x && SameState(t, r2.st)
  }

  ghost predicate SameState(t1: State, t2: State) {
    t1.trace == t2.trace && Visible(t1) == Visible(t2) && Views(t1) == Views(t2)
  }

  lemma RelSameState(t1: State, t2: State)
    requires Rel(t1, t2)
    ensures SameState(t1, t2)
  {
    forall i | 0 <= i < |t1.frames| ensures Visible(t1)[i] == Visible(t2)[i] {
      assert FrameRel(t1.frames[i], t2.frames[i]);
    }
    forall i | 0 <= i < |t1.excs| ensures Views(t1)[i] == Views(t2)[i] {
      assert ExcRel(t1.excs[i], t2.excs[i], t1.exact);
    }
  }

  /** Rewriting preserves the meaning of every program that does not mention the reserved
      names: in every world, from every set of globals, at every amount of fuel. Where error
      arguments can be read exactly, it does so if every assert it rewrites has a message. */
  lemma RewritePreservesMeaning(fuel: nat, w: World, body: seq<Stmt>, globals: map<string, Value>, exact: bool)
    requires CleanB(body, exact)
    ensures SameMeaning(ExecBody(fuel, w, body, 0, Start(globals, exact)),
                        ExecBody(fuel, w, RewriteBody(body), 0, Loaded(globals, exact)))
  {
    LoadedRelated(globals, exact);
    var s1, s2 := Start(globals, exact), Loaded(globals, exact);
    assert Kept(s2, s2, 0);
    SimBody(fuel, w, body, 0, s1, s2, s2);
    var r1, r2 := ExecBody(fuel, w, body, 0, s1), ExecBody(fuel, w, RewriteBody(body), 0, s2);
    if !r1.Diverge? {
      RelSameState(r1.st, r2.st);
    }
  }

  // ── What a failed assert carries ──────────────────────────────────────────────────────

  // What the original raises, `m` being the value of its message.
  function PlainError(msg: Option<Expr>, m: Value): ExcObj {
    ExcObj(ASSERTION_ERROR, if msg.None? then [] else [m], None)
  }

  /** When `assert left op right, msg` fails, the rewritten assert raises an error holding the
      very values its operands came to, and the message's. */
  lemma FailedCompareCarriesOperands(fuel: nat, w: World, left: Expr, op: string, right: Expr, opString: string,
                                     msg: Option<Expr>, f: nat, s1: State, s2: State,
                                     lv: Value, rv: Value, c: Value, m: Value, a1: State, b1: State, c1: State, t1: State, u1: State)
    requires Rel(s1, s2) && f < |s2.frames| && CleanE(left) && CleanE(right) && CleanOpt(msg)
    requires Eval(fuel, w, left, f, s1) == Done(lv, a1)
    requires Eval(fuel, w, right, f, a1) == Done(rv, b1)
    requires Ask(fuel, w, "compare", op, [lv, rv], b1) == Done(c, c1)
    requires Truth(fuel, w, c, c1) == Done(false, t1)
    requires Eval(fuel, w, MsgExpr(msg), f, t1) == Done(m, u1)
    ensures ExecAssert(fuel, w, msg, f, Eval(fuel, w, Compare(left, [op], [right]), f, s1))
         == Exn(ExcV(|u1.excs|), NewExc(u1, PlainError(msg, m)))
    ensures
      var r2 := ExecBody(fuel, w, RewriteCompare(left, op, right, opString, msg), f, s2);
      && r2.Exn? && r2.exc == ExcV(|u1.excs|) && |r2.st.excs| == |u1.excs| + 1
      && r2.st.excs[|u1.excs|] == ExcObj(ERROR_CLASS, [m], Some(Operands(lv, rv, StrV(opString))))
  {
    var rest := [Assign(Name(TEMP_RIGHT), right), CheckStmt(op, opString, msg)];
    assert RewriteCompare(left, op, right, opString, msg) == [Assign(Name(TEMP_LEFT), left)] + rest;
    ExecTempAssign(fuel, w, TEMP_LEFT, left, rest, f, s2);
    assert Kept(s2, s2, f);
    SimEval(fuel, w, left, f, s1, s2, s2, f);
    var a2 := Eval(fuel, w, left, f, s2).st;
    RelTemp(a1, a2, f, TEMP_LEFT, lv, s2);
    var u2 := Bind(a2, f, TEMP_LEFT, lv);
    OriginalFails(fuel, w, left, op, right, msg, f, s1, lv, rv, c, m, a1, b1, c1, t1, u1);
    FailedRight(fuel, w, op, right, opString, msg, f, a1, u2, lv, rv, c, m, b1, c1, t1, u1);
  }

  lemma OriginalFails(fuel: nat, w: World, left: Expr, op: string, right: Expr, msg: Option<Expr>, f: nat, s1: State,
                      lv: Value, rv: Value, c: Value, m: Value, a1: State, b1: State, c1: State, t1: State, u1: State)
    requires Eval(fuel, w, left, f, s1) == Done(lv, a1)
    requires Eval(fuel, w, right, f, a1) == Done(rv, b1)
    requires Ask(fuel, w, "compare", op, [lv, rv], b1) == Done(c, c1)
    requires Truth(fuel, w, c, c1) == Done(false, t1)
    requires Eval(fuel, w, MsgExpr(msg), f, t1) == Done(m, u1)
    ensures ExecAssert(fuel, w, msg, f, Eval(fuel, w, Compare(left, [op], [right]), f, s1))
         == Exn(ExcV(|u1.excs|), NewExc(u1, PlainError(msg, m)))
  {
    assert EvalChain(fuel, w, lv, [op], [right], f, a1) == Done(c, c1);
  }

  lemma FailedRight(fuel: nat, w: World, op: string, right: Expr, opString: string, msg: Option<Expr>, f: nat,
                    s1: State, s2: State, lv: Value, rv: Value, c: Value, m: Value, b1: State, c1: State, t1: State, u1: State)
    requires Rel(s1, s2) && f < |s2.frames| && CleanE(right) && CleanOpt(msg) && Stored(s2, f, TEMP_LEFT, lv)
    requires Eval(fuel, w, right, f, s1) == Done(rv, b1)
    requires Ask(fuel, w, "compare", op, [lv, rv], b1) == Done(c, c1)
    requires Truth(fuel, w, c, c1) == Done(false, t1)
    requires Eval(fuel, w, MsgExpr(msg), f, t1) == Done(m, u1)
    ensures
      var r2 := ExecBody(fuel, w, [Assign(Name(TEMP_RIGHT), right), CheckStmt(op, opString, msg)], f, s2);
      && r2.Exn? && r2.exc == ExcV(|u1.excs|) && |r2.st.excs| == |u1.excs| + 1
      && r2.st.excs[|u1.excs|] == ExcObj(ERROR_CLASS, [m], Some(Operands(lv, rv, StrV(opString))))
  {
    var assign, check := Assign(Name(TEMP_RIGHT), right), CheckStmt(op, opString, msg);
    assert [assign, check] == [assign] + [check];
    ExecTempAssign(fuel, w, TEMP_RIGHT, right, [check], f, s2);
    assert Kept(s2, s2, -1) && Kept(s2, s2, f);
    SimEval(fuel, w, right, f, s1, s2, s2, -1);
    var b2 := Eval(fuel, w, right, f, s2).st;
    StoredKept(s2, b2, f, TEMP_LEFT, lv);
    assert Kept(b2, b2, f);
    RelTemp(b1, b2, f, TEMP_RIGHT, rv, b2);
    var v2 := Bind(b2, f, TEMP_RIGHT, rv);
    assert TEMP_LEFT[9] != TEMP_RIGHT[9];
    assert Stored(v2, f, TEMP_LEFT, lv) && Stored(v2, f, TEMP_RIGHT, rv);
    FailedCheck(fuel, w, op, opString, msg, f, b1, v2, lv, rv, c, m, c1, t1, u1);
  }

  lemma FailedCheck(fuel: nat, w: World, op: string, opString: string, msg: Option<Expr>, f: nat,
                    s1: State, s2: State, lv: Value, rv: Value, c: Value, m: Value, c1: State, t1: State, u1: State)
    requires Rel(s1, s2) && CleanOpt(msg) && Stored(s2, f, TEMP_LEFT, lv) && Stored(s2, f, TEMP_RIGHT, rv)
    requires Ask(fuel, w, "compare", op, [lv, rv], s1) == Done(c, c1)
    requires Truth(fuel, w, c, c1) == Done(false, t1)
    requires Eval(fuel, w, MsgExpr(msg), f, t1) == Done(m, u1)
    ensures
      var r2 := ExecBody(fuel, w, [CheckStmt(op, opString, msg)], f, s2);
      && r2.Exn? && r2.exc == ExcV(|u1.excs|) && |r2.st.excs| == |u1.excs| + 1
      && r2.st.excs[|u1.excs|] == ExcObj(ERROR_CLASS, [m], Some(Operands(lv, rv, StrV(opString))))
  {
    assert Kept(s2, s2, -1);
    ResolveStored(s1, s2, s2, f, TEMP_LEFT, lv);
    ResolveStored(s1, s2, s2, f, TEMP_RIGHT, rv);
    var check := CheckStmt(op, opString, msg);
    var test := Compare(Name(TEMP_LEFT), [op], [Name(TEMP_RIGHT)]);
    ExecIfNot(fuel, w, test, check.body, f, s2);
    EvalNames(fuel, w, op, f, lv, rv, s2);
    SimAsk(fuel, w, "compare", op, [lv, rv], s1, s2, s2, -1);
    var c2 := Ask(fuel, w, "compare", op, [lv, rv], s2).st;
    SimTruth(fuel, w, c, c1, c2, s2, -1);
    var t2 := Truth(fuel, w, c, c2).st;
    ResolveStored(t1, s2, t2, f, TEMP_LEFT, lv);
    ResolveStored(t1, s2, t2, f, TEMP_RIGHT, rv);
    RaisedCarries(fuel, w, TEMP_LEFT, TEMP_RIGHT, opString, msg, f, t1, t2, lv, rv, m, u1);
  }

  lemma RaisedCarries(fuel: nat, w: World, left: string, right: string, op: string, msg: Option<Expr>, f: nat,
                      t1: State, t2: State, lv: Value, rv: Value, m: Value, u1: State)
    requires Rel(t1, t2) && CleanOpt(msg) && f < |t2.frames|
    requires Resolve(t2, f, left, true) == Found(lv) && Resolve(t2, f, right, true) == Found(rv)
    requires Eval(fuel, w, MsgExpr(msg), f, t1) == Done(m, u1)
    ensures
      var r2 := ExecBody(fuel, w, [Raise(ErrorCall(left, right, op, msg))], f, t2);
      && r2.Exn? && r2.exc == ExcV(|u1.excs|) && |r2.st.excs| == |u1.excs| + 1
      && r2.st.excs[|u1.excs|] == ExcObj(ERROR_CLASS, [m], Some(Operands(lv, rv, StrV(op))))
  {
    ExecRaise(fuel, w, ErrorCall(left, right, op, msg), f, t2);
    EvalErrorCall(fuel, w, left, right, op, msg, f, lv, rv, t1, t2);
    assert Kept(t2, t2, -1);
    SimEval(fuel, w, MsgExpr(msg), f, t1, t2, t2, -1);
  }

  /** When `assert test, msg` fails, the error holds the tested value and no right operand. */
  lemma FailedValueCarriesOperand(fuel: nat, w: World, test: Expr, msg: Option<Expr>, f: nat, s1: State, s2: State,
                                  v: Value, m: Value, a1: State, t1: State, u1: State)
    requires Rel(s1, s2) && f < |s2.frames| && CleanE(test) && CleanOpt(msg)
    requires Eval(fuel, w, test, f, s1) == Done(v, a1)
    requires Truth(fuel, w, v, a1) == Done(false, t1)
    requires Eval(fuel, w, MsgExpr(msg), f, t1) == Done(m, u1)
    ensures ExecAssert(fuel, w, msg, f, Eval(fuel, w, test, f, s1)) == Exn(ExcV(|u1.excs|), NewExc(u1, PlainError(msg, m)))
    ensures
      var r2 := ExecBody(fuel, w, RewriteValue(test, msg), f, s2);
      && r2.Exn? && r2.exc == ExcV(|u1.excs|) && |r2.st.excs| == |u1.excs| + 1
      && r2.st.excs[|u1.excs|] == ExcObj(ERROR_CLASS, [m], Some(Operands(v, NoRhsV, StrV(""))))
  {
    var check := IfNotRaise(Name(TEMP_VALUE), TEMP_VALUE, NO_RHS, "", msg);
    assert RewriteValue(test, msg) == [Assign(Name(TEMP_VALUE), test)] + [check];
    ExecTempAssign(fuel, w, TEMP_VALUE, test, [check], f, s2);
    assert Kept(s2, s2, f);
    SimEval(fuel, w, test, f, s1, s2, s2, f);
    var a2 := Eval(fuel, w, test, f, s2).st;
    RelTemp(a1, a2, f, TEMP_VALUE, v, s2);
    var u2 := Bind(a2, f, TEMP_VALUE, v);
    assert Kept(u2, u2, -1);
    ExecIfNot(fuel, w, Name(TEMP_VALUE), check.body, f, u2);
    ResolveStored(a1, u2, u2, f, TEMP_VALUE, v);
    assert Eval(fuel, w, Name(TEMP_VALUE), f, u2) == Done(v, u2);
    SimTruth(fuel, w, v, a1, u2, u2, -1);
    var t2 := Truth(fuel, w, v, u2).st;
    ResolveStored(t1, u2, t2, f, TEMP_VALUE, v);
    ResolveStored(t1, u2, t2, f, NO_RHS, NoRhsV);
    RaisedCarries(fuel, w, TEMP_VALUE, NO_RHS, "", msg, f, t1, t2, v, NoRhsV, m, u1);
  }

  /** A failed `assert left op right`, through the pass itself: the error carries the operator as
      the language writes it. */
  lemma FailedCompareSpelling(fuel: nat, w: World, s: Stmt, text: string, f: nat, s1: State, s2: State,
                              lv: Value, rv: Value, c: Value, m: Value, a1: State, b1: State, c1: State, t1: State, u1: State)
    requires s.Assert? && s.test.Compare? && |s.test.comparators| == 1 && s.test.ops != [] && Spelt(s.test.ops[0], text)
    requires Rel(s1, s2) && f < |s2.frames| && CleanE(s.test) && CleanOpt(s.msg)
    requires Eval(fuel, w, s.test.left, f, s1) == Done(lv, a1)
    requires Eval(fuel, w, s.test.comparators[0], f, a1) == Done(rv, b1)
    requires Ask(fuel, w, "compare", s.test.ops[0], [lv, rv], b1) == Done(c, c1)
    requires Truth(fuel, w, c, c1) == Done(false, t1)
    requires Eval(fuel, w, MessageOr(s.msg), f, t1) == Done(m, u1)
    ensures
      var r2 := ExecBody(fuel, w, RewriteStmt(s), f, s2);
      && r2.Exn? && r2.exc == ExcV(|u1.excs|) && |r2.st.excs| == |u1.excs| + 1
      && r2.st.excs[|u1.excs|] == ExcObj("_OxitestAssertionError", [m], Some(Operands(lv, rv, StrV(text))))
  {
    var op, right := s.test.ops[0], s.test.comparators[0];
    OperatorTable(op, text);
    assert MsgExpr(s.msg) == MessageOr(s.msg);
    assert RewriteStmt(s) == RewriteCompare(s.test.left, op, right, text, s.msg);
    assert s.test.comparators == [right] && CleanEs([right]);
    FailedCompareCarriesOperands(fuel, w, s.test.left, op, right, text, s.msg, f, s1, s2, lv, rv, c, m, a1, b1, c1, t1, u1);
  }

  // The test of an assert came out false, and its message, if any, came to `m`.
  ghost predicate Fails(fuel: nat, w: World, s: Stmt, f: nat, st: State, v: Value, a: State, t: State, m: Value, u: State) {
    && s.Assert?
    && Eval(fuel, w, s.test, f, st) == Done(v, a)
    && Truth(fuel, w, v, a) == Done(false, t)
    && Eval(fuel, w, MsgExpr(s.msg), f, t) == Done(m, u)
  }

  /** The one visible difference, of the errors that two runs raise: when an assert fails, both
      raise the error numbered next, and the arguments of the two agree exactly if the assert has
      a message. A bare assert raises `AssertionError()`, its rewrite the same with `("",)`. */
  lemma ErrorArgsAgree(fuel: nat, w: World, s: Stmt, f: nat, s1: State, s2: State, v: Value, a: State, t: State, m: Value, u: State)
    requires Rel(s1, s2) && f < |s2.frames| && Eligible(s) && CleanE(s.test) && CleanOpt(s.msg)
    requires Fails(fuel, w, s, f, s1, v, a, t, m, u)
    ensures
      var r1, r2 := Exec(fuel, w, s, f, s1), ExecBody(fuel, w, RewriteStmt(s), f, s2);
      && r1.Exn? && r2.Exn? && r1.exc == r2.exc == ExcV(|u.excs|) && |r1.st.excs| == |r2.st.excs| == |u.excs| + 1
      && (r1.st.excs[|u.excs|].args == r2.st.excs[|u.excs|].args <==> s.msg.Some?)
      && (s.msg.None? ==> r1.st.excs[|u.excs|].args == [] && r2.st.excs[|u.excs|].args == [StrV("")])
  {
    if s.test.Compare? {
      FailedCompareArgs(fuel, w, s, f, s1, s2, v, a, t, m, u);
    } else {
      FailedValueArgs(fuel, w, s, f, s1, s2, v, a, t, m, u);
    }
    NoMessage(fuel, w, s.msg, f, t, m, u);
  }

  lemma NoMessage(fuel: nat, w: World, msg: Option<Expr>, f: nat, st: State, m: Value, u: State)
    requires Eval(fuel, w, MsgExpr(msg), f, st) == Done(m, u)
    ensures msg.None? ==> m == StrV("")
  {
  }

  // What both runs raise.
  ghost predicate Raised(r1: R<Completion>, r2: R<Completion>, n: nat, plain: ExcObj, m: Value) {
    && r1.Exn? && r1.exc == ExcV(n) && |r1.st.excs| == n + 1 && r1.st.excs[n] == plain
    && r2.Exn? && r2.exc == ExcV(n) && |r2.st.excs| == n + 1 && r2.st.excs[n].args == [m]
  }

  lemma FailedValueArgs(fuel: nat, w: World, s: Stmt, f: nat, s1: State, s2: State, v: Value, a: State, t: State, m: Value, u: State)
    requires Rel(s1, s2) && f < |s2.frames| && Eligible(s) && CleanE(s.test) && CleanOpt(s.msg) && !s.test.Compare?
    requires Fails(fuel, w, s, f, s1, v, a, t, m, u)
    ensures Raised(Exec(fuel, w, s, f, s1), ExecBody(fuel, w, RewriteStmt(s), f, s2), |u.excs|, PlainError(s.msg, m), m)
  {
    FailedValueCarriesOperand(fuel, w, s.test, s.msg, f, s1, s2, v, m, a, t, u);
  }

  lemma FailedCompareArgs(fuel: nat, w: World, s: Stmt, f: nat, s1: State, s2: State, v: Value, a: State, t: State, m: Value, u: State)
    requires Rel(s1, s2) && f < |s2.frames| && Eligible(s) && CleanE(s.test) && CleanOpt(s.msg) && s.test.Compare?
    requires Fails(fuel, w, s, f, s1, v, a, t, m, u)
    ensures Raised(Exec(fuel, w, s, f, s1), ExecBody(fuel, w, RewriteStmt(s), f, s2), |u.excs|, PlainError(s.msg, m), m)
  {
    var left, op, right := s.test.left, s.test.ops[0], s.test.comparators[0];
    EvalOneComparator(fuel, w, s.test, f, s1);
    var l := Eval(fuel, w, left, f, s1);
    ChainOfOne(fuel, w, l.value, op, right, f, l.st);
    var r := Eval(fuel, w, right, f, l.st);
    FailedCompareCarriesOperands(fuel, w, left, op, right, OpStr(op).value, s.msg, f, s1, s2,
                                 l.value, r.value, v, m, l.st, r.st, a, t, u);
  }

  // ── Where exact arguments matter ──────────────────────────────────────────────────────

  const SHOW_ARGS := ExprStmt(Operation("show", [Attribute(Name("e"), "args", 0)]))

  // `try: assert False` / `except AssertionError as e: show(e.args)`
  function ReadsArgs(): Stmt {
    Try([Assert(Constant(LitBool(false)), None, 2, 10)],
        [Handler(Some(Name("AssertionError")), Some("e"), [SHOW_ARGS])],
        [], [])
  }

  // A world in which `isinstance` is true and `e.args` of the first error is how many it has.
  function Honest(ev: Event, trace: seq<Event>): Response {
    if ev.Made? then Returns(NoneV)
    else if ev.kind == "isinstance" then Returns(BoolV(true))
    else if ev.kind == "getattr" && trace != [] && trace[0].Made? then Returns(IntV(|trace[0].view.args|))
    else Returns(NoneV)
  }

  lemma AskAnswered(w: World, kind: string, detail: string, args: seq<Value>, st: State, v: Value)
    requires w(Did(kind, detail, args), st.trace) == Returns(v)
    ensures Ask(0, w, kind, detail, args, st) == Done(v, Asked(st, Did(kind, detail, args)))
  {
  }

  // `show(e)`, with the argument's value known.
  lemma Shown(w: World, e: Expr, v: Value, st: State, st': State)
    requires Eval(0, w, e, 0, st) == Done(v, st') && w(Did("operation", "show", [v]), st'.trace) == Returns(NoneV)
    ensures ExecBody(0, w, [ExprStmt(Operation("show", [e]))], 0, st) == Done(Normal, Asked(st', Did("operation", "show", [v])))
  {
    var s := ExprStmt(Operation("show", [e]));
    EvalAllSingle(0, w, e, 0, st);
    AskAnswered(w, "operation", "show", [v], st', NoneV);
    ExecBodySingle(0, w, s, 0, st);
    assert Eval(0, w, s.value, 0, st) == Done(NoneV, Asked(st', Did("operation", "show", [v])));
    assert Exec(0, w, s, 0, st) == ExecSimple(0, w, s, 0, st);
  }

  lemma ArgsRead(w: World, st: State)
    requires w == Honest && Resolve(st, 0, "e", true) == Found(ExcV(0)) && st.trace != [] && st.trace[0].Made?
    ensures Eval(0, w, Attribute(Name("e"), "args", 0), 0, st)
         == Done(IntV(|st.trace[0].view.args|), Asked(st, Did("getattr", "args", [ExcV(0)])))
  {
    AskAnswered(w, "getattr", "args", [ExcV(0)], st, IntV(|st.trace[0].view.args|));
    assert Eval(0, w, Name("e"), 0, st) == Done(ExcV(0), st);
  }

  lemma ShowsArgs(w: World, st: State)
    requires w == Honest && Resolve(st, 0, "e", true) == Found(ExcV(0)) && st.trace != [] && st.trace[0].Made?
    ensures
      var asked := Asked(st, Did("getattr", "args", [ExcV(0)]));
      ExecBody(0, w, [SHOW_ARGS], 0, st) == Done(Normal, Asked(asked, Did("operation", "show", [IntV(|st.trace[0].view.args|)])))
  {
    ArgsRead(w, st);
    Shown(w, Attribute(Name("e"), "args", 0), IntV(|st.trace[0].view.args|), st, Asked(st, Did("getattr", "args", [ExcV(0)])));
  }

  lemma CatchesError(w: World, st: State) returns (st': State)
    requires w == Honest && Resolve(st, 0, "AssertionError", true) == Free
    ensures Catches(0, w, Name("AssertionError"), ExcV(0), 0, st) == Done(true, st')
    ensures st.trace <= st'.trace && st'.frames == st.frames
  {
    AskAnswered(w, "name", "AssertionError", [], st, NoneV);
    assert Eval(0, w, Name("AssertionError"), 0, st) == Done(NoneV, Asked(st, Did("name", "AssertionError", [])));
    var st1 := Asked(st, Did("name", "AssertionError", []));
    AskAnswered(w, "isinstance", "", [ExcV(0), NoneV], st1, BoolV(true));
    st' := Asked(st1, Did("isinstance", "", [ExcV(0), NoneV]));
  }

  // The last thing a run asked.
  ghost predicate LastAsked(r: R<Completion>, ev: Event) {
    r.Done? && r.st.trace != [] && r.st.trace[|r.st.trace| - 1] == ev
  }

  // From the failed assert on: the handler shows how many arguments the error has.
  lemma HandlerShows(w: World, st: State)
    requires w == Honest && |st.frames| == 1 && st.frames[0].globals == {} && st.frames[0].locals == {} && !st.frames[0].isClass
    requires "AssertionError" !in st.frames[0].vars && st.trace != [] && st.trace[0].Made?
    ensures LastAsked(Finally(0, w, [], 0, TryOutcome(0, w, ReadsArgs(), 0, Exn(ExcV(0), st))),
                      Did("operation", "show", [IntV(|st.trace[0].view.args|)]))
  {
    var h := ReadsArgs().handlers;
    var st1 := CatchesError(w, st);
    HandlersUnfold(0, w, h, ExcV(0), 0, st);
    var st2 := Bind(st1, 0, "e", ExcV(0));
    assert Resolve(st2, 0, "e", true) == Found(ExcV(0)) && st2.trace[0] == st.trace[0];
    ShowsArgs(w, st2);
    assert ExecHandlers(0, w, h, ExcV(0), 0, st) == RunHandler(0, w, h[0], ExcV(0), 0, st1);
  }

  // The original run of the `try`'s body, and the rewritten one.
  lemma PlainRaises(w: World, st: State)
    ensures ExecBody(0, w, ReadsArgs().body, 0, st) == Throw(ExcObj(ASSERTION_ERROR, [], None), st)
  {
    var s := ReadsArgs().body[0];
    ExecBodySingle(0, w, s, 0, st);
    assert Eval(0, w, s.test, 0, st) == Done(BoolV(false), st);
    assert ExecAssert(0, w, None, 0, Done(BoolV(false), st)) == FailAssert(0, w, None, 0, st);
  }

  lemma RewrittenRaises(w: World, globals: map<string, Value>, exact: bool) returns (st: State)
    ensures ExecBody(0, w, RewriteBody(ReadsArgs().body), 0, Loaded(globals, exact)) == Exn(ExcV(0), st)
    ensures |st.frames| == 1 && st.trace == [Made(View(ASSERTION_ERROR, [StrV("")]))]
    ensures st.frames[0] == Loaded(globals, exact).frames[0].(vars := st.frames[0].vars)
    ensures forall x | x !in RESERVED :: x in st.frames[0].vars <==> x in globals
  {
    var s, s1, s2 := ReadsArgs().body[0], Start(globals, exact), Loaded(globals, exact);
    LoadedRelated(globals, exact);
    OneRewritten(s);
    var test := Constant(LitBool(false));
    var u := Bind(s2, 0, TEMP_VALUE, BoolV(false));
    ExecTempAssign(0, w, TEMP_VALUE, test, [RewriteValue(test, None)[1]], 0, s2);
    assert RewriteValue(test, None) == [RewriteValue(test, None)[0]] + [RewriteValue(test, None)[1]];
    assert Kept(s2, s2, 0);
    RelTemp(s1, s2, 0, TEMP_VALUE, BoolV(false), s2);
    ValueRaises(w, s1, u);
    st := NewExc(u, ExcObj(ERROR_CLASS, [StrV("")], Some(Operands(BoolV(false), NoRhsV, StrV("")))));
  }

  lemma OneRewritten(s: Stmt)
    requires s.Assert? && s.test.Constant?
    ensures RewriteBody([s]) == RewriteValue(s.test, s.msg)
  {
    assert [s][1..] == [];
  }

  // The generated check of a value that is false.
  lemma ValueRaises(w: World, s1: State, u: State)
    requires Rel(s1, u) && |u.frames| > 0 && Stored(u, 0, TEMP_VALUE, BoolV(false))
    ensures ExecBody(0, w, [IfNotRaise(Name(TEMP_VALUE), TEMP_VALUE, NO_RHS, "", None)], 0, u)
         == Exn(ExcV(|u.excs|), NewExc(u, ExcObj(ERROR_CLASS, [StrV("")], Some(Operands(BoolV(false), NoRhsV, StrV(""))))))
  {
    var check := IfNotRaise(Name(TEMP_VALUE), TEMP_VALUE, NO_RHS, "", None);
    assert Kept(u, u, -1);
    ResolveStored(s1, u, u, 0, TEMP_VALUE, BoolV(false));
    ResolveStored(s1, u, u, 0, NO_RHS, NoRhsV);
    ExecIfNot(0, w, Name(TEMP_VALUE), check.body, 0, u);
    assert Eval(0, w, Name(TEMP_VALUE), 0, u) == Done(BoolV(false), u);
    assert TestThen(0, w, check.body, 0, Done(BoolV(false), u)) == ExecBody(0, w, check.body, 0, u);
    ExecRaise(0, w, ErrorCall(TEMP_VALUE, NO_RHS, "", None), 0, u);
    EvalErrorCall(0, w, TEMP_VALUE, NO_RHS, "", None, 0, BoolV(false), NoRhsV, s1, u);
    assert Eval(0, w, MsgExpr(None), 0, u) == Done(StrV(""), u);
  }

  lemma RunsTry(w: World, s: Stmt, st: State)
    requires s.Try? && s.finalbody == []
    ensures ExecBody(0, w, [s], 0, st) == Finally(0, w, [], 0, TryOutcome(0, w, s, 0, ExecBody(0, w, s.body, 0, st)))
  {
    ExecBodySingle(0, w, s, 0, st);
    ExecDispatch(0, w, s, 0, st);
    TryUnfolds(0, w, s, 0, st);
  }

  // A `try` with one handler, rewritten.
  lemma TryRewritten(s: Stmt)
    requires s.Try? && |s.handlers| == 1
    ensures
      var h := s.handlers[0];
      RewriteBody([s]) == [Try(RewriteBody(s.body), [Handler(h.kind, h.name, RewriteBody(h.body))],
                               RewriteBody(s.orelse), RewriteBody(s.finalbody))]
  {
    TryBodies(s, RewriteBodies(s), 0);
    assert RewriteChildren(s).handlers == [RewriteChildren(s).handlers[0]];
    assert [s][1..] == [];
  }

  lemma ReadsArgsRewritten()
    ensures
      var s := ReadsArgs();
      RewriteBody([s]) == [Try(RewriteBody(s.body), s.handlers, [], [])]
  {
    TryRewritten(ReadsArgs());
    assert RewriteBody([SHOW_ARGS]) == [SHOW_ARGS] by {
      assert Bodies(SHOW_ARGS) == [] && RewriteStmt(SHOW_ARGS) == [SHOW_ARGS] && [SHOW_ARGS][1..] == [];
    }
  }

  lemma SingleClean(s: Stmt, exact: bool)
    ensures CleanB([s], exact) <==> CleanS(s, exact)
  {
    assert [s][1..] == [];
  }

  lemma HandlerClean(exact: bool)
    ensures CleanB([SHOW_ARGS], exact) && CleanHandler(ReadsArgs().handlers[0])
  {
    SingleClean(SHOW_ARGS, exact);
    assert Bodies(SHOW_ARGS) == [];
    assert CleanEs([Attribute(Name("e"), "args", 0)]) by {
      assert [Attribute(Name("e"), "args", 0)][1..] == [];
    }
    NotReserved();
  }

  lemma TryClean(s: Stmt, exact: bool)
    requires s.Try? && |s.handlers| == 1
    ensures CleanS(s, exact) <==>
      && CleanHandler(s.handlers[0])
      && CleanB(s.body, exact) && CleanB(s.orelse, exact) && CleanB(s.finalbody, exact) && CleanB(s.handlers[0].body, exact)
  {
    var bs := Bodies(s);
    assert bs == [s.body, s.orelse, s.finalbody, s.handlers[0].body];
    if CleanS(s, exact) {
      assert CleanB(bs[0], exact) && CleanB(bs[1], exact) && CleanB(bs[2], exact) && CleanB(bs[3], exact);
    }
  }

  lemma ReadsArgsClean(exact: bool)
    ensures CleanB([ReadsArgs()], exact) <==> !exact
  {
    var s := ReadsArgs();
    var a := s.body[0];
    SingleClean(s, exact);
    TryClean(s, exact);
    SingleClean(a, exact);
    HandlerClean(exact);
    assert Bodies(a) == [] && Eligible(a);
  }

  lemma LastDiffers(r1: R<Completion>, r2: R<Completion>, e1: Event, e2: Event)
    requires LastAsked(r1, e1) && LastAsked(r2, e2) && e1 != e2
    ensures !SameMeaning(r1, r2)
  {
  }

  /** Where arguments are read exactly, an assert that is rewritten without a message changes what
      a program does: the handler shows that the error has no argument before the rewrite, and
      one after. Read as messages, the two are the same. */
  lemma ExactArgsMatter(w: World, globals: map<string, Value>, r1: R<Completion>, r2: R<Completion>)
    requires w == Honest && "AssertionError" !in globals
    requires r1 == ExecBody(0, w, [ReadsArgs()], 0, Start(globals, true))
    requires r2 == ExecBody(0, w, RewriteBody([ReadsArgs()]), 0, Loaded(globals, true))
    ensures CleanB([ReadsArgs()], false) && !CleanB([ReadsArgs()], true)
    ensures LastAsked(r1, Did("operation", "show", [IntV(0)])) && LastAsked(r2, Did("operation", "show", [IntV(1)]))
    ensures !SameMeaning(r1, r2)
  {
    ReadsArgsClean(false);
    ReadsArgsClean(true);
    PlainShowsNone(w, globals);
    RewrittenShowsOne(w, globals);
    var e1, e2 := Did("operation", "show", [IntV(0)]), Did("operation", "show", [IntV(1)]);
    assert e1.args[0] != e2.args[0];
    LastDiffers(r1, r2, e1, e2);
  }

  lemma PlainShowsNone(w: World, globals: map<string, Value>)
    requires w == Honest && "AssertionError" !in globals
    ensures LastAsked(ExecBody(0, w, [ReadsArgs()], 0, Start(globals, true)), Did("operation", "show", [IntV(0)]))
  {
    var st := NewExc(Start(globals, true), ExcObj(ASSERTION_ERROR, [], None));
    RunsTry(w, ReadsArgs(), Start(globals, true));
    PlainRaises(w, Start(globals, true));
    assert st.trace == [Made(View(ASSERTION_ERROR, []))];
    HandlerShows(w, st);
  }

  lemma RewrittenShowsOne(w: World, globals: map<string, Value>)
    requires w == Honest && "AssertionError" !in globals
    ensures LastAsked(ExecBody(0, w, RewriteBody([ReadsArgs()]), 0, Loaded(globals, true)), Did("operation", "show", [IntV(1)]))
  {
    var s := ReadsArgs();
    var s' := Try(RewriteBody(s.body), s.handlers, [], []);
    ReadsArgsRewritten();
    RunsTry(w, s', Loaded(globals, true));
    var st := RewrittenRaises(w, globals, true);
    NotReserved();
    HandlerShows(w, st);
    assert TryOutcome(0, w, s', 0, Exn(ExcV(0), st)) == TryOutcome(0, w, s, 0, Exn(ExcV(0), st));
  }

  lemma NotReserved()
    ensures "AssertionError" !in RESERVED && "args" !in RESERVED && "e" !in RESERVED
  {
    assert "AssertionError"[0] == 'A' && "args"[0] == 'a' && "e"[0] == 'e';
    assert forall x | x in RESERVED :: x[0] == '_';
  }

  // ── Why the names are reserved ────────────────────────────────────────────────────────

  // `_oxitest_v = 1; assert True; show(_oxitest_v)`
  function Snooping(): seq<Stmt> {
    [Assign(Name(TEMP_VALUE), Constant(LitInt(1))),
     Assert(Constant(LitBool(true)), None, 2, 16),
     ExprStmt(Operation("show", [Name(TEMP_VALUE)]))]
  }

  lemma ShowRuns(w: World, v: Value, st: State)
    requires Resolve(st, 0, TEMP_VALUE, true) == Found(v)
    requires forall e, t :: w(e, t) == Returns(NoneV)
    ensures ExecBody(0, w, [ExprStmt(Operation("show", [Name(TEMP_VALUE)]))], 0, st)
         == Done(Normal, Asked(st, Did("operation", "show", [v])))
  {
    assert Eval(0, w, Name(TEMP_VALUE), 0, st) == Done(v, st);
    Shown(w, Name(TEMP_VALUE), v, st, st);
  }

  lemma SnoopingBefore(w: World)
    requires forall e, t :: w(e, t) == Returns(NoneV)
    ensures
      var t := Bind(Start(map[], false), 0, TEMP_VALUE, IntV(1));
      ExecBody(0, w, Snooping(), 0, Start(map[], false)) == Done(Normal, Asked(t, Did("operation", "show", [IntV(1)])))
  {
    var p := Snooping();
    var s := Start(map[], false);
    var rest, show := [p[1], p[2]], [p[2]];
    assert p == [p[0]] + rest && rest == [p[1]] + show;
    ExecTempAssign(0, w, TEMP_VALUE, p[0].value, rest, 0, s);
    var t := Bind(s, 0, TEMP_VALUE, IntV(1));
    ExecBodyConcat(0, w, [p[1]], show, 0, t);
    ExecBodySingle(0, w, p[1], 0, t);
    assert Eval(0, w, p[1].test, 0, t) == Done(BoolV(true), t);
    assert ExecAssert(0, w, None, 0, Done(BoolV(true), t)) == Done(Normal, t);
    ShowRuns(w, IntV(1), t);
  }

  lemma SnoopingAfter(w: World)
    requires forall e, t :: w(e, t) == Returns(NoneV)
    ensures
      var t := Bind(Bind(Loaded(map[], false), 0, TEMP_VALUE, IntV(1)), 0, TEMP_VALUE, BoolV(true));
      ExecBody(0, w, RewriteBody(Snooping()), 0, Loaded(map[], false)) == Done(Normal, Asked(t, Did("operation", "show", [BoolV(true)])))
  {
    var p := Snooping();
    var s := Loaded(map[], false);
    var again, check, show := Assign(Name(TEMP_VALUE), p[1].test), IfNotRaise(Name(TEMP_VALUE), TEMP_VALUE, NO_RHS, "", None), [p[2]];
    var rest := [check] + show;
    RewriteSnooping();
    assert RewriteBody(p) == [p[0]] + ([again] + rest);
    ExecTempAssign(0, w, TEMP_VALUE, p[0].value, [again] + rest, 0, s);
    var t := Bind(s, 0, TEMP_VALUE, IntV(1));
    ExecTempAssign(0, w, TEMP_VALUE, p[1].test, rest, 0, t);
    var u := Bind(t, 0, TEMP_VALUE, BoolV(true));
    ExecBodyConcat(0, w, [check], show, 0, u);
    ExecIfNot(0, w, Name(TEMP_VALUE), check.body, 0, u);
    assert Eval(0, w, Name(TEMP_VALUE), 0, u) == Done(BoolV(true), u);
    assert TestThen(0, w, check.body, 0, Done(BoolV(true), u)) == Done(Normal, u);
    ShowRuns(w, BoolV(true), u);
  }

  /** A program that reads a temporary can tell: it shows 1 before the rewrite and True after. */
  lemma ReservedNamesMatter(w: World, exact: bool)
    requires forall e, t :: w(e, t) == Returns(NoneV)
    ensures !CleanB(Snooping(), exact)
    ensures !SameMeaning(ExecBody(0, w, Snooping(), 0, Start(map[], false)),
                         ExecBody(0, w, RewriteBody(Snooping()), 0, Loaded(map[], false)))
  {
    SnoopingBefore(w);
    SnoopingAfter(w);
    var e1, e2 := Did("operation", "show", [IntV(1)]), Did("operation", "show", [BoolV(true)]);
    var r1, r2 := ExecBody(0, w, Snooping(), 0, Start(map[], false)), ExecBody(0, w, RewriteBody(Snooping()), 0, Loaded(map[], false));
    assert r1.st.trace[0] == e1 && r2.st.trace[0] == e2;
    assert e1.args[0] != e2.args[0];
    assert CleanB(Snooping(), exact) ==> CleanS(Snooping()[0], exact) && CleanOwn(Snooping()[0], exact) && CleanE(Name(TEMP_VALUE));
  }

  lemma RewriteSnooping()
    ensures RewriteBody(Snooping()) == [Snooping()[0]] + RewriteValue(Snooping()[1].test, None) + [Snooping()[2]]
  {
    var p := Snooping();
    assert RewriteBody(p[2..]) == [p[2]] by {
      assert RewriteStmt(p[2]) == [p[2]];
      assert p[2..][1..] == [];
    }
    assert p[1..][1..] == p[2..];
    assert RewriteBody(p[1..]) == RewriteValue(p[1].test, None) + [p[2]];
    assert RewriteStmt(p[0]) == [p[0]];
  }
}
