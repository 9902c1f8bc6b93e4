/**
 What a Python program does: an interpreter for the tree of `PyAst`.

 Everything outside the program text (operators, attribute access, calls to library code,
 truth tests, imports, context managers, iterators) is asked of a `World`: an arbitrary
 function of the question and of every question asked before. The list of questions is the
 program's sequence of effects. Outside code may call the program back before it answers, any
 number of times; how the call went is then the next question. Functions, classes and exceptions live in tables, so a
 `Value` is plain data and two runs can be compared value by value.

 Scoping follows the language: a name assigned anywhere in a function is local to it, a
 class body is skipped by the functions inside it, and `global` names live in frame 0.
 `fuel` bounds calls, calls back and loop turns only, so it is spent alike by a program and its rewrite.
 */
module PySemantics {
  import opened Options
  import opened PyAst
  import opened Rewriter

  datatype Value =
    | NoneV | BoolV(b: bool) | IntV(n: int) | StrV(s: string)
    | NoRhsV | ErrorClassV
    | FnV(id: nat) | ClassV(frame: nat) | ExcV(id: nat) | ObjV(id: nat)

  datatype Operands = Operands(left: Value, right: Value, op: Value)

  datatype ExcObj = ExcObj(cls: string, args: seq<Value>, operands: Option<Operands>)

  // What a program can tell about an exception: an `_OxitestAssertionError` is an
  // `AssertionError`. Unless arguments are read exactly, the one without a message reads as the
  // empty message, as it does in `str(e)`.
  datatype View = View(cls: string, args: seq<Value>)

  const ASSERTION_ERROR := "AssertionError"

  function ViewOf(e: ExcObj, exact: bool): View {
    if e.cls == ERROR_CLASS || e.cls == ASSERTION_ERROR then
      View(ASSERTION_ERROR, if e.args == [] && !exact then [StrV("")] else e.args)
    else
      View(e.cls, e.args)
  }

  datatype Frame = Frame(vars: map<string, Value>, locals: set<string>, globals: set<string>, parent: nat, isClass: bool)

  datatype FnObj = FnObj(params: seq<string>, globals: set<string>, body: seq<Stmt>, env: nat)

  datatype Event = Made(view: View) | Did(kind: string, detail: string, args: seq<Value>)

  // `Throws` raises an exception that exists already; `Calls` calls the program back.
  datatype Response =
    | Returns(value: Value)
    | Raises(cls: string, args: seq<Value>)
    | Throws(exc: Value)
    | Stops
    | Calls(fn: Value, args: seq<Value>)

  type World = (Event, seq<Event>) -> Response

  // `exact` never changes: whether anything can tell `AssertionError()` from `AssertionError("")`.
  datatype State = State(frames: seq<Frame>, fns: seq<FnObj>, excs: seq<ExcObj>, trace: seq<Event>, exact: bool)

  datatype R<+T> = Done(value: T, st: State) | Exn(exc: Value, st: State) | Diverge
  {
    predicate IsFailure() {
      !Done?
    }

    function PropagateFailure<U>(): R<U>
      requires IsFailure()
    {
      if Exn? then Exn(exc, st) else Diverge
    }

    function Extract(): (T, State)
      requires Done?
    {
      (value, st)
    }
  }

  datatype Completion = Normal | Broke | Continued | Returned(value: Value)

  // ── State ─────────────────────────────────────────────────────────────────────────────

  function NewFrame(st: State, fr: Frame): State {
    st.(frames := st.frames + [fr])
  }

  function NewFn(st: State, fn: FnObj): State {
    st.(fns := st.fns + [fn])
  }

  function NewExc(st: State, e: ExcObj): State {
    st.(excs := st.excs + [e], trace := st.trace + [Made(ViewOf(e, st.exact))])
  }

  function Throw<T>(e: ExcObj, st: State): R<T> {
    Exn(ExcV(|st.excs|), NewExc(st, e))
  }

  function Asked(st: State, ev: Event): State {
    st.(trace := st.trace + [ev])
  }

  function RaiseExisting<T>(x: Value, st: State): R<T> {
    if x.ExcV? then Exn(x, st) else Throw(ExcObj("TypeError", [], None), st)
  }

  datatype Binding = Found(value: Value) | Unbound | Free

  function GlobalVar(st: State, x: string): Binding {
    if |st.frames| > 0 && x in st.frames[0].vars then Found(st.frames[0].vars[x]) else Free
  }

  // `own` is whether the code doing the lookup runs in frame `f` itself.
  function Resolve(st: State, f: nat, x: string, own: bool): Binding
    decreases f
  {
    if f >= |st.frames| then Free
    else
      var fr := st.frames[f];
      if (own || !fr.isClass) && x in fr.globals then GlobalVar(st, x)
      else if (own || !fr.isClass) && x in fr.vars then Found(fr.vars[x])
      else if (own || !fr.isClass) && x in fr.locals then Unbound
      else if fr.parent < f then Resolve(st, fr.parent, x, false)
      else GlobalVar(st, x)
  }

  function Home(st: State, f: nat, x: string): nat {
    if f < |st.frames| && x in st.frames[f].globals then 0 else f
  }

  function SetVar(st: State, f: nat, x: string, v: Value): State {
    if f < |st.frames| then
      st.(frames := st.frames[f := st.frames[f].(vars := st.frames[f].vars[x := v])])
    else st
  }

  function Bind(st: State, f: nat, x: string, v: Value): State {
    SetVar(st, Home(st, f, x), x, v)
  }

  function DelVar(st: State, f: nat, x: string): State {
    if f < |st.frames| then
      st.(frames := st.frames[f := st.frames[f].(vars := st.frames[f].vars - {x})])
    else st
  }

  function Unbind(st: State, f: nat, x: string): State {
    DelVar(st, Home(st, f, x), x)
  }

  function BindArgs(params: seq<string>, args: seq<Value>): map<string, Value>
    requires |params| == |args|
  {
    if params == [] then map[] else BindArgs(params[1..], args[1..])[params[0] := args[0]]
  }

  // ── Names a body binds ────────────────────────────────────────────────────────────────

  function BoundE(e: Expr): set<string> {
    match e
    case Name(_) => {}
    case Constant(_) => {}
    case Attribute(b, _, _) => BoundE(b)
    case Compare(l, _, cs) => BoundE(l) + BoundEs(cs)
    case BoolOp(_, es) => BoundEs(es)
    case Not(b) => BoundE(b)
    case NamedExpr(x, b) => {x} + BoundE(b)
    case IfExp(c, t, f) => BoundE(c) + BoundE(t) + BoundE(f)
    case Call(fn, args) => BoundE(fn) + BoundEs(args)
    case Lambda(_, _) => {}
    case Operation(_, es) => BoundEs(es)
  }

  function BoundEs(es: seq<Expr>): set<string> {
    if es == [] then {} else BoundE(es[0]) + BoundEs(es[1..])
  }

  function BoundOpt(e: Option<Expr>): set<string> {
    if e.Some? then BoundE(e.value) else {}
  }

  function BoundTarget(e: Expr): set<string> {
    if e.Name? then {e.id} else BoundE(e)
  }

  function BoundAliases(aliases: seq<Alias>): set<string> {
    set a | a in aliases :: a.bound
  }

  function BoundHandler(h: Handler): set<string> {
    BoundOpt(h.kind) + (if h.name.Some? then {h.name.value} else {})
  }

  function BoundCase(c: MatchCase): set<string> {
    BoundAliases(c.captures) + BoundOpt(c.guard)
  }

  // What the statement itself binds, its child lists aside.
  function BoundOwn(s: Stmt): set<string> {
    match s
    case ExprStmt(e) => BoundE(e)
    case Assign(t, e) => BoundTarget(t) + BoundE(e)
    case Return(e) => BoundOpt(e)
    case Raise(e) => BoundE(e)
    case Assert(t, m, _, _) => BoundE(t) + BoundOpt(m)
    case Import(aliases) => BoundAliases(aliases)
    case ImportFrom(_, _, aliases) => BoundAliases(aliases)
    case FunctionDef(name, _, _, ds, _) => {name} + BoundEs(ds)
    case ClassDef(name, bases, ds, _) => {name} + BoundEs(bases) + BoundEs(ds)
    case If(t, _, _) => BoundE(t)
    case While(t, _, _) => BoundE(t)
    case For(t, i, _, _) => BoundTarget(t) + BoundE(i)
    case With(c, t, _) => BoundE(c) + (if t.Some? then BoundTarget(t.value) else {})
    case Try(_, hs, _, _) => set i, x | 0 <= i < |hs| && x in BoundHandler(hs[i]) :: x
    case Match(e, cs) => BoundE(e) + set i, x | 0 <= i < |cs| && x in BoundCase(cs[i]) :: x
    case _ => {}
  }

  function BoundS(s: Stmt): set<string>
    decreases s, 0
  {
    BoundOwn(s) +
    if s.FunctionDef? || s.ClassDef? then {}
    else set i, x | 0 <= i < |Bodies(s)| && x in BoundB(Bodies(s)[i]) :: x
  }

  function BoundB(body: seq<Stmt>): set<string>
    decreases body
  {
    if body == [] then {} else BoundS(body[0]) + BoundB(body[1..])
  }

  function CallFrame(fn: FnObj, args: seq<Value>): Frame
    requires |args| == |fn.params|
  {
    Frame(BindArgs(fn.params, args), BoundB(fn.body) + (set p | p in fn.params) - fn.globals, fn.globals, fn.env, false)
  }

  // ── The outside ───────────────────────────────────────────────────────────────────────

  // One question and its answer, which is nothing if the world stops.
  function Outside(fuel: nat, w: World, ev: Event, st: State): R<Option<Value>>
    decreases fuel, 0, 0
  {
    match w(ev, st.trace)
    case Returns(v) => Done(Some(v), Asked(st, ev))
    case Raises(cls, args) => Throw(ExcObj(cls, args, None), Asked(st, ev))
    case Throws(x) => RaiseExisting(x, Asked(st, ev))
    case Stops => Done(None, Asked(st, ev))
    case Calls(fv, args) => if fuel == 0 then Diverge else Resume(fuel - 1, w, Apply(fuel - 1, w, fv, args, Asked(st, ev)))
  }

  // Outside code goes on after calling the program back.
  function Resume(fuel: nat, w: World, r: R<Value>): R<Option<Value>>
    decreases fuel, 0, 1
  {
    match r
    case Done(v, st) => Outside(fuel, w, Did("returned", "", [v]), st)
    case Exn(x, st) => Outside(fuel, w, Did("raised", "", [x]), st)
    case Diverge => Diverge
  }

  function Ask(fuel: nat, w: World, kind: string, detail: string, args: seq<Value>, st: State): R<Value>
    decreases fuel, 0, 1
  {
    var (v, st1) :- Outside(fuel, w, Did(kind, detail, args), st);
    Done(if v.Some? then v.value else NoneV, st1)
  }

  // ── Expressions ───────────────────────────────────────────────────────────────────────

  function Lit(l: Literal): Value {
    match l
    case LitNone => NoneV
    case LitBool(b) => BoolV(b)
    case LitInt(n) => IntV(n)
    case LitStr(s) => StrV(s)
  }

  function Truth(fuel: nat, w: World, v: Value, st: State): R<bool>
    decreases fuel, 0, 2
  {
    if v.BoolV? then Done(v.b, st)
    else if v.NoneV? then Done(false, st)
    else
      var (r, st1) :- Ask(fuel, w, "truth", "", [v], st);
      Done(r == BoolV(true), st1)
  }

  function GetAttr(fuel: nat, w: World, v: Value, attr: string, st: State): R<Value>
    decreases fuel, 0, 2
  {
    if v.ClassV? && v.frame < |st.frames| && attr in st.frames[v.frame].vars then
      Done(st.frames[v.frame].vars[attr], st)
    else
      Ask(fuel, w, "getattr", attr, [v], st)
  }

  function SetAttr(fuel: nat, w: World, o: Value, attr: string, v: Value, st: State): R<Completion>
    decreases fuel, 0, 2
  {
    if o.ClassV? && o.frame < |st.frames| then Done(Normal, SetVar(st, o.frame, attr, v))
    else
      var (_, st1) :- Ask(fuel, w, "setattr", attr, [o, v], st);
      Done(Normal, st1)
  }

  function ReadName(fuel: nat, w: World, x: string, f: nat, st: State): R<Value>
    decreases fuel, 0, 2
  {
    match Resolve(st, f, x, true)
    case Found(v) => Done(v, st)
    case Unbound => Throw(ExcObj("UnboundLocalError", [StrV(x)], None), st)
    case Free => Ask(fuel, w, "name", x, [], st)
  }

  function Eval(fuel: nat, w: World, e: Expr, f: nat, st: State): R<Value>
    decreases fuel, 1, e
  {
    match e
    case Name(x) => ReadName(fuel, w, x, f, st)
    case Constant(l) => Done(Lit(l), st)
    case Attribute(b, attr, _) =>
      var (v, st1) :- Eval(fuel, w, b, f, st);
      GetAttr(fuel, w, v, attr, st1)
    case Compare(l, ops, cs) =>
      var (v, st1) :- Eval(fuel, w, l, f, st);
      EvalChain(fuel, w, v, ops, cs, f, st1)
    case BoolOp(isAnd, es) => EvalBool(fuel, w, isAnd, es, f, st)
    case Not(b) =>
      var (v, st1) :- Eval(fuel, w, b, f, st);
      var (t, st2) :- Truth(fuel, w, v, st1);
      Done(BoolV(!t), st2)
    case NamedExpr(x, b) =>
      var (v, st1) :- Eval(fuel, w, b, f, st);
      Done(v, Bind(st1, f, x, v))
    case IfExp(c, thn, els) =>
      var (v, st1) :- Eval(fuel, w, c, f, st);
      var (t, st2) :- Truth(fuel, w, v, st1);
      if t then Eval(fuel, w, thn, f, st2) else Eval(fuel, w, els, f, st2)
    case Call(fn, args) =>
      var (fv, st1) :- Eval(fuel, w, fn, f, st);
      var (vs, st2) :- EvalAll(fuel, w, args, f, st1);
      Apply(fuel, w, fv, vs, st2)
    case Lambda(params, b) => Done(FnV(|st.fns|), NewFn(st, FnObj(params, {}, [Return(Some(b))], f)))
    case Operation(op, es) =>
      var (vs, st1) :- EvalAll(fuel, w, es, f, st);
      Ask(fuel, w, "operation", op, vs, st1)
  }

  function EvalAll(fuel: nat, w: World, es: seq<Expr>, f: nat, st: State): R<seq<Value>>
    decreases fuel, 1, es
  {
    if es == [] then Done([], st)
    else
      var (v, st1) :- Eval(fuel, w, es[0], f, st);
      var (vs, st2) :- EvalAll(fuel, w, es[1..], f, st1);
      Done([v] + vs, st2)
  }

  // The rest of a comparison chain: each operand is evaluated once, and only if reached.
  function EvalChain(fuel: nat, w: World, v: Value, ops: seq<string>, cs: seq<Expr>, f: nat, st: State): R<Value>
    decreases fuel, 1, cs
  {
    if ops == [] || cs == [] then Done(v, st)
    else
      var (r, st1) :- Eval(fuel, w, cs[0], f, st);
      var (c, st2) :- Ask(fuel, w, "compare", ops[0], [v, r], st1);
      if |cs| == 1 then Done(c, st2)
      else
        var (t, st3) :- Truth(fuel, w, c, st2);
        if t then EvalChain(fuel, w, r, ops[1..], cs[1..], f, st3) else Done(c, st3)
  }

  function EvalBool(fuel: nat, w: World, isAnd: bool, es: seq<Expr>, f: nat, st: State): R<Value>
    decreases fuel, 1, es
  {
    if es == [] then Done(BoolV(isAnd), st)
    else
      var (v, st1) :- Eval(fuel, w, es[0], f, st);
      if |es| == 1 then Done(v, st1)
      else
        var (t, st2) :- Truth(fuel, w, v, st1);
        if t == isAnd then EvalBool(fuel, w, isAnd, es[1..], f, st2) else Done(v, st2)
  }

  function Apply(fuel: nat, w: World, fv: Value, args: seq<Value>, st: State): R<Value>
    decreases fuel, 0, 2
  {
    if fv.FnV? && fv.id < |st.fns| then
      var fn := st.fns[fv.id];
      if |args| != |fn.params| then Throw(ExcObj("TypeError", [], None), st)
      else if fuel == 0 then Diverge
      else
        var (c, st1) :- ExecBody(fuel - 1, w, fn.body, |st.frames|, NewFrame(st, CallFrame(fn, args)));
        Done(if c.Returned? then c.value else NoneV, st1)
    else if fv.ErrorClassV? && |args| == 4 then
      Done(ExcV(|st.excs|), NewExc(st, ExcObj(ERROR_CLASS, [args[3]], Some(Operands(args[0], args[1], args[2])))))
    else
      Ask(fuel, w, "call", "", [fv] + args, st)
  }

  // Decorators are applied last to first.
  function Decorate(fuel: nat, w: World, ds: seq<Value>, v: Value, st: State): R<Value>
    decreases fuel, 1, |ds|
  {
    if ds == [] then Done(v, st)
    else
      var (r, st1) :- Apply(fuel, w, ds[|ds| - 1], [v], st);
      Decorate(fuel, w, ds[..|ds| - 1], r, st1)
  }

  // ── Statements ────────────────────────────────────────────────────────────────────────

  function AssignTo(fuel: nat, w: World, target: Expr, v: Value, f: nat, st: State): R<Completion>
    decreases fuel, 2, target
  {
    match target
    case Name(x) => Done(Normal, Bind(st, f, x, v))
    case Attribute(b, attr, _) =>
      var (o, st1) :- Eval(fuel, w, b, f, st);
      SetAttr(fuel, w, o, attr, v, st1)
    case Operation(op, es) =>
      var (vs, st1) :- EvalAll(fuel, w, es, f, st);
      var (_, st2) :- Ask(fuel, w, "store", op, vs + [v], st1);
      Done(Normal, st2)
    case _ =>
      var (_, st1) :- Ask(fuel, w, "store", "invalid", [v], st);
      Done(Normal, st1)
  }

  // Imports, and the captures of a matched pattern.
  function BindFetched(fuel: nat, w: World, kind: string, v: Value, aliases: seq<Alias>, f: nat, st: State): R<Completion>
    decreases fuel, 0, 2, |aliases|
  {
    if aliases == [] then Done(Normal, st)
    else
      var (r, st1) :- Ask(fuel, w, kind, aliases[0].source, [v], st);
      BindFetched(fuel, w, kind, v, aliases[1..], f, Bind(st1, f, aliases[0].bound, r))
  }

  function RaiseValue(fuel: nat, w: World, v: Value, st: State): R<Completion>
    decreases fuel, 0, 2
  {
    if v.ExcV? then Exn(v, st)
    else
      var (x, st1) :- Ask(fuel, w, "raise", "", [v], st);
      RaiseExisting(x, st1)
  }

  function Exec(fuel: nat, w: World, s: Stmt, f: nat, st: State): R<Completion>
    decreases fuel, 3, s, 2
  {
    match s
    case Assign(_, _) => ExecAssign(fuel, w, s, f, st)
    case Assert(_, _, _, _) => ExecAssert(fuel, w, s.msg, f, Eval(fuel, w, s.test, f, st))
    case FunctionDef(_, _, _, _, _) => ExecFunctionDef(fuel, w, s, f, st)
    case ClassDef(_, _, _, _) => ExecClassDef(fuel, w, s, f, st)
    case If(_, _, _) => ExecIf(fuel, w, s, f, st)
    case While(_, _, _) => ExecWhile(fuel, w, s, f, st)
    case For(_, _, _, _) => ExecFor(fuel, w, s, f, st)
    case With(_, _, _) => ExecWith(fuel, w, s, f, st)
    case Try(_, _, _, _) => ExecTry(fuel, w, s, f, st)
    case Match(_, _) => ExecMatch(fuel, w, s, f, st)
    case _ => ExecSimple(fuel, w, s, f, st)
  }

  function ExecAssign(fuel: nat, w: World, s: Stmt, f: nat, st: State): R<Completion>
    requires s.Assign?
    decreases fuel, 3, s, 1
  {
    var (v, st1) :- Eval(fuel, w, s.value, f, st);
    AssignTo(fuel, w, s.target, v, f, st1)
  }

  // The rest of an assert whose test came to `r`: the message is evaluated on failure only.
  function ExecAssert(fuel: nat, w: World, msg: Option<Expr>, f: nat, r: R<Value>): R<Completion>
    decreases fuel, 2, OptExpr(msg), 1
  {
    var (v, st1) :- r;
    var (t, st2) :- Truth(fuel, w, v, st1);
    if t then Done(Normal, st2) else FailAssert(fuel, w, msg, f, st2)
  }

  function FailAssert(fuel: nat, w: World, msg: Option<Expr>, f: nat, st: State): R<Completion>
    decreases fuel, 2, OptExpr(msg), 0
  {
    if msg.None? then Throw(ExcObj(ASSERTION_ERROR, [], None), st)
    else
      var (m, st1) :- Eval(fuel, w, msg.value, f, st);
      Throw(ExcObj(ASSERTION_ERROR, [m], None), st1)
  }

  function ExecSimple(fuel: nat, w: World, s: Stmt, f: nat, st: State): R<Completion>
    decreases fuel, 3, s, 1
  {
    match s
    case ExprStmt(e) =>
      var (_, st1) :- Eval(fuel, w, e, f, st);
      Done(Normal, st1)
    case Return(e) =>
      if e.None? then Done(Returned(NoneV), st)
      else
        var (v, st1) :- Eval(fuel, w, e.value, f, st);
        Done(Returned(v), st1)
    case Raise(e) =>
      var (v, st1) :- Eval(fuel, w, e, f, st);
      RaiseValue(fuel, w, v, st1)
    case Break => Done(Broke, st)
    case Continue => Done(Continued, st)
    case Import(aliases) => BindFetched(fuel, w, "import", NoneV, aliases, f, st)
    case ImportFrom(source, level, aliases) =>
      BindFetched(fuel, w, "import from", Imported(source, level), aliases, f, st)
    case _ => Done(Normal, st)
  }

  function ExecFunctionDef(fuel: nat, w: World, s: Stmt, f: nat, st: State): R<Completion>
    requires s.FunctionDef?
    decreases fuel, 3, s, 1
  {
    var (dvs, st1) :- EvalAll(fuel, w, s.decorators, f, st);
    var (v, st2) :- Decorate(fuel, w, dvs, FnV(|st1.fns|), NewFn(st1, FnObj(s.params, s.globals, s.body, f)));
    Done(Normal, Bind(st2, f, s.name, v))
  }

  // A class body runs in a frame of its own; that frame is the class.
  function ExecClassDef(fuel: nat, w: World, s: Stmt, f: nat, st: State): R<Completion>
    requires s.ClassDef?
    decreases fuel, 3, s, 1
  {
    var (dvs, st1) :- EvalAll(fuel, w, s.decorators, f, st);
    var (bvs, st2) :- EvalAll(fuel, w, s.bases, f, st1);
    var (_, st3) :- Ask(fuel, w, "class", s.name, bvs, st2);
    var (_, st4) :- ExecBody(fuel, w, s.body, |st3.frames|, NewFrame(st3, Frame(map[], {}, {}, f, true)));
    var (v, st5) :- Decorate(fuel, w, dvs, ClassV(|st3.frames|), st4);
    Done(Normal, Bind(st5, f, s.name, v))
  }

  function ExecIf(fuel: nat, w: World, s: Stmt, f: nat, st: State): R<Completion>
    requires s.If?
    decreases fuel, 3, s, 1
  {
    var (v, st1) :- Eval(fuel, w, s.test, f, st);
    var (t, st2) :- Truth(fuel, w, v, st1);
    if t then ExecBody(fuel, w, s.body, f, st2) else ExecBody(fuel, w, s.orelse, f, st2)
  }

  function ExecWhile(fuel: nat, w: World, s: Stmt, f: nat, st: State): R<Completion>
    requires s.While?
    decreases fuel, 3, s, 1
  {
    var (v, st1) :- Eval(fuel, w, s.test, f, st);
    var (t, st2) :- Truth(fuel, w, v, st1);
    if !t then ExecBody(fuel, w, s.orelse, f, st2)
    else
      var (c, st3) :- ExecBody(fuel, w, s.body, f, st2);
      if c.Broke? then Done(Normal, st3)
      else if c.Returned? then Done(c, st3)
      else if fuel == 0 then Diverge
      else ExecWhile(fuel - 1, w, s, f, st3)
  }

  function ExecFor(fuel: nat, w: World, s: Stmt, f: nat, st: State): R<Completion>
    requires s.For?
    decreases fuel, 3, s, 1
  {
    var (v, st1) :- Eval(fuel, w, s.iter, f, st);
    var (it, st2) :- Ask(fuel, w, "iter", "", [v], st1);
    ForNext(fuel, w, it, s, f, st2)
  }

  function ExecWith(fuel: nat, w: World, s: Stmt, f: nat, st: State): R<Completion>
    requires s.With?
    decreases fuel, 3, s, 1
  {
    var (c, st1) :- Eval(fuel, w, s.context, f, st);
    var (v, st2) :- Ask(fuel, w, "enter", "", [c], st1);
    if s.asTarget.None? then ExitWith(fuel, w, c, ExecBody(fuel, w, s.body, f, st2))
    else
      var a := AssignTo(fuel, w, s.asTarget.value, v, f, st2);
      ExitWith(fuel, w, c, if a.Done? then ExecBody(fuel, w, s.body, f, a.st) else a)
  }

  function ExecTry(fuel: nat, w: World, s: Stmt, f: nat, st: State): R<Completion>
    requires s.Try?
    decreases fuel, 3, s, 1
  {
    var r := ExecBody(fuel, w, s.body, f, st);
    var r2 :=
      if r.Exn? then ExecHandlers(fuel, w, s.handlers, r.exc, f, r.st)
      else if r.Done? && r.value.Normal? then ExecBody(fuel, w, s.orelse, f, r.st)
      else r;
    if r2.Diverge? then Diverge
    else
      var (c, st2) :- ExecBody(fuel, w, s.finalbody, f, r2.st);
      if !c.Normal? then Done(c, st2)
      else if r2.Exn? then Exn(r2.exc, st2)
      else Done(r2.value, st2)
  }

  function ExecMatch(fuel: nat, w: World, s: Stmt, f: nat, st: State): R<Completion>
    requires s.Match?
    decreases fuel, 3, s, 1
  {
    var (v, st1) :- Eval(fuel, w, s.subject, f, st);
    ExecCases(fuel, w, s.cases, v, f, st1)
  }

  function Imported(source: Option<string>, level: nat): Value {
    if source.Some? then StrV(source.value) else IntV(level)
  }

  function ExecBody(fuel: nat, w: World, body: seq<Stmt>, f: nat, st: State): R<Completion>
    decreases fuel, 3, body
  {
    if body == [] then Done(Normal, st)
    else
      var (c, st1) :- Exec(fuel, w, body[0], f, st);
      if c.Normal? then ExecBody(fuel, w, body[1..], f, st1) else Done(c, st1)
  }

  function ForNext(fuel: nat, w: World, it: Value, s: Stmt, f: nat, st: State): R<Completion>
    requires s.For?
    decreases fuel, 3, s, 0
  {
    var (v, st0) :- Outside(fuel, w, Did("next", "", [it]), st);
    if v.None? then ExecBody(fuel, w, s.orelse, f, st0)
    else
      var (_, st1) :- AssignTo(fuel, w, s.target, v.value, f, st0);
      var (c, st2) :- ExecBody(fuel, w, s.body, f, st1);
      if c.Broke? then Done(Normal, st2)
      else if c.Returned? then Done(c, st2)
      else if fuel == 0 then Diverge
      else ForNext(fuel - 1, w, it, s, f, st2)
  }

  function ExitWith(fuel: nat, w: World, c: Value, r: R<Completion>): R<Completion>
    decreases fuel, 0, 3
  {
    match r
    case Diverge => Diverge
    case Done(completion, st) =>
      var (_, st1) :- Ask(fuel, w, "exit", "", [c, NoneV], st);
      Done(completion, st1)
    case Exn(x, st) =>
      var (v, st1) :- Ask(fuel, w, "exit", "", [c, x], st);
      var (t, st2) :- Truth(fuel, w, v, st1);
      if t then Done(Normal, st2) else Exn(x, st2)
  }

  function ExecHandlers(fuel: nat, w: World, hs: seq<Handler>, x: Value, f: nat, st: State): R<Completion>
    decreases fuel, 3, hs
  {
    if hs == [] then Exn(x, st)
    else if hs[0].kind.None? then RunHandler(fuel, w, hs[0], x, f, st)
    else
      var (k, st1) :- Eval(fuel, w, hs[0].kind.value, f, st);
      var (m, st2) :- Ask(fuel, w, "isinstance", "", [x, k], st1);
      var (t, st3) :- Truth(fuel, w, m, st2);
      if t then RunHandler(fuel, w, hs[0], x, f, st3) else ExecHandlers(fuel, w, hs[1..], x, f, st3)
  }

  // The exception's name is bound for the handler's body and unbound after it.
  function RunHandler(fuel: nat, w: World, h: Handler, x: Value, f: nat, st: State): R<Completion>
    decreases fuel, 3, h
  {
    if h.name.None? then ExecBody(fuel, w, h.body, f, st)
    else
      match ExecBody(fuel, w, h.body, f, Bind(st, f, h.name.value, x))
      case Done(c, st1) => Done(c, Unbind(st1, f, h.name.value))
      case Exn(y, st1) => Exn(y, Unbind(st1, f, h.name.value))
      case Diverge => Diverge
  }

  function ExecCases(fuel: nat, w: World, cs: seq<MatchCase>, v: Value, f: nat, st: State): R<Completion>
    decreases fuel, 3, cs
  {
    if cs == [] then Done(Normal, st)
    else
      var (m, st0) :- Outside(fuel, w, Did("match", "", [IntV(cs[0].pattern), v]), st);
      if m.None? then ExecCases(fuel, w, cs[1..], v, f, st0)
      else
        var (_, st1) :- BindFetched(fuel, w, "capture", v, cs[0].captures, f, st0);
        if cs[0].guard.None? then ExecBody(fuel, w, cs[0].body, f, st1)
        else
          var (g, st2) :- Eval(fuel, w, cs[0].guard.value, f, st1);
          var (t, st3) :- Truth(fuel, w, g, st2);
          if t then ExecBody(fuel, w, cs[0].body, f, st3) else ExecCases(fuel, w, cs[1..], v, f, st3)
  }
}
