/**
 The part of the Python syntax tree the runner's analyses look at: the statements they
 descend into, the expressions those statements hold, and the positions they report.

 A plain form and its `async` twin (`for`/`async for`, `def`/`async def`, ...) share one
 constructor, because every walker treats the two alike. `Operation` stands for every
 expression form whose operands are simply evaluated from left to right.
 */
module PyAst {
  import opened Options

  datatype Literal = LitNone | LitBool(b: bool) | LitInt(n: int) | LitStr(s: string)

  datatype Expr =
    | Name(id: string)
    | Constant(lit: Literal)
    | Attribute(value: Expr, attr: string, start: nat)
    | Compare(left: Expr, ops: seq<string>, comparators: seq<Expr>)
    | BoolOp(isAnd: bool, values: seq<Expr>)
    | Not(operand: Expr)
    | NamedExpr(target: string, bound: Expr)
    | IfExp(test: Expr, thn: Expr, els: Expr)
    | Call(func: Expr, args: seq<Expr>)
    | Lambda(params: seq<string>, body: Expr)
    | Operation(op: string, operands: seq<Expr>)

  // One `import m as b`, one imported name of a `from` import, or one capture of a pattern.
  datatype Alias = Alias(source: string, bound: string)

  datatype Handler = Handler(kind: Option<Expr>, name: Option<string>, body: seq<Stmt>)

  datatype MatchCase = MatchCase(pattern: int, captures: seq<Alias>, guard: Option<Expr>, body: seq<Stmt>)

  datatype Stmt =
    | ExprStmt(value: Expr)
    | Assign(target: Expr, value: Expr)
    | Return(result: Option<Expr>)
    | Raise(exc: Expr)
    | Assert(test: Expr, msg: Option<Expr>, lineno: int, start: nat)
    | Pass
    | Break
    | Continue
    | Import(aliases: seq<Alias>)
    | ImportFrom(source: Option<string>, level: nat, aliases: seq<Alias>)
    | FunctionDef(name: string, params: seq<string>, globals: set<string>, decorators: seq<Expr>, body: seq<Stmt>)
    | ClassDef(name: string, bases: seq<Expr>, decorators: seq<Expr>, body: seq<Stmt>)
    | If(test: Expr, body: seq<Stmt>, orelse: seq<Stmt>)
    | While(test: Expr, body: seq<Stmt>, orelse: seq<Stmt>)
    | For(target: Expr, iter: Expr, body: seq<Stmt>, orelse: seq<Stmt>)
    | With(context: Expr, asTarget: Option<Expr>, body: seq<Stmt>)
    | Try(body: seq<Stmt>, handlers: seq<Handler>, orelse: seq<Stmt>, finalbody: seq<Stmt>)
    | Match(subject: Expr, cases: seq<MatchCase>)

  function OptExpr(e: Option<Expr>): seq<Expr> {
    if e.Some? then [e.value] else []
  }

  /** The statement lists a compound statement holds, in the order the rewriter visits them. */
  function Bodies(s: Stmt): (r: seq<seq<Stmt>>)
    ensures forall i | 0 <= i < |r| :: (s decreases to r[i])
    ensures s.Assert? ==> r == []
  {
    match s
    case FunctionDef(_, _, _, _, body) => [body]
    case ClassDef(_, _, _, body) => [body]
    case If(_, body, orelse) => [body, orelse]
    case While(_, body, orelse) => [body, orelse]
    case For(_, _, body, orelse) => [body, orelse]
    case With(_, _, body) => [body]
    case Try(body, handlers, orelse, finalbody) =>
      [body, orelse, finalbody] + seq(|handlers|, i requires 0 <= i < |handlers| => handlers[i].body)
    case Match(_, cases) => seq(|cases|, i requires 0 <= i < |cases| => cases[i].body)
    case _ => []
  }

  /** The same statement around other lists. */
  function WithBodies(s: Stmt, bs: seq<seq<Stmt>>): (r: Stmt)
    requires |bs| == |Bodies(s)|
    ensures Bodies(r) == bs
    ensures bs == Bodies(s) ==> r == s
  {
    match s
    case FunctionDef(name, params, globals, decorators, _) => FunctionDef(name, params, globals, decorators, bs[0])
    case ClassDef(name, bases, decorators, _) => ClassDef(name, bases, decorators, bs[0])
    case If(test, _, _) => If(test, bs[0], bs[1])
    case While(test, _, _) => While(test, bs[0], bs[1])
    case For(target, iter, _, _) => For(target, iter, bs[0], bs[1])
    case With(context, asTarget, _) => With(context, asTarget, bs[0])
    case Try(_, handlers, _, _) =>
      Try(bs[0],
          seq(|handlers|, i requires 0 <= i < |handlers| => Handler(handlers[i].kind, handlers[i].name, bs[3 + i])),
          bs[1], bs[2])
    case Match(subject, cases) =>
      Match(subject,
            seq(|cases|, i requires 0 <= i < |cases| =>
              MatchCase(cases[i].pattern, cases[i].captures, cases[i].guard, bs[i])))
    case _ => s
  }

  /** The same lists in the order `compound_children` chains them: handlers come second. */
  function CompoundLists(s: Stmt): (r: seq<seq<Stmt>>)
    ensures |r| == |Bodies(s)|
    ensures forall i | 0 <= i < |r| :: (s decreases to r[i])
  {
    match s
    case Try(body, handlers, orelse, finalbody) =>
      [body] + seq(|handlers|, i requires 0 <= i < |handlers| => handlers[i].body) + [orelse, finalbody]
    case _ => Bodies(s)
  }

  lemma TryBodies(s: Stmt, bs: seq<seq<Stmt>>, i: nat)
    requires s.Try? && i < |s.handlers| && |bs| == |Bodies(s)|
    ensures Bodies(s)[3 + i] == s.handlers[i].body
    ensures var r := WithBodies(s, bs);
            r.Try? && |r.handlers| == |s.handlers| && r.handlers[i] == Handler(s.handlers[i].kind, s.handlers[i].name, bs[3 + i])
  {
  }

  lemma MatchBodies(s: Stmt, bs: seq<seq<Stmt>>, i: nat)
    requires s.Match? && i < |s.cases| && |bs| == |Bodies(s)|
    ensures Bodies(s)[i] == s.cases[i].body
    ensures var r := WithBodies(s, bs);
            && r.Match? && |r.cases| == |s.cases|
            && r.cases[i] == MatchCase(s.cases[i].pattern, s.cases[i].captures, s.cases[i].guard, bs[i])
  {
  }

  // ── Child lists, form by form ─────────────────────────────────────────────────────────

  /** `list` stands directly inside `s`. */
  ghost predicate ChildList(s: Stmt, list: seq<Stmt>) {
    || (s.FunctionDef? && list == s.body)
    || (s.ClassDef? && list == s.body)
    || (s.If? && (list == s.body || list == s.orelse))
    || (s.While? && (list == s.body || list == s.orelse))
    || (s.For? && (list == s.body || list == s.orelse))
    || (s.With? && list == s.body)
    || (s.Try? && (list == s.body || list == s.orelse || list == s.finalbody || exists h | h in s.handlers :: list == h.body))
    || (s.Match? && exists c | c in s.cases :: list == c.body)
  }

  // How many lists stand directly inside `s`.
  function ChildListCount(s: Stmt): nat {
    if s.FunctionDef? || s.ClassDef? || s.With? then 1
    else if s.If? || s.While? || s.For? then 2
    else if s.Try? then 3 + |s.handlers|
    else if s.Match? then |s.cases|
    else 0
  }

  /** Both enumerations hold every list that stands directly inside a statement, and no other. */
  lemma ListsAreChildren(s: Stmt, list: seq<Stmt>)
    ensures list in Bodies(s) <==> ChildList(s, list)
    ensures list in CompoundLists(s) <==> ChildList(s, list)
    ensures |Bodies(s)| == |CompoundLists(s)| == ChildListCount(s)
  {
    if s.Try? {
      TryListed(s, list);
    } else if s.Match? {
      CaseListed(s, list);
    }
  }

  lemma TryListed(s: Stmt, list: seq<Stmt>)
    requires s.Try?
    ensures list in Bodies(s) <==> ChildList(s, list)
    ensures list in CompoundLists(s) <==> ChildList(s, list)
  {
    var bodies := seq(|s.handlers|, i requires 0 <= i < |s.handlers| => s.handlers[i].body);
    assert Bodies(s) == [s.body, s.orelse, s.finalbody] + bodies;
    assert CompoundLists(s) == [s.body] + bodies + [s.orelse, s.finalbody];
    if h :| h in s.handlers && list == h.body {
      var i :| 0 <= i < |s.handlers| && s.handlers[i] == h;
      assert bodies[i] == list;
    }
    if list in bodies {
      var i :| 0 <= i < |bodies| && bodies[i] == list;
      assert s.handlers[i] in s.handlers;
    }
  }

  lemma CaseListed(s: Stmt, list: seq<Stmt>)
    requires s.Match?
    ensures list in Bodies(s) <==> ChildList(s, list)
  {
    var bodies := Bodies(s);
    if c :| c in s.cases && list == c.body {
      var i :| 0 <= i < |s.cases| && s.cases[i] == c;
      assert bodies[i] == list;
    }
    if list in bodies {
      var i :| 0 <= i < |bodies| && bodies[i] == list;
      assert s.cases[i] in s.cases;
    }
  }
}
