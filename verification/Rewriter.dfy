/**
 The assert rewriter as a tree transformation (`src/assert_rewriter.rs`).

 `RewriteBody` is the recursive flat-map the pass is meant to be; `BodyRewriter.dfy` holds
 the in-place index loop that has to agree with it.
 */
module Rewriter {
  import opened Options
  import opened PyAst

  const TEMP_LEFT := "_oxitest_l"
  const TEMP_RIGHT := "_oxitest_r"
  const TEMP_VALUE := "_oxitest_v"
  const ERROR_CLASS := "_OxitestAssertionError"
  const NO_RHS := "_oxitest_no_rhs"

  // The names the rewritten code assigns, and the two the loader injects into the module.
  const TEMPS: set<string> := {TEMP_LEFT, TEMP_RIGHT, TEMP_VALUE}
  const INJECTED: set<string> := {ERROR_CLASS, NO_RHS}
  const RESERVED: set<string> := TEMPS + INJECTED

  const OPERATORS: map<string, string> :=
    map["Eq" := "==", "NotEq" := "!=", "Lt" := "<", "LtE" := "<=", "Gt" := ">", "GtE" := ">=",
        "Is" := "is", "IsNot" := "is not", "In" := "in", "NotIn" := "not in"]

  function OpStr(op: string): Option<string> {
    if op in OPERATORS then Some(OPERATORS[op]) else None
  }

  function MsgExpr(msg: Option<Expr>): Expr {
    if msg.Some? then msg.value else Constant(LitStr(""))
  }

  // `_OxitestAssertionError(left, right, op, msg)`
  function ErrorCall(left: string, right: string, op: string, msg: Option<Expr>): Expr {
    Call(Name(ERROR_CLASS), [Name(left), Name(right), Constant(LitStr(op)), MsgExpr(msg)])
  }

  function IfNotRaise(test: Expr, left: string, right: string, op: string, msg: Option<Expr>): Stmt {
    If(Not(test), [Raise(ErrorCall(left, right, op, msg))], [])
  }

  function RewriteCompare(left: Expr, op: string, right: Expr, opString: string, msg: Option<Expr>): seq<Stmt> {
    [Assign(Name(TEMP_LEFT), left),
     Assign(Name(TEMP_RIGHT), right),
     IfNotRaise(Compare(Name(TEMP_LEFT), [op], [Name(TEMP_RIGHT)]), TEMP_LEFT, TEMP_RIGHT, opString, msg)]
  }

  function RewriteValue(test: Expr, msg: Option<Expr>): seq<Stmt> {
    [Assign(Name(TEMP_VALUE), test),
     IfNotRaise(Name(TEMP_VALUE), TEMP_VALUE, NO_RHS, "", msg)]
  }

  // `None` leaves the assert as it is: a `BoolOp`, a chained comparison, an unknown operator.
  function RewriteAssert(test: Expr, msg: Option<Expr>): Option<seq<Stmt>> {
    match test
    case Compare(left, ops, comparators) =>
      if |comparators| != 1 || |ops| == 0 then None
      else
        var opString := OpStr(ops[0]);
        if opString.None? then None
        else Some(RewriteCompare(left, ops[0], comparators[0], opString.value, msg))
    case BoolOp(_, _) => None
    case _ => Some(RewriteValue(test, msg))
  }

  predicate Eligible(s: Stmt) {
    s.Assert? && RewriteAssert(s.test, s.msg).Some?
  }

  // ── Which asserts are rewritten, and into what ────────────────────────────────────────

  /** The comparison operators by the names of their nodes, and how they are written. */
  ghost predicate Spelt(op: string, text: string) {
    || (op == "Eq" && text == "==")
    || (op == "NotEq" && text == "!=")
    || (op == "Lt" && text == "<")
    || (op == "LtE" && text == "<=")
    || (op == "Gt" && text == ">")
    || (op == "GtE" && text == ">=")
    || (op == "Is" && text == "is")
    || (op == "IsNot" && text == "is not")
    || (op == "In" && text == "in")
    || (op == "NotIn" && text == "not in")
  }

  predicate Comparison(op: string) {
    op in {"Eq", "NotEq", "Lt", "LtE", "Gt", "GtE", "Is", "IsNot", "In", "NotIn"}
  }

  /** An assert that is left alone: of a `BoolOp`, or of a comparison that is chained, has no
      operator or has one that is not of the language. */
  predicate Declined(s: Stmt) {
    s.Assert? ==>
      || s.test.BoolOp?
      || (s.test.Compare? && (|s.test.comparators| != 1 || s.test.ops == [] || !Comparison(s.test.ops[0])))
  }

  lemma OperatorTable(op: string, text: string)
    ensures OpStr(op) == Some(text) <==> Spelt(op, text)
    ensures OpStr(op).Some? <==> Comparison(op)
  {
    assert "Eq"[0] == 'E' && "Lt"[0] == 'L' && "Gt"[0] == 'G' && "Is"[1] == 's' && "In"[1] == 'n' && "Is"[0] == "In"[0] == 'I';
    assert "LtE"[0] == 'L' && "GtE"[0] == 'G';
    assert "NotEq"[3] == 'E' && "NotIn"[3] == 'I' && "IsNot"[0] == 'I' && "NotEq"[0] == "NotIn"[0] == 'N';
  }

  lemma DeclinedIff(s: Stmt)
    ensures Declined(s) <==> !Eligible(s)
  {
    if s.Assert? && s.test.Compare? && s.test.ops != [] {
      OperatorTable(s.test.ops[0], "");
    }
  }

  function MessageOr(msg: Option<Expr>): Expr {
    if msg.None? then Constant(LitStr("")) else msg.value
  }

  /** What becomes of an assert: a declined one stays; a comparison becomes two assignments and a
      check, anything else one assignment and a check, either raising the runner's own error with
      the operands, the operator as it is written and the message. */
  ghost predicate Becomes(s: Stmt, out: seq<Stmt>)
    requires s.Assert?
  {
    if Declined(s) then out == [s]
    else if s.test.Compare? then
      exists text :: Spelt(s.test.ops[0], text) && out == [
        Assign(Name("_oxitest_l"), s.test.left),
        Assign(Name("_oxitest_r"), s.test.comparators[0]),
        If(Not(Compare(Name("_oxitest_l"), [s.test.ops[0]], [Name("_oxitest_r")])),
           [Raise(Call(Name("_OxitestAssertionError"),
                       [Name("_oxitest_l"), Name("_oxitest_r"), Constant(LitStr(text)), MessageOr(s.msg)]))],
           [])]
    else
      out == [
        Assign(Name("_oxitest_v"), s.test),
        If(Not(Name("_oxitest_v")),
           [Raise(Call(Name("_OxitestAssertionError"),
                       [Name("_oxitest_v"), Name("_oxitest_no_rhs"), Constant(LitStr("")), MessageOr(s.msg)]))],
           [])]
  }

  /** Every assert, by its own form alone. */
  lemma AssertBecomes(s: Stmt)
    requires s.Assert?
    ensures Becomes(s, RewriteStmt(s))
    ensures RewriteStmt(s) == [s] <==> Declined(s)
  {
    DeclinedIff(s);
    if s.test.Compare? && !Declined(s) {
      OperatorTable(s.test.ops[0], OpStr(s.test.ops[0]).value);
    }
    if !Declined(s) {
      assert |RewriteStmt(s)| > 1;
    }
  }

  // ── The flat-map ──────────────────────────────────────────────────────────────────────

  function RewriteStmt(s: Stmt): seq<Stmt>
    decreases s, 1
  {
    if s.Assert? then
      var r := RewriteAssert(s.test, s.msg);
      if r.Some? then r.value else [s]
    else
      [RewriteChildren(s)]
  }

  function RewriteChildren(s: Stmt): Stmt
    decreases s, 0, 1
  {
    WithBodies(s, RewriteBodies(s))
  }

  function RewriteBodies(s: Stmt): (r: seq<seq<Stmt>>)
    ensures |r| == |Bodies(s)|
    ensures forall i | 0 <= i < |r| :: r[i] == RewriteBody(Bodies(s)[i])
    decreases s, 0, 0
  {
    seq(|Bodies(s)|, i requires 0 <= i < |Bodies(s)| => RewriteBody(Bodies(s)[i]))
  }

  function RewriteBody(body: seq<Stmt>): seq<Stmt>
    decreases body
  {
    if body == [] then [] else RewriteStmt(body[0]) + RewriteBody(body[1..])
  }

  lemma {:induction false} RewriteBodyConcat(a: seq<Stmt>, b: seq<Stmt>)
    ensures RewriteBody(a + b) == RewriteBody(a) + RewriteBody(b)
  {
    if a == [] {
      assert a + b == b;
    } else {
      assert (a + b)[1..] == a[1..] + b;
      RewriteBodyConcat(a[1..], b);
    }
  }

  // ── What is left behind ───────────────────────────────────────────────────────────────

  function Flatten<T>(xss: seq<seq<T>>): seq<T> {
    if xss == [] then [] else xss[0] + Flatten(xss[1..])
  }

  lemma {:induction false} FlattenSnoc<T>(xss: seq<seq<T>>, k: nat)
    requires k < |xss|
    ensures Flatten(xss[..k + 1]) == Flatten(xss[..k]) + xss[k]
  {
    if k == 0 {
      assert xss[..1] == [xss[0]];
    } else {
      assert xss[..k + 1][1..] == xss[1..][..k] && xss[..k][1..] == xss[1..][..k - 1];
      FlattenSnoc(xss[1..], k - 1);
    }
  }

  // Every assert of a tree, in walk order.
  function AssertsOf(s: Stmt): seq<Stmt>
    decreases s, 1
  {
    if s.Assert? then [s] else Flatten(AssertLists(s))
  }

  function AssertLists(s: Stmt): (r: seq<seq<Stmt>>)
    ensures |r| == |Bodies(s)|
    ensures forall i | 0 <= i < |r| :: r[i] == AssertsIn(Bodies(s)[i])
    decreases s, 0
  {
    seq(|Bodies(s)|, i requires 0 <= i < |Bodies(s)| => AssertsIn(Bodies(s)[i]))
  }

  function AssertsIn(body: seq<Stmt>): seq<Stmt>
    decreases body
  {
    if body == [] then [] else AssertsOf(body[0]) + AssertsIn(body[1..])
  }

  function IfDeclined(a: Stmt): seq<Stmt> {
    if Declined(a) then [a] else []
  }

  // Those the pass declines.
  function Ineligible(asserts: seq<Stmt>): seq<Stmt> {
    if asserts == [] then [] else IfDeclined(asserts[0]) + Ineligible(asserts[1..])
  }

  lemma {:induction false} IneligibleConcat(a: seq<Stmt>, b: seq<Stmt>)
    ensures Ineligible(a + b) == Ineligible(a) + Ineligible(b)
  {
    if a == [] {
      assert a + b == b;
    } else {
      var first := IfDeclined(a[0]);
      assert (a + b)[1..] == a[1..] + b && (a + b)[0] == a[0];
      IneligibleConcat(a[1..], b);
      assert Ineligible(a + b) == first + (Ineligible(a[1..]) + Ineligible(b)) == (first + Ineligible(a[1..])) + Ineligible(b);
    }
  }

  lemma {:induction false} IneligibleFlatten(xss: seq<seq<Stmt>>, yss: seq<seq<Stmt>>)
    requires |xss| == |yss|
    requires forall i | 0 <= i < |xss| :: yss[i] == Ineligible(xss[i])
    ensures Flatten(yss) == Ineligible(Flatten(xss))
  {
    if xss == [] {
    } else {
      IneligibleFlatten(xss[1..], yss[1..]);
      IneligibleConcat(xss[0], Flatten(xss[1..]));
    }
  }

  lemma {:induction false} AssertsInConcat(a: seq<Stmt>, b: seq<Stmt>)
    ensures AssertsIn(a + b) == AssertsIn(a) + AssertsIn(b)
  {
    if a == [] {
      assert a + b == b;
    } else {
      assert (a + b)[1..] == a[1..] + b;
      AssertsInConcat(a[1..], b);
    }
  }

  lemma AssertsInSingle(s: Stmt)
    ensures AssertsIn([s]) == AssertsOf(s)
  {
  }

  /** Exactly the asserts the pass declines survive it, in the same order and at every depth. */
  lemma {:induction false} RewriteLeavesOnlyIneligible(body: seq<Stmt>)
    ensures AssertsIn(RewriteBody(body)) == Ineligible(AssertsIn(body))
    decreases body
  {
    if body == [] {
    } else {
      LeavesStmt(body[0]);
      RewriteLeavesOnlyIneligible(body[1..]);
      AssertsInConcat(RewriteStmt(body[0]), RewriteBody(body[1..]));
      IneligibleConcat(AssertsOf(body[0]), AssertsIn(body[1..]));
    }
  }

  lemma {:induction false} LeavesStmt(s: Stmt)
    ensures AssertsIn(RewriteStmt(s)) == Ineligible(AssertsOf(s))
    decreases s, 1
  {
    if s.Assert? {
      DeclinedIff(s);
      if Eligible(s) {
        AssertsOfGenerated(s);
      } else {
        AssertsInSingle(s);
      }
    } else {
      AssertsInSingle(RewriteChildren(s));
      var xss, yss := AssertLists(s), AssertLists(RewriteChildren(s));
      forall i | 0 <= i < |xss| ensures yss[i] == Ineligible(xss[i]) {
        RewriteLeavesOnlyIneligible(Bodies(s)[i]);
      }
      IneligibleFlatten(xss, yss);
    }
  }

  lemma AssertsOfGenerated(s: Stmt)
    requires Eligible(s)
    ensures AssertsIn(RewriteAssert(s.test, s.msg).value) == []
  {
    var r := RewriteAssert(s.test, s.msg).value;
    GeneratedShape(r[|r| - 1]);
    NoAsserts(r);
  }

  // The generated check holds no assert.
  lemma GeneratedShape(s: Stmt)
    requires s.If? && s.orelse == [] && |s.body| == 1 && s.body[0].Raise?
    ensures forall i | 0 <= i < |Bodies(s)| :: AssertsIn(Bodies(s)[i]) == []
  {
    NoAsserts(s.body);
    assert AssertsIn(s.orelse) == [];
  }

  // A list whose members hold no assert, directly or in a child list, holds none.
  lemma {:induction false} NoAsserts(body: seq<Stmt>)
    requires forall s | s in body :: !s.Assert? && forall i | 0 <= i < |Bodies(s)| :: AssertsIn(Bodies(s)[i]) == []
    ensures AssertsIn(body) == []
  {
    if body == [] {
    } else {
      FlattenEmpty(AssertLists(body[0]));
      NoAsserts(body[1..]);
    }
  }

  lemma {:induction false} FlattenEmpty<T>(xss: seq<seq<T>>)
    requires forall i | 0 <= i < |xss| :: xss[i] == []
    ensures Flatten(xss) == []
  {
    if xss == [] {
    } else {
      FlattenEmpty(xss[1..]);
    }
  }

  // ── Idempotence ───────────────────────────────────────────────────────────────────────

  lemma {:induction false} FlattenMember<T>(xss: seq<seq<T>>, i: nat, x: T)
    requires i < |xss| && x in xss[i]
    ensures x in Flatten(xss)
  {
    if i == 0 {
    } else {
      FlattenMember(xss[1..], i - 1, x);
    }
  }

  /** A tree whose every assert is one the pass declines is left unchanged. */
  lemma {:induction false} RewriteFixesIneligible(body: seq<Stmt>)
    requires forall a | a in AssertsIn(body) :: Declined(a)
    ensures RewriteBody(body) == body
    decreases body
  {
    if body == [] {
    } else {
      var s := body[0];
      RewriteFixesIneligible(body[1..]);
      assert body == [s] + body[1..];
      if s.Assert? {
        assert AssertsOf(s) == [s];
        assert s in AssertsIn(body);
        DeclinedIff(s);
        assert RewriteStmt(s) == [s];
      } else {
        forall i | 0 <= i < |Bodies(s)| ensures RewriteBody(Bodies(s)[i]) == Bodies(s)[i] {
          forall a | a in AssertsIn(Bodies(s)[i]) ensures Declined(a) {
            FlattenMember(AssertLists(s), i, a);
          }
          RewriteFixesIneligible(Bodies(s)[i]);
        }
        assert RewriteBodies(s) == Bodies(s);
        assert RewriteStmt(s) == [s];
      }
    }
  }

  /** Rewriting a rewritten tree changes nothing. */
  lemma RewriteIdempotent(body: seq<Stmt>)
    ensures RewriteBody(RewriteBody(body)) == RewriteBody(body)
  {
    RewriteLeavesOnlyIneligible(body);
    forall a | a in AssertsIn(RewriteBody(body)) ensures Declined(a) {
      IneligibleExactly(AssertsIn(body), a);
    }
    RewriteFixesIneligible(RewriteBody(body));
  }

  // ── Asserts by where they stand ───────────────────────────────────────────────────────

  /** `a` is a statement of the list, or stands at some depth inside one. */
  ghost predicate StandsIn(a: Stmt, body: seq<Stmt>)
    decreases body
  {
    exists s | s in body :: a == s || exists list | list in Bodies(s) :: ChildList(s, list) && StandsIn(a, list)
  }

  lemma {:induction false} FlattenMembers<T(!new)>(xss: seq<seq<T>>, x: T)
    ensures x in Flatten(xss) <==> exists i | 0 <= i < |xss| :: x in xss[i]
  {
    if xss == [] {
    } else {
      FlattenMembers(xss[1..], x);
      if i :| 0 <= i < |xss| - 1 && x in xss[1..][i] {
        assert x in xss[i + 1];
      }
      if i :| 0 <= i < |xss| && x in xss[i] {
        assert i > 0 ==> x in xss[1..][i - 1];
      }
    }
  }

  lemma {:induction false} AssertsStand(body: seq<Stmt>, a: Stmt)
    ensures a in AssertsIn(body) <==> a.Assert? && StandsIn(a, body)
    decreases body, 1
  {
    if body == [] {
    } else {
      AssertsStandHere(body[0], a);
      AssertsStand(body[1..], a);
      assert forall s :: s in body <==> s == body[0] || s in body[1..];
    }
  }

  lemma {:induction false} AssertsStandHere(s: Stmt, a: Stmt)
    ensures a in AssertsOf(s) <==> a.Assert? && (a == s || exists list | list in Bodies(s) :: ChildList(s, list) && StandsIn(a, list))
    decreases s, 0
  {
    if s.Assert? {
    } else {
      FlattenMembers(AssertLists(s), a);
      forall i | 0 <= i < |Bodies(s)|
        ensures a in AssertLists(s)[i] <==> a.Assert? && ChildList(s, Bodies(s)[i]) && StandsIn(a, Bodies(s)[i])
      {
        ListsAreChildren(s, Bodies(s)[i]);
        AssertsStand(Bodies(s)[i], a);
      }
    }
  }

  /** In a rewritten program stand, at any depth, exactly the asserts that stood in the original
      and are declined. */
  lemma SurvivorsAreDeclined(body: seq<Stmt>, a: Stmt)
    requires a.Assert?
    ensures StandsIn(a, RewriteBody(body)) <==> StandsIn(a, body) && Declined(a)
  {
    RewriteLeavesOnlyIneligible(body);
    AssertsStand(body, a);
    AssertsStand(RewriteBody(body), a);
    IneligibleExactly(AssertsIn(body), a);
  }

  lemma {:induction false} IneligibleExactly(asserts: seq<Stmt>, a: Stmt)
    ensures a in Ineligible(asserts) <==> a in asserts && Declined(a)
  {
    if asserts == [] {
    } else {
      IneligibleExactly(asserts[1..], a);
      assert asserts == [asserts[0]] + asserts[1..];
    }
  }
}
