/**
 The rewriter's in-place walk (`rewrite_body`, `recurse_into_children`, `BareAssertCtx`):
 an index loop that deletes and inserts in the list it is iterating, collecting bare asserts
 under the outermost enclosing function on the way.
 */
module BodyRewriter {
  import opened Options
  import opened PyAst
  import opened Rewriter

  // ── What the walk records ─────────────────────────────────────────────────────────────

  // The name bare asserts are filed under inside `s`, given the one outside it.
  function Outer(outer: Option<string>, s: Stmt): Option<string> {
    if s.FunctionDef? && outer.None? then Some(s.name) else outer
  }

  function RecordsOf(outer: Option<string>, s: Stmt): seq<(string, int)>
    decreases s, 1
  {
    if s.Assert? then
      if s.msg.None? && outer.Some? then [(outer.value, s.lineno)] else []
    else
      Flatten(RecordLists(Outer(outer, s), s))
  }

  function RecordLists(outer: Option<string>, s: Stmt): (r: seq<seq<(string, int)>>)
    ensures |r| == |Bodies(s)|
    ensures forall i | 0 <= i < |r| :: r[i] == RecordsIn(outer, Bodies(s)[i])
    decreases s, 0
  {
    seq(|Bodies(s)|, i requires 0 <= i < |Bodies(s)| => RecordsIn(outer, Bodies(s)[i]))
  }

  function RecordsIn(outer: Option<string>, body: seq<Stmt>): seq<(string, int)>
    decreases body
  {
    if body == [] then [] else RecordsOf(outer, body[0]) + RecordsIn(outer, body[1..])
  }

  function File(byFn: map<string, seq<int>>, records: seq<(string, int)>): map<string, seq<int>>
    decreases records
  {
    if records == [] then byFn
    else
      var (name, line) := records[0];
      File(byFn[name := (if name in byFn then byFn[name] else []) + [line]], records[1..])
  }

  lemma {:induction false} FileConcat(byFn: map<string, seq<int>>, a: seq<(string, int)>, b: seq<(string, int)>)
    ensures File(byFn, a + b) == File(File(byFn, a), b)
    decreases a
  {
    if a == [] {
      assert a + b == b;
    } else {
      assert (a + b)[1..] == a[1..] + b;
      var (name, line) := a[0];
      FileConcat(byFn[name := (if name in byFn then byFn[name] else []) + [line]], a[1..], b);
    }
  }

  lemma {:induction false} RecordsInSnoc(outer: Option<string>, body: seq<Stmt>, k: nat)
    requires k < |body|
    ensures RecordsIn(outer, body[..k + 1]) == RecordsIn(outer, body[..k]) + RecordsOf(outer, body[k])
  {
    if k == 0 {
      assert body[..1] == [body[0]];
    } else {
      assert body[..k + 1][1..] == body[1..][..k] && body[..k][1..] == body[1..][..k - 1];
      RecordsInSnoc(outer, body[1..], k - 1);
    }
  }

  lemma RewriteBodySnoc(body: seq<Stmt>, k: nat)
    requires k < |body|
    ensures RewriteBody(body[..k + 1]) == RewriteBody(body[..k]) + RewriteStmt(body[k])
  {
    assert body[..k + 1] == body[..k] + [body[k]];
    RewriteBodyConcat(body[..k], [body[k]]);
  }

  // ── The mutable state ─────────────────────────────────────────────────────────────────

  class BareAssertCtx {
    var fnStack: seq<string>
    var byFn: map<string, seq<int>>

    constructor ()
      ensures fnStack == [] && byFn == map[]
    {
      fnStack, byFn := [], map[];
    }

    function Outermost(): (r: Option<string>)
      reads this
    {
      if fnStack == [] then None else Some(fnStack[0])
    }

    method Record(lineno: int)
      modifies this`byFn
      ensures byFn == File(old(byFn), if fnStack == [] then [] else [(fnStack[0], lineno)])
    {
      if fnStack != [] {
        var outer := fnStack[0];
        byFn := byFn[outer := (if outer in byFn then byFn[outer] else []) + [lineno]];
      }
    }
  }

  // A Python list of statements, edited through `__delitem__` and `insert`.
  class StmtList {
    var items: seq<Stmt>

    constructor (items: seq<Stmt>)
      ensures this.items == items
    {
      this.items := items;
    }

    method DelItem(i: nat)
      requires i < |items|
      modifies this
      ensures items == old(items[..i] + items[i + 1..])
    {
      items := items[..i] + items[i + 1..];
    }

    method Insert(i: nat, s: Stmt)
      requires i <= |items|
      modifies this
      ensures items == old(items[..i]) + [s] + old(items[i..])
    {
      items := items[..i] + [s] + items[i..];
    }
  }

  // ── The walk ──────────────────────────────────────────────────────────────────────────

  // Swap the statement at `i` for `replacements`.
  method Replace(stmts: StmtList, i: nat, replacements: seq<Stmt>)
    requires i < |stmts.items|
    modifies stmts
    ensures stmts.items == old(stmts.items[..i]) + replacements + old(stmts.items[i + 1..])
  {
    ghost var before, after := stmts.items[..i], stmts.items[i + 1..];
    stmts.DelItem(i);
    assert stmts.items == before + replacements[..0] + after;
    var j := 0;
    while j < |replacements|
      invariant 0 <= j <= |replacements|
      invariant stmts.items == before + replacements[..j] + after
    {
      stmts.Insert(i + j, replacements[j]);
      assert replacements[..j + 1] == replacements[..j] + [replacements[j]];
      j := j + 1;
    }
    assert replacements[..j] == replacements;
  }

  // What the next statement adds to the list and to the records.
  lemma OneMoreStmt(orig: seq<Stmt>, k: nat, outer: Option<string>, byFn: map<string, seq<int>>)
    requires k < |orig|
    ensures RewriteBody(orig[..k + 1]) == RewriteBody(orig[..k]) + RewriteStmt(orig[k])
    ensures File(byFn, RecordsIn(outer, orig[..k + 1])) == File(File(byFn, RecordsIn(outer, orig[..k])), RecordsOf(outer, orig[k]))
  {
    RewriteBodySnoc(orig, k);
    RecordsInSnoc(outer, orig, k);
    FileConcat(byFn, RecordsIn(outer, orig[..k]), RecordsOf(outer, orig[k]));
  }

  // A list rewritten up to statement `k`.
  lemma Midway(done: seq<Stmt>, orig: seq<Stmt>, k: nat)
    requires k < |orig|
    ensures var items := done + orig[k..];
            items[|done|] == orig[k] && items[..|done|] == done && items[|done| + 1..] == orig[k + 1..]
  {
  }

  /** The index loop: it leaves the flat-map rewrite in the list and files every bare assert. */
  method RewriteInPlace(stmts: StmtList, ctx: BareAssertCtx)
    modifies stmts, ctx
    ensures stmts.items == RewriteBody(old(stmts.items))
    ensures ctx.fnStack == old(ctx.fnStack)
    ensures ctx.byFn == File(old(ctx.byFn), RecordsIn(old(ctx.Outermost()), old(stmts.items)))
    decreases stmts.items, 0
  {
    ghost var orig, by0, outer := stmts.items, ctx.byFn, ctx.Outermost();
    ghost var k := 0;
    var i := 0;
    while i < |stmts.items|
      invariant 0 <= k <= |orig| && i == |RewriteBody(orig[..k])|
      invariant stmts.items == RewriteBody(orig[..k]) + orig[k..]
      invariant ctx.fnStack == old(ctx.fnStack)
      invariant ctx.byFn == File(by0, RecordsIn(outer, orig[..k]))
      decreases |orig| - k
    {
      OneMoreStmt(orig, k, outer, by0);
      Midway(RewriteBody(orig[..k]), orig, k);
      i := RewriteAt(stmts, i, ctx);
      k := k + 1;
    }
    assert orig[..k] == orig;
  }

  // One turn of the loop: rewrite the statement at `i` and step past what replaced it.
  method RewriteAt(stmts: StmtList, i: nat, ctx: BareAssertCtx) returns (next: nat)
    requires i < |stmts.items|
    modifies stmts, ctx
    ensures stmts.items == old(stmts.items[..i]) + RewriteStmt(old(stmts.items[i])) + old(stmts.items[i + 1..])
    ensures next == i + |RewriteStmt(old(stmts.items[i]))|
    ensures ctx.fnStack == old(ctx.fnStack)
    ensures ctx.byFn == File(old(ctx.byFn), RecordsOf(old(ctx.Outermost()), old(stmts.items[i])))
    decreases stmts.items[i], 1
  {
    var stmt := stmts.items[i];
    if stmt.Assert? {
      if stmt.msg.None? {
        ctx.Record(stmt.lineno);
      }
      var replacements := RewriteAssert(stmt.test, stmt.msg);
      if replacements.Some? {
        Replace(stmts, i, replacements.value);
        next := i + |replacements.value|;
      } else {
        next := i + 1;
      }
    } else {
      var child := RecurseIntoChildren(stmt, ctx);
      Replace(stmts, i, [child]);
      next := i + 1;
    }
  }

  lemma FiledMore(byFn: map<string, seq<int>>, records: seq<seq<(string, int)>>, b: nat)
    requires b < |records|
    ensures File(File(byFn, Flatten(records[..b])), records[b]) == File(byFn, Flatten(records[..b + 1]))
  {
    FlattenSnoc(records, b);
    FileConcat(byFn, Flatten(records[..b]), records[b]);
  }

  // One child list.
  method RewriteOne(body: seq<Stmt>, ctx: BareAssertCtx) returns (r: seq<Stmt>)
    modifies ctx
    ensures r == RewriteBody(body)
    ensures ctx.fnStack == old(ctx.fnStack)
    ensures ctx.byFn == File(old(ctx.byFn), RecordsIn(old(ctx.Outermost()), body))
    decreases body, 1
  {
    var list := new StmtList(body);
    RewriteInPlace(list, ctx);
    r := list.items;
  }

  // Every child list in turn, under one name stack.
  method RewriteLists(stmt: Stmt, ctx: BareAssertCtx) returns (bs: seq<seq<Stmt>>)
    requires !stmt.Assert?
    modifies ctx
    ensures bs == RewriteBodies(stmt)
    ensures ctx.fnStack == old(ctx.fnStack)
    ensures ctx.byFn == File(old(ctx.byFn), Flatten(RecordLists(old(ctx.Outermost()), stmt)))
    decreases stmt, 0, 0
  {
    ghost var records := RecordLists(ctx.Outermost(), stmt);
    var lists := Bodies(stmt);
    bs := [];
    for b := 0 to |lists|
      invariant |bs| == b
      invariant forall i | 0 <= i < b :: bs[i] == RewriteBody(lists[i])
      invariant ctx.fnStack == old(ctx.fnStack)
      invariant ctx.byFn == File(old(ctx.byFn), Flatten(records[..b]))
    {
      FiledMore(old(ctx.byFn), records, b);
      var r := RewriteOne(lists[b], ctx);
      bs := bs + [r];
    }
    assert records[..|lists|] == records;
  }

  method RecurseIntoChildren(stmt: Stmt, ctx: BareAssertCtx) returns (r: Stmt)
    requires !stmt.Assert?
    modifies ctx
    ensures r == RewriteChildren(stmt)
    ensures ctx.fnStack == old(ctx.fnStack)
    ensures ctx.byFn == File(old(ctx.byFn), RecordsOf(old(ctx.Outermost()), stmt))
    decreases stmt, 0, 1
  {
    if stmt.FunctionDef? {
      ctx.fnStack := ctx.fnStack + [stmt.name];
    }
    assert ctx.Outermost() == Outer(old(ctx.Outermost()), stmt);
    var bs := RewriteLists(stmt, ctx);
    if stmt.FunctionDef? {
      ctx.fnStack := ctx.fnStack[..|ctx.fnStack| - 1];
    }
    r := WithBodies(stmt, bs);
  }
}
