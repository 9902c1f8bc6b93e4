/**
 The edit distance behind "did you mean" hints (`src/edit_distance.rs`): a two-row table with
 a greedy branch for equal characters, against the length of a shortest edit script.
 */
module EditDistance {
  import opened Options

  // ── Edit scripts ──────────────────────────────────────────────────────────────────────

  datatype Edit = Keep | Insert(c: char) | Delete | Substitute(c: char)

  // `script` turns `a` into `b`, one edit per position.
  ghost predicate Turns(script: seq<Edit>, a: string, b: string) {
    if script == [] then a == [] && b == []
    else
      var n, rest := |script| - 1, script[..|script| - 1];
      match script[n]
      case Keep => a != [] && b != [] && Last(a) == Last(b) && Turns(rest, Init(a), Init(b))
      case Insert(c) => b != [] && Last(b) == c && Turns(rest, a, Init(b))
      case Delete => a != [] && Turns(rest, Init(a), b)
      case Substitute(c) => a != [] && b != [] && Last(b) == c && Turns(rest, Init(a), Init(b))
  }

  function Cost(script: seq<Edit>): nat {
    if script == [] then 0
    else Cost(script[..|script| - 1]) + if script[|script| - 1].Keep? then 0 else 1
  }

  function Init(s: string): string
    requires s != []
  {
    s[..|s| - 1]
  }

  function Last(s: string): char
    requires s != []
  {
    s[|s| - 1]
  }

  // ── The distance ──────────────────────────────────────────────────────────────────────

  function Min(x: nat, y: nat): nat {
    if x <= y then x else y
  }

  function Dist(a: string, b: string): nat
    decreases |a| + |b|
  {
    if a == [] then |b|
    else if b == [] then |a|
    else
      Min(Dist(Init(a), Init(b)) + (if Last(a) == Last(b) then 0 else 1),
          1 + Min(Dist(Init(a), b), Dist(a, Init(b))))
  }

  lemma {:induction false} SomeScript(a: string, b: string) returns (script: seq<Edit>)
    ensures Turns(script, a, b) && Cost(script) == Dist(a, b)
    decreases |a| + |b|
  {
    if a == [] && b == [] {
      return [];
    }
    var rest, edit;
    if a == [] || (b != [] && Dist(a, b) == 1 + Dist(a, Init(b))) {
      rest := SomeScript(a, Init(b));
      edit := Insert(Last(b));
    } else if b == [] || Dist(a, b) == 1 + Dist(Init(a), b) {
      rest := SomeScript(Init(a), b);
      edit := Delete;
    } else {
      rest := SomeScript(Init(a), Init(b));
      edit := if Last(a) == Last(b) then Keep else Substitute(Last(b));
    }
    script := rest + [edit];
    assert script[..|script| - 1] == rest;
  }

  lemma {:induction false} NoCheaperScript(script: seq<Edit>, a: string, b: string)
    requires Turns(script, a, b)
    ensures Dist(a, b) <= Cost(script)
    decreases script
  {
    if script == [] {
    } else {
      var rest := script[..|script| - 1];
      match script[|script| - 1]
      case Keep => NoCheaperScript(rest, Init(a), Init(b));
      case Insert(c) => NoCheaperScript(rest, a, Init(b));
      case Delete => NoCheaperScript(rest, Init(a), b);
      case Substitute(c) => NoCheaperScript(rest, Init(a), Init(b));
    }
  }

  // ── A metric ──────────────────────────────────────────────────────────────────────────

  lemma {:induction false} Symmetric(a: string, b: string)
    ensures Dist(a, b) == Dist(b, a)
    decreases |a| + |b|
  {
    if a != [] && b != [] {
      Symmetric(Init(a), Init(b));
      Symmetric(Init(a), b);
      Symmetric(a, Init(b));
    }
  }

  lemma {:induction false} ZeroIffEqual(a: string, b: string)
    ensures Dist(a, b) == 0 <==> a == b
    decreases |a| + |b|
  {
    if a != [] && b != [] {
      ZeroIffEqual(Init(a), Init(b));
      assert a == Init(a) + [Last(a)] && b == Init(b) + [Last(b)];
    }
  }

  lemma {:induction false} LengthGap(a: string, b: string)
    ensures |b| <= |a| + Dist(a, b)
    ensures Dist(a, b) <= |a| + |b|
    decreases |a| + |b|
  {
    if a != [] && b != [] {
      LengthGap(Init(a), Init(b));
      LengthGap(Init(a), b);
      LengthGap(a, Init(b));
    }
  }

  lemma {:induction false} Triangle(a: string, b: string, c: string)
    ensures Dist(a, c) <= Dist(a, b) + Dist(b, c)
    decreases |a| + |b| + |c|
  {
    LengthGap(b, c);
    LengthGap(b, a);
    LengthGap(a, c);
    Symmetric(a, b);
    if a != [] && b != [] && c != [] {
      if Dist(a, b) == 1 + Dist(Init(a), b) {
        Triangle(Init(a), b, c);
      } else if Dist(b, c) == 1 + Dist(b, Init(c)) {
        Triangle(a, b, Init(c));
      } else if Dist(a, b) == 1 + Dist(a, Init(b)) {
        if Dist(b, c) == 1 + Dist(Init(b), c) {
          Triangle(a, Init(b), c);
        } else {
          Triangle(a, Init(b), Init(c));
        }
      } else if Dist(b, c) == 1 + Dist(Init(b), c) {
        Triangle(Init(a), Init(b), c);
      } else {
        Triangle(Init(a), Init(b), Init(c));
      }
    }
  }

  // ── The greedy branch ─────────────────────────────────────────────────────────────────

  // Neighbouring cells of the table differ by at most one.
  lemma {:induction false} Neighbours(a: string, b: string)
    requires b != []
    ensures Dist(a, b) <= Dist(a, Init(b)) + 1
    ensures Dist(a, Init(b)) <= Dist(a, b) + 1
    decreases |a| + |b|
  {
    if a == [] {
    } else {
      Neighbours(Init(a), b);
      if Init(b) != [] {
        Neighbours(a, Init(b));
        Neighbours(Init(a), Init(b));
      }
    }
  }

  /** Equal last characters are always worth keeping, which is the loop's greedy branch. */
  lemma GreedyKeeps(a: string, b: string)
    requires a != [] && b != [] && Last(a) == Last(b)
    ensures Dist(a, b) == Dist(Init(a), Init(b))
  {
    Neighbours(Init(a), b);
    Symmetric(a, Init(b));
    Symmetric(Init(a), Init(b));
    Neighbours(Init(b), a);
  }

  // ── The two-row loop ──────────────────────────────────────────────────────────────────

  ghost predicate Row(row: seq<nat>, a: string, b: string) {
    |row| == |a| + 1 && forall i | 0 <= i <= |a| :: row[i] == Dist(a[..i], b)
  }

  lemma FirstRow(row: seq<nat>, a: string, b: string)
    requires |row| == |a| + 1 && forall i | 0 <= i <= |a| :: row[i] == i
    ensures Row(row, a, b[..0])
  {
    forall i | 0 <= i <= |a| ensures row[i] == Dist(a[..i], b[..0]) {
      assert b[..0] == [];
    }
  }

  // One cell, from its three neighbours.
  lemma Cell(a: string, b: string, i: nat, j: nat)
    requires 1 <= i <= |a| && 1 <= j <= |b|
    ensures Dist(a[..i], b[..j])
         == if a[i - 1] == b[j - 1] then Dist(a[..i - 1], b[..j - 1])
            else 1 + Min(Min(Dist(a[..i - 1], b[..j - 1]), Dist(a[..i], b[..j - 1])), Dist(a[..i - 1], b[..j]))
  {
    var u, v := a[..i], b[..j];
    assert Init(u) == a[..i - 1] && Init(v) == b[..j - 1] && Last(u) == a[i - 1] && Last(v) == b[j - 1];
    if a[i - 1] == b[j - 1] {
      GreedyKeeps(u, v);
    }
  }

  method FillRow(a: string, b: string, j: nat, prev: array<nat>, curr: array<nat>)
    requires 1 <= j <= |b| && prev != curr && curr.Length == |a| + 1
    requires Row(prev[..], a, b[..j - 1])
    modifies curr
    ensures Row(curr[..], a, b[..j])
  {
    curr[0] := j;
    for i := 1 to |a| + 1
      invariant forall k | 0 <= k < i :: curr[k] == Dist(a[..k], b[..j])
      invariant prev[..] == old(prev[..])
    {
      Cell(a, b, i, j);
      assert prev[..][i - 1] == Dist(a[..i - 1], b[..j - 1]) && prev[..][i] == Dist(a[..i], b[..j - 1]);
      if a[i - 1] == b[j - 1] {
        curr[i] := prev[i - 1];
      } else {
        curr[i] := 1 + Min(Min(prev[i - 1], prev[i]), curr[i - 1]);
      }
    }
  }

  /** The table's last cell is the distance, whichever argument is the shorter. */
  method ComputeEditDistance(s: string, t: string) returns (d: nat)
    ensures d == Dist(s, t)
  {
    var a, b := s, t;
    if |s| > |t| {
      a, b := t, s;
    }
    Symmetric(s, t);
    var m, n := |a|, |b|;
    var prev := new nat[m + 1](i => i);
    var curr := new nat[m + 1](_ => 0);
    FirstRow(prev[..], a, b);
    for j := 1 to n + 1
      invariant fresh(prev) && fresh(curr) && prev != curr && prev.Length == curr.Length == m + 1
      invariant Row(prev[..], a, b[..j - 1])
    {
      FillRow(a, b, j, prev, curr);
      prev, curr := curr, prev;
    }
    assert b[..n] == b && a[..m] == a;
    d := prev[m];
    assert prev[..][m] == Dist(a[..m], b[..n]);
  }

  /** What the distance means: it is the cost of some script from `s` to `t`, and no script is
      cheaper. */
  lemma DistIsShortest(s: string, t: string)
    ensures exists script :: Turns(script, s, t) && Cost(script) == Dist(s, t)
    ensures forall script | Turns(script, s, t) :: Dist(s, t) <= Cost(script)
  {
    var script := SomeScript(s, t);
    forall other | Turns(other, s, t) ensures Dist(s, t) <= Cost(other) {
      NoCheaperScript(other, s, t);
    }
  }

  // ── The closest candidate ─────────────────────────────────────────────────────────────

  /** The first candidate at the least distance within the bound, or none if all are too far. */
  method ClosestMatch(name: string, candidates: seq<string>, maxDistance: nat) returns (best: Option<string>)
    ensures best.None? <==> forall i | 0 <= i < |candidates| :: Dist(name, candidates[i]) > maxDistance
    ensures best.Some? ==> exists k | 0 <= k < |candidates| ::
      && candidates[k] == best.value && Dist(name, candidates[k]) <= maxDistance
      && (forall i | 0 <= i < |candidates| :: Dist(name, candidates[k]) <= Dist(name, candidates[i]))
      && (forall i | 0 <= i < k :: Dist(name, candidates[k]) < Dist(name, candidates[i]))
  {
    best := None;
    var bestD := 0;
    ghost var k := 0;
    for j := 0 to |candidates|
      invariant best.None? <==> forall i | 0 <= i < j :: Dist(name, candidates[i]) > maxDistance
      invariant best.Some? ==>
        && k < j && candidates[k] == best.value && bestD == Dist(name, candidates[k]) <= maxDistance
        && (forall i | 0 <= i < j :: bestD <= Dist(name, candidates[i]))
        && (forall i | 0 <= i < k :: bestD < Dist(name, candidates[i]))
    {
      var d := ComputeEditDistance(name, candidates[j]);
      if d <= maxDistance {
        if best.None? || d < bestD {
          best, bestD, k := Some(candidates[j]), d, j;
        }
      }
    }
  }
}
