/**
 Byte offsets and line numbers (`build_line_index`, `offset_to_line` in `src/python_ast.rs`).
 */
module LineIndex {

  type Byte = n: nat | n < 256

  const NEWLINE: Byte := 10

  // Lines are numbered in 32 bits; the parser's own offsets are 32-bit too.
  const U32: nat := 0x1_0000_0000

  function Newlines(source: seq<Byte>): nat {
    if source == [] then 0
    else Newlines(source[..|source| - 1]) + if source[|source| - 1] == 10 then 1 else 0
  }

  /** The 1-based line an offset lies on: one more than the newlines before it. */
  function LineOf(source: seq<Byte>, offset: nat): nat {
    1 + Newlines(source[..if offset < |source| then offset else |source|])
  }

  // Where each line of `source` starts.
  function Starts(source: seq<Byte>): seq<nat> {
    if source == [] then [0]
    else Starts(source[..|source| - 1]) + if source[|source| - 1] == NEWLINE then [|source|] else []
  }

  ghost predicate Increasing(a: seq<nat>) {
    forall i, j | 0 <= i < j < |a| :: a[i] < a[j]
  }

  lemma {:induction false} StartsShape(source: seq<Byte>)
    ensures |Starts(source)| == 1 + Newlines(source)
    ensures Increasing(Starts(source))
    ensures forall i | 0 <= i < |Starts(source)| :: Starts(source)[i] <= |source|
  {
    if source == [] {
    } else {
      StartsShape(source[..|source| - 1]);
    }
  }

  // The lines begun by `n` come first, and every later line starts after it.
  lemma {:induction false} StartsPrefix(source: seq<Byte>, n: nat)
    requires n <= |source|
    ensures Starts(source[..n]) <= Starts(source)
    ensures forall i | |Starts(source[..n])| <= i < |Starts(source)| :: n < Starts(source)[i]
  {
    if n == |source| {
      assert source[..n] == source;
    } else {
      var shorter := source[..|source| - 1];
      assert shorter[..n] == source[..n];
      StartsPrefix(shorter, n);
    }
  }

  method BuildLineIndex(source: seq<Byte>) returns (newlines: seq<nat>)
    requires |source| < U32 - 1
    ensures newlines == Starts(source)
    ensures Increasing(newlines) && |newlines| < U32
  {
    newlines := [0];
    for i := 0 to |source|
      invariant newlines == Starts(source[..i])
    {
      assert source[..i + 1][..i] == source[..i];
      if source[i] == NEWLINE {
        newlines := newlines + [i + 1];
      }
    }
    assert source[..|source|] == source;
    StartsShape(source);
    NewlinesBounded(source);
  }

  method BinarySearch(a: seq<nat>, key: nat) returns (found: bool, at: nat)
    requires Increasing(a)
    ensures found ==> at < |a| && a[at] == key
    ensures !found ==> at <= |a| && (forall i | 0 <= i < at :: a[i] < key) && (forall i | at <= i < |a| :: key < a[i])
  {
    var lo, hi := 0, |a|;
    while lo < hi
      invariant 0 <= lo <= hi <= |a|
      invariant forall i | 0 <= i < lo :: a[i] < key
      invariant forall i | hi <= i < |a| :: key < a[i]
    {
      var mid := lo + (hi - lo) / 2;
      if a[mid] == key {
        return true, mid;
      } else if a[mid] < key {
        lo := mid + 1;
      } else {
        hi := mid;
      }
    }
    return false, lo;
  }

  // The number of lines of an index begun by `offset`.
  function LineAt(index: seq<nat>, offset: nat): nat {
    if index == [] then 0
    else if index[|index| - 1] <= offset then |index|
    else LineAt(index[..|index| - 1], offset)
  }

  lemma {:induction false} LineAtCounts(index: seq<nat>, offset: nat, k: nat)
    requires k <= |index|
    requires forall i | 0 <= i < k :: index[i] <= offset
    requires forall i | k <= i < |index| :: offset < index[i]
    ensures LineAt(index, offset) == k
  {
    if k < |index| {
      LineAtCounts(index[..|index| - 1], offset, k);
    }
  }

  // The lookup for a file: a 32-bit cast of the position the search stopped at.
  method OffsetToLine(index: seq<nat>, offset: nat) returns (line: nat)
    requires Increasing(index) && |index| < U32
    ensures line == LineAt(index, offset)
  {
    var found, i := BinarySearch(index, offset);
    line := if found then (i % U32) + 1 else i % U32;
    LineAtCounts(index, offset, line);
  }

  /** Looking an offset up in a file's index gives the line it lies on. */
  lemma LineAtStarts(source: seq<Byte>, offset: nat)
    ensures LineAt(Starts(source), offset) == LineOf(source, offset)
  {
    var n := if offset < |source| then offset else |source|;
    StartsShape(source);
    StartsShape(source[..n]);
    StartsPrefix(source, n);
    var k := |Starts(source[..n])|;
    assert forall j | 0 <= j < k :: Starts(source)[j] == Starts(source[..n])[j] <= n;
    LineAtCounts(Starts(source), offset, k);
  }

  lemma {:induction false} NewlinesBounded(source: seq<Byte>)
    ensures Newlines(source) <= |source|
  {
    if source == [] {
    } else {
      NewlinesBounded(source[..|source| - 1]);
    }
  }
}
