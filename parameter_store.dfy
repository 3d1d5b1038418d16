/**
 * The type-pair coefficient store: an ntypes x ntypes matrix kept in a flat
 * sequence, row-major (cell (t1, t2) at index t1 * ntypes + t2), whose writes
 * go to both mirrored cells.
 */
module ParameterStore {

  lemma MulMonotone(a: nat, b: nat, n: nat)
    requires a <= b
    ensures a * n <= b * n
  {
  }

  lemma CellBound(t1: nat, t2: nat, n: nat)
    requires t1 < n && t2 < n
    ensures t1 * n + t2 < n * n
  {
    MulMonotone(t1 + 1, n, n);
    assert (t1 + 1) * n == t1 * n + n;
  }

  /** The flat index of cell (t1, t2); every in-range cell has an index inside the matrix. */
  function Cell(t1: nat, t2: nat, n: nat): (c: nat)
    requires t1 < n && t2 < n
    ensures c < n * n
  {
    CellBound(t1, t2, n);
    t1 * n + t2
  }

  /** Distinct cells have distinct flat indices. */
  lemma CellInjective(a: nat, b: nat, c: nat, d: nat, n: nat)
    requires a < n && b < n && c < n && d < n
    requires Cell(a, b, n) == Cell(c, d, n)
    ensures a == c && b == d
  {
    if a < c {
      assert (a + 1) * n == a * n + n;
      MulMonotone(a + 1, c, n);
    } else if c < a {
      assert (c + 1) * n == c * n + n;
      MulMonotone(c + 1, a, n);
    }
  }

  /** Cell (a, b) is one of the two cells a write to (t1, t2) goes to. */
  predicate SamePair(a: nat, b: nat, t1: nat, t2: nat) {
    (a == t1 && b == t2) || (a == t2 && b == t1)
  }

  ghost predicate IsSymmetric(m: seq<real>, n: nat)
    requires |m| == n * n
  {
    forall a: nat, b: nat :: a < n && b < n ==> m[Cell(a, b, n)] == m[Cell(b, a, n)]
  }

  /** The zero-initialised matrix the store starts from. */
  function Zeros(n: nat): (m: seq<real>)
    ensures |m| == n * n
    ensures forall c :: 0 <= c < n * n ==> m[c] == 0.0
  {
    seq(n * n, _ => 0.0)
  }

  /** The store starts symmetric. */
  lemma ZerosSymmetric(n: nat)
    ensures IsSymmetric(Zeros(n), n)
  {
  }

  /**
   * One matrix's part of setParams: an out-of-range type leaves the matrix as
   * it is (the call fails); otherwise v goes to (t1, t2) and to (t2, t1).
   */
  function SetPair(m: seq<real>, n: nat, t1: nat, t2: nat, v: real): (r: seq<real>)
    requires |m| == n * n
    ensures |r| == n * n
    ensures t1 >= n || t2 >= n ==> r == m
    ensures t1 < n && t2 < n ==> r[Cell(t1, t2, n)] == v && r[Cell(t2, t1, n)] == v
  {
    if t1 >= n || t2 >= n then m
    else m[Cell(t1, t2, n) := v][Cell(t2, t1, n) := v]
  }

  /** A write changes only the two mirrored cells it names. */
  lemma SetPairCells(m: seq<real>, n: nat, t1: nat, t2: nat, v: real, a: nat, b: nat)
    requires |m| == n * n
    requires a < n && b < n
    ensures var r := SetPair(m, n, t1, t2, v);
            r[Cell(a, b, n)] == if t1 < n && t2 < n && SamePair(a, b, t1, t2) then v else m[Cell(a, b, n)]
  {
    if t1 < n && t2 < n && !SamePair(a, b, t1, t2) {
      if Cell(a, b, n) == Cell(t1, t2, n) {
        CellInjective(a, b, t1, t2, n);
      }
      if Cell(a, b, n) == Cell(t2, t1, n) {
        CellInjective(a, b, t2, t1, n);
      }
    }
  }

  lemma SetPairKeepsSymmetry(m: seq<real>, n: nat, t1: nat, t2: nat, v: real)
    requires |m| == n * n
    requires IsSymmetric(m, n)
    ensures IsSymmetric(SetPair(m, n, t1, t2, v), n)
  {
    var r := SetPair(m, n, t1, t2, v);
    forall a: nat, b: nat | a < n && b < n
      ensures r[Cell(a, b, n)] == r[Cell(b, a, n)]
    {
      SetPairCells(m, n, t1, t2, v, a, b);
      SetPairCells(m, n, t1, t2, v, b, a);
    }
  }

  /** The arguments of one setParams call, for one of the two matrices. */
  datatype Write = Write(t1: nat, t2: nat, v: real)

  /** The matrix after a sequence of setParams calls, applied in order. */
  function ApplyWrites(m: seq<real>, n: nat, ws: seq<Write>): (r: seq<real>)
    requires |m| == n * n
    ensures |r| == n * n
    decreases |ws|
  {
    if |ws| == 0 then m
    else ApplyWrites(SetPair(m, n, ws[0].t1, ws[0].t2, ws[0].v), n, ws[1..])
  }

  /** Whatever calls are made, a symmetric matrix stays symmetric. */
  lemma {:induction false} WritesKeepSymmetry(m: seq<real>, n: nat, ws: seq<Write>)
    requires |m| == n * n
    requires IsSymmetric(m, n)
    ensures IsSymmetric(ApplyWrites(m, n, ws), n)
    decreases |ws|
  {
    if |ws| > 0 {
      SetPairKeepsSymmetry(m, n, ws[0].t1, ws[0].t2, ws[0].v);
      WritesKeepSymmetry(SetPair(m, n, ws[0].t1, ws[0].t2, ws[0].v), n, ws[1..]);
    }
  }

  /** A cell that no call names, in either order, keeps its value (0 for a fresh store). */
  lemma {:induction false} UntouchedCellKeeps(m: seq<real>, n: nat, ws: seq<Write>, a: nat, b: nat)
    requires |m| == n * n
    requires a < n && b < n
    requires forall i :: 0 <= i < |ws| ==> !SamePair(a, b, ws[i].t1, ws[i].t2)
    ensures ApplyWrites(m, n, ws)[Cell(a, b, n)] == m[Cell(a, b, n)]
    decreases |ws|
  {
    if |ws| > 0 {
      var m' := SetPair(m, n, ws[0].t1, ws[0].t2, ws[0].v);
      SetPairCells(m, n, ws[0].t1, ws[0].t2, ws[0].v, a, b);
      assert forall i :: 0 <= i < |ws[1..]| ==> ws[1..][i] == ws[i + 1];
      UntouchedCellKeeps(m', n, ws[1..], a, b);
    }
  }

  lemma {:induction false} ApplyWritesAppend(m: seq<real>, n: nat, ws: seq<Write>, rest: seq<Write>)
    requires |m| == n * n
    ensures ApplyWrites(m, n, ws + rest) == ApplyWrites(ApplyWrites(m, n, ws), n, rest)
    decreases |ws|
  {
    if |ws| > 0 {
      assert (ws + rest)[0] == ws[0];
      assert (ws + rest)[1..] == ws[1..] + rest;
      ApplyWritesAppend(SetPair(m, n, ws[0].t1, ws[0].t2, ws[0].v), n, ws[1..], rest);
    } else {
      assert ws + rest == rest;
    }
  }

  /**
   * The last successful call that names a pair decides both of its cells:
   * later calls on other pairs, or failing calls, do not disturb them.
   */
  lemma LastWriteWins(m: seq<real>, n: nat, ws: seq<Write>, w: Write, rest: seq<Write>)
    requires |m| == n * n
    requires w.t1 < n && w.t2 < n
    requires forall i :: 0 <= i < |rest| ==> !SamePair(w.t1, w.t2, rest[i].t1, rest[i].t2)
    ensures var r := ApplyWrites(m, n, ws + [w] + rest);
            r[Cell(w.t1, w.t2, n)] == w.v && r[Cell(w.t2, w.t1, n)] == w.v
  {
    var before := ApplyWrites(m, n, ws);
    ApplyWritesAppend(m, n, ws, [w]);
    ApplyWritesAppend(m, n, ws + [w], rest);
    var after := ApplyWrites(m, n, ws + [w]);
    assert after == SetPair(before, n, w.t1, w.t2, w.v) by {
      assert ApplyWrites(before, n, [w]) == ApplyWrites(SetPair(before, n, w.t1, w.t2, w.v), n, []);
    }
    UntouchedCellKeeps(after, n, rest, w.t1, w.t2);
    assert forall i :: 0 <= i < |rest| ==> !SamePair(w.t2, w.t1, rest[i].t1, rest[i].t2);
    UntouchedCellKeeps(after, n, rest, w.t2, w.t1);
  }
}
