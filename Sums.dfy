/** Sums of integer sequences and of integer matrices, with the effect of
    replacing one entry. Used to state the total energy of a lattice. */
module Sums {

  type Matrix = seq<seq<int>>

  /** The sum of the entries of `s`. */
  function Sum(s: seq<int>): (r: int)
  {
    if s == [] then 0 else s[0] + Sum(s[1..])
  }

  /** Replacing one entry changes the sum by exactly the difference. */
  lemma {:induction false} SumUpdate(s: seq<int>, k: int, v: int)
    requires 0 <= k < |s|
    ensures Sum(s[k := v]) == Sum(s) - s[k] + v
  {
    if k == 0 {
      assert s[k := v][1..] == s[1..];
    } else {
      SumUpdate(s[1..], k - 1, v);
      assert s[k := v][1..] == s[1..][k - 1 := v];
    }
  }

  /** The sum of all entries of the rows of `m`. */
  function Total(m: Matrix): (r: int)
  {
    if m == [] then 0 else Sum(m[0]) + Total(m[1..])
  }

  /** Replacing one row changes the total by the difference of the row sums. */
  lemma {:induction false} TotalRowUpdate(m: Matrix, k: int, row: seq<int>)
    requires 0 <= k < |m|
    ensures Total(m[k := row]) == Total(m) - Sum(m[k]) + Sum(row)
  {
    if k == 0 {
      assert m[k := row][1..] == m[1..];
    } else {
      TotalRowUpdate(m[1..], k - 1, row);
      assert m[k := row][1..] == m[1..][k - 1 := row];
    }
  }

  /** `m` with the entry in row `x`, column `y` replaced by `v`. */
  function Set(m: Matrix, x: int, y: int, v: int): (r: Matrix)
    requires 0 <= x < |m| && 0 <= y < |m[x]|
    ensures |r| == |m| && forall a :: 0 <= a < |m| ==> |r[a]| == |m[a]|
    ensures forall a, b :: 0 <= a < |m| && 0 <= b < |m[a]| ==>
              r[a][b] == if a == x && b == y then v else m[a][b]
  {
    m[x := m[x][y := v]]
  }

  /** Replacing one entry changes the total by exactly the difference. */
  lemma TotalSet(m: Matrix, x: int, y: int, v: int)
    requires 0 <= x < |m| && 0 <= y < |m[x]|
    ensures Total(Set(m, x, y, v)) == Total(m) - m[x][y] + v
  {
    TotalRowUpdate(m, x, m[x][y := v]);
    SumUpdate(m[x], y, v);
  }
}
