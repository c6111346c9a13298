/** The spin lattice as a value: a square grid of spins on a torus, the
    periodic neighbour lookup, the energy change of a single-site flip
    (`deltaU`), the flip itself, and the total energy that `deltaU` is the
    change of. Row index `i`, column index `j`, as in `s[i][j]`. */
module Lattice {
  import opened Sums

  type Grid = seq<seq<int>>

  predicate IsSpin(x: int)
  {
    x == 1 || x == -1
  }

  /** Every row is as long as there are rows. */
  predicate IsSquare(g: Grid)
  {
    forall i :: 0 <= i < |g| ==> |g[i]| == |g|
  }

  /** A square grid all of whose cells are +1 or -1. */
  predicate IsLattice(g: Grid)
  {
    IsSquare(g) && forall i, j :: 0 <= i < |g| && 0 <= j < |g| ==> IsSpin(g[i][j])
  }

  /** (i, j) is a site of the square grid g. */
  predicate InGrid(g: Grid, i: int, j: int)
  {
    IsSquare(g) && 0 <= i < |g| && 0 <= j < |g|
  }

  /** Two square grids of the same size with the same cells are equal. */
  lemma SameCells(g: Grid, h: Grid)
    requires IsSquare(g) && IsSquare(h) && |g| == |h|
    requires forall a, b :: 0 <= a < |g| && 0 <= b < |g| ==> g[a][b] == h[a][b]
    ensures g == h
  {
    forall a | 0 <= a < |g|
      ensures g[a] == h[a]
    {
      assert |g[a]| == |h[a]|;
      assert forall b :: 0 <= b < |g[a]| ==> g[a][b] == h[a][b];
    }
  }

  // ---------------------------------------------------------------------
  // Initialisation

  /** The lattice the constructor builds: cell (i, j) is +1 when the draw
      for that cell fell below one half (`ups[i][j]`), and -1 otherwise. */
  function Initial(ups: seq<seq<bool>>): (g: Grid)
    requires forall i :: 0 <= i < |ups| ==> |ups[i]| == |ups|
    ensures IsLattice(g) && |g| == |ups|
    ensures forall i, j :: 0 <= i < |g| && 0 <= j < |g| ==> (g[i][j] == 1 <==> ups[i][j])
  {
    seq(|ups|, i requires 0 <= i < |ups| =>
      seq(|ups|, j requires 0 <= j < |ups| => if ups[i][j] then 1 else -1))
  }

  // ---------------------------------------------------------------------
  // Periodic boundaries

  /** The index before k on a ring of n sites; 0 wraps to n - 1. */
  function Prev(k: int, n: int): (r: int)
    requires 0 <= k < n
    ensures 0 <= r < n
    ensures r == (k - 1) % n
  {
    if k == 0 then n - 1 else k - 1
  }

  /** The index after k on a ring of n sites; n - 1 wraps to 0. */
  function Next(k: int, n: int): (r: int)
    requires 0 <= k < n
    ensures 0 <= r < n
    ensures r == (k + 1) % n
  {
    if k == n - 1 then 0 else k + 1
  }

  /** Prev and Next undo each other, and on a ring of two or more sites
      neither stays in place. */
  lemma WrapInverse(k: int, n: int)
    requires 0 <= k < n
    ensures Next(Prev(k, n), n) == k && Prev(Next(k, n), n) == k
    ensures n >= 2 ==> Prev(k, n) != k && Next(k, n) != k
  {
  }

  /** The four neighbour spins of (i, j) on the torus, named as in the
      program: left and right change the row index, top and bottom the
      column index. */
  function LeftS(g: Grid, i: int, j: int): (x: int)
    requires InGrid(g, i, j)
    ensures x == g[(i - 1) % |g|][j]
  {
    g[Prev(i, |g|)][j]
  }

  function RightS(g: Grid, i: int, j: int): (x: int)
    requires InGrid(g, i, j)
    ensures x == g[(i + 1) % |g|][j]
  {
    g[Next(i, |g|)][j]
  }

  function TopS(g: Grid, i: int, j: int): (x: int)
    requires InGrid(g, i, j)
    ensures x == g[i][(j - 1) % |g|]
  {
    g[i][Prev(j, |g|)]
  }

  function BottomS(g: Grid, i: int, j: int): (x: int)
    requires InGrid(g, i, j)
    ensures x == g[i][(j + 1) % |g|]
  {
    g[i][Next(j, |g|)]
  }

  /** The four neighbours on the torus: edges wrap to the opposite edge,
      interior sites use the adjacent rows and columns. */
  lemma PeriodicNeighbours(g: Grid, i: int, j: int)
    requires InGrid(g, i, j)
    ensures i == 0 ==> LeftS(g, i, j) == g[|g| - 1][j]
    ensures i == |g| - 1 ==> RightS(g, i, j) == g[0][j]
    ensures j == 0 ==> TopS(g, i, j) == g[i][|g| - 1]
    ensures j == |g| - 1 ==> BottomS(g, i, j) == g[i][0]
    ensures 0 < i ==> LeftS(g, i, j) == g[i - 1][j]
    ensures i < |g| - 1 ==> RightS(g, i, j) == g[i + 1][j]
    ensures 0 < j ==> TopS(g, i, j) == g[i][j - 1]
    ensures j < |g| - 1 ==> BottomS(g, i, j) == g[i][j + 1]
  {
  }

  // ---------------------------------------------------------------------
  // Energy change of a flip

  /** Energy change if site (i, j) were flipped: twice its spin times the
      sum of its four neighbours. On a lattice of +1/-1 spins it takes one
      of five values. */
  function DeltaU(g: Grid, i: int, j: int): (e: int)
    requires InGrid(g, i, j)
    ensures IsLattice(g) ==> e in {-8, -4, 0, 4, 8}
  {
    2 * g[i][j] * (LeftS(g, i, j) + RightS(g, i, j) + TopS(g, i, j) + BottomS(g, i, j))
  }

  // ---------------------------------------------------------------------
  // The flip

  /** The grid with the spin at (i, j) multiplied by -1. */
  function Flip(g: Grid, i: int, j: int): (h: Grid)
    requires InGrid(g, i, j)
    ensures IsSquare(h) && |h| == |g|
    ensures forall a, b :: 0 <= a < |g| && 0 <= b < |g| ==>
              h[a][b] == if a == i && b == j then -g[a][b] else g[a][b]
  {
    g[i := g[i][j := g[i][j] * -1]]
  }

  /** A flip keeps every cell a spin. */
  lemma FlipPreservesLattice(g: Grid, i: int, j: int)
    requires IsLattice(g) && 0 <= i < |g| && 0 <= j < |g|
    ensures IsLattice(Flip(g, i, j))
  {
  }

  /** A flip changes the lattice: the flipped cell differs from before. */
  lemma FlipChanges(g: Grid, i: int, j: int)
    requires IsLattice(g) && 0 <= i < |g| && 0 <= j < |g|
    ensures Flip(g, i, j) != g
  {
    assert Flip(g, i, j)[i][j] != g[i][j];
  }

  /** Flipping the same site twice restores the grid. */
  lemma FlipInvolutive(g: Grid, i: int, j: int)
    requires InGrid(g, i, j)
    ensures Flip(Flip(g, i, j), i, j) == g
  {
    SameCells(Flip(Flip(g, i, j), i, j), g);
  }

  /** Flips at any two sites commute. */
  lemma FlipCommutes(g: Grid, i: int, j: int, a: int, b: int)
    requires InGrid(g, i, j) && InGrid(g, a, b)
    ensures Flip(Flip(g, i, j), a, b) == Flip(Flip(g, a, b), i, j)
  {
    SameCells(Flip(Flip(g, i, j), a, b), Flip(Flip(g, a, b), i, j));
  }

  /** On a lattice of two or more sites per side, no site is its own
      neighbour, so flipping (i, j) negates its energy change. */
  lemma FlipNegatesDeltaU(g: Grid, i: int, j: int)
    requires InGrid(g, i, j) && |g| >= 2
    ensures DeltaU(Flip(g, i, j), i, j) == -DeltaU(g, i, j)
  {
    var h := Flip(g, i, j);
    WrapInverse(i, |g|);
    WrapInverse(j, |g|);
    assert LeftS(h, i, j) == LeftS(g, i, j);
    assert RightS(h, i, j) == RightS(g, i, j);
    assert TopS(h, i, j) == TopS(g, i, j);
    assert BottomS(h, i, j) == BottomS(g, i, j);
    var sum := LeftS(g, i, j) + RightS(g, i, j) + TopS(g, i, j) + BottomS(g, i, j);
    assert DeltaU(h, i, j) == 2 * -g[i][j] * sum;
    assert 2 * -g[i][j] * sum == -(2 * g[i][j] * sum);
  }

  /** On a 1 x 1 lattice the site is its own neighbour in every direction:
      the energy change is 8 and stays 8 after the flip. */
  lemma SingleSiteDeltaU(g: Grid)
    requires IsLattice(g) && |g| == 1
    ensures DeltaU(g, 0, 0) == 8 && DeltaU(Flip(g, 0, 0), 0, 0) == 8
  {
    var h := Flip(g, 0, 0);
    assert LeftS(g, 0, 0) == RightS(g, 0, 0) == TopS(g, 0, 0) == BottomS(g, 0, 0) == g[0][0];
    assert LeftS(h, 0, 0) == RightS(h, 0, 0) == TopS(h, 0, 0) == BottomS(h, 0, 0) == h[0][0];
  }

  // ---------------------------------------------------------------------
  // Total energy

  /** The interaction of site (i, j) with its right and bottom neighbours;
      each bond of the torus is counted at exactly one of its ends. */
  function Bond(g: Grid, i: int, j: int): (b: int)
    requires InGrid(g, i, j)
  {
    g[i][j] * (RightS(g, i, j) + BottomS(g, i, j))
  }

  function Bonds(g: Grid): (m: Matrix)
    requires IsSquare(g)
    ensures |m| == |g| && forall i :: 0 <= i < |g| ==> |m[i]| == |g|
    ensures forall i, j :: 0 <= i < |g| && 0 <= j < |g| ==> m[i][j] == Bond(g, i, j)
  {
    seq(|g|, i requires 0 <= i < |g| => seq(|g|, j requires 0 <= j < |g| => Bond(g, i, j)))
  }

  /** The Ising energy with unit coupling: minus the sum over all bonds of
      the product of the two spins. */
  function Energy(g: Grid): (e: int)
    requires IsSquare(g)
  {
    -Total(Bonds(g))
  }

  /** A bond not touching (a, b) is the same before and after flipping (a, b). */
  lemma BondUntouched(g: Grid, a: int, b: int, x: int, y: int)
    requires InGrid(g, a, b) && InGrid(g, x, y)
    requires !(x == a && y == b)
    requires !(x == Prev(a, |g|) && y == b)
    requires !(x == a && y == Prev(b, |g|))
    ensures Bond(Flip(g, a, b), x, y) == Bond(g, x, y)
  {
    WrapInverse(x, |g|);
    WrapInverse(y, |g|);
  }

  /** The bonds after flipping (a, b) are the old bonds with only the three
      that touch (a, b) replaced: its own, the one of its left neighbour
      and the one of its top neighbour. */
  lemma FlippedBonds(g: Grid, a: int, b: int)
    requires InGrid(g, a, b) && |g| >= 2
    ensures var n, C := |g|, Bonds(Flip(g, a, b));
      C == Set(Set(Set(Bonds(g), a, b, C[a][b]), Prev(a, n), b, C[Prev(a, n)][b]),
               a, Prev(b, n), C[a][Prev(b, n)])
  {
    var n := |g|;
    var pa, pb := Prev(a, n), Prev(b, n);
    WrapInverse(a, n);
    WrapInverse(b, n);
    var C := Bonds(Flip(g, a, b));
    var B3 := Set(Set(Set(Bonds(g), a, b, C[a][b]), pa, b, C[pa][b]), a, pb, C[a][pb]);
    forall x, y | 0 <= x < n && 0 <= y < n
      ensures B3[x][y] == C[x][y]
    {
      if !(x == a && y == b) && !(x == pa && y == b) && !(x == a && y == pb) {
        BondUntouched(g, a, b, x, y);
      }
    }
    SameCells(B3, C);
  }

  /** The bond of (a, b) itself changes sign when (a, b) is flipped. */
  lemma OwnBondChange(g: Grid, a: int, b: int)
    requires InGrid(g, a, b) && |g| >= 2
    ensures Bond(Flip(g, a, b), a, b) - Bond(g, a, b)
            == -2 * g[a][b] * (RightS(g, a, b) + BottomS(g, a, b))
  {
    var n, h, s := |g|, Flip(g, a, b), g[a][b];
    WrapInverse(a, n);
    WrapInverse(b, n);
    var r, d := RightS(g, a, b), BottomS(g, a, b);
    assert RightS(h, a, b) == r && BottomS(h, a, b) == d;
    assert Bond(h, a, b) == -s * (r + d);
  }

  /** The bond of the left neighbour of (a, b) changes by its share. */
  lemma LeftBondChange(g: Grid, a: int, b: int)
    requires InGrid(g, a, b) && |g| >= 2
    ensures var pa := Prev(a, |g|);
      Bond(Flip(g, a, b), pa, b) - Bond(g, pa, b) == -2 * g[a][b] * LeftS(g, a, b)
  {
    var n, h, s := |g|, Flip(g, a, b), g[a][b];
    var pa := Prev(a, n);
    WrapInverse(a, n);
    WrapInverse(b, n);
    var l, pd := LeftS(g, a, b), g[pa][Next(b, n)];
    assert RightS(h, pa, b) == -s && BottomS(h, pa, b) == pd;
    assert RightS(g, pa, b) == s && BottomS(g, pa, b) == pd;
    assert Bond(h, pa, b) == l * (-s + pd);
    assert Bond(g, pa, b) == l * (s + pd);
  }

  /** The bond of the top neighbour of (a, b) changes by its share. */
  lemma TopBondChange(g: Grid, a: int, b: int)
    requires InGrid(g, a, b) && |g| >= 2
    ensures var pb := Prev(b, |g|);
      Bond(Flip(g, a, b), a, pb) - Bond(g, a, pb) == -2 * g[a][b] * TopS(g, a, b)
  {
    var n, h, s := |g|, Flip(g, a, b), g[a][b];
    var pb := Prev(b, n);
    WrapInverse(a, n);
    WrapInverse(b, n);
    var t, tr := TopS(g, a, b), g[Next(a, n)][pb];
    assert RightS(h, a, pb) == tr && BottomS(h, a, pb) == -s;
    assert RightS(g, a, pb) == tr && BottomS(g, a, pb) == s;
    assert Bond(h, a, pb) == t * (tr - s);
    assert Bond(g, a, pb) == t * (tr + s);
  }

  /** The three bonds touching (a, b) change by minus DeltaU in total. */
  lemma FlippedBondChanges(g: Grid, a: int, b: int)
    requires InGrid(g, a, b) && |g| >= 2
    ensures var n, h := |g|, Flip(g, a, b);
      (Bond(h, a, b) - Bond(g, a, b)) + (Bond(h, Prev(a, n), b) - Bond(g, Prev(a, n), b))
      + (Bond(h, a, Prev(b, n)) - Bond(g, a, Prev(b, n))) == -DeltaU(g, a, b)
  {
    var s := g[a][b];
    var l, r, t, d := LeftS(g, a, b), RightS(g, a, b), TopS(g, a, b), BottomS(g, a, b);
    OwnBondChange(g, a, b);
    LeftBondChange(g, a, b);
    TopBondChange(g, a, b);
    assert -2 * s * (r + d) + -2 * s * l + -2 * s * t == -(2 * s * (l + r + t + d));
  }

  /** DeltaU is the change of total energy that flipping (a, b) causes,
      on every lattice with two or more sites per side. */
  lemma DeltaUIsEnergyChange(g: Grid, a: int, b: int)
    requires InGrid(g, a, b) && |g| >= 2
    ensures Energy(Flip(g, a, b)) == Energy(g) + DeltaU(g, a, b)
  {
    var n, h := |g|, Flip(g, a, b);
    var pa, pb := Prev(a, n), Prev(b, n);
    WrapInverse(a, n);
    WrapInverse(b, n);
    var B, C := Bonds(g), Bonds(h);
    var B1 := Set(B, a, b, C[a][b]);
    var B2 := Set(B1, pa, b, C[pa][b]);
    FlippedBonds(g, a, b);
    TotalSet(B, a, b, C[a][b]);
    TotalSet(B1, pa, b, C[pa][b]);
    TotalSet(B2, a, pb, C[a][pb]);
    assert B1[pa][b] == B[pa][b] && B2[a][pb] == B[a][pb];
    var d1 := Bond(h, a, b) - Bond(g, a, b);
    var d2 := Bond(h, pa, b) - Bond(g, pa, b);
    var d3 := Bond(h, a, pb) - Bond(g, a, pb);
    assert Total(C) == Total(B) + d1 + d2 + d3;
    FlippedBondChanges(g, a, b);
  }
}
