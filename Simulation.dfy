/** The simulation engine proper: the spin array `s` that the program keeps
    as a field and updates in place, its initialisation loop, the energy
    change of a hypothetical flip read off the array, the in-place flip, and
    the Metropolis batch of `run`. Each is proved against the value model of
    the modules Lattice and Metropolis. */
module Simulation {
  import opened Lattice
  import opened Metropolis

  class Ising {
    /** Number of lattice sites in a row. */
    const size: nat
    /** The spins, `s[i, j]` for row i and column j. */
    const s: array2<int>

    /** The array is size x size and every cell holds +1 or -1. */
    ghost predicate Valid()
      reads s
    {
      0 < size && s.Length0 == size && s.Length1 == size
      && forall i, j :: 0 <= i < size && 0 <= j < size ==> IsSpin(s[i, j])
    }

    /** The spins as a grid value. */
    ghost function Cells(): (g: Grid)
      requires s.Length0 == size && s.Length1 == size
      reads s
      ensures IsSquare(g) && |g| == size
      ensures forall i, j :: 0 <= i < size && 0 <= j < size ==> g[i][j] == s[i, j]
    {
      seq(size, i requires 0 <= i < size reads s =>
        seq(size, j requires 0 <= j < size reads s => s[i, j]))
    }

    /** Fills the n x n lattice row by row; `ups[i][j]` is whether the
        random draw for cell (i, j) fell below one half. */
    constructor (n: nat, ups: seq<seq<bool>>)
      requires 0 < n
      requires |ups| == n && forall i :: 0 <= i < n ==> |ups[i]| == n
      ensures Valid() && size == n && fresh(s)
      ensures Cells() == Initial(ups)
    {
      size := n;
      s := new int[n, n];
      new;
      var i := 0;
      while i < n
        invariant 0 <= i <= n
        invariant forall a, b :: 0 <= a < i && 0 <= b < n ==> s[a, b] == if ups[a][b] then 1 else -1
      {
        var j := 0;
        while j < n
          invariant 0 <= j <= n
          invariant forall a, b :: 0 <= a < i && 0 <= b < n ==> s[a, b] == if ups[a][b] then 1 else -1
          invariant forall b :: 0 <= b < j ==> s[i, b] == if ups[i][b] then 1 else -1
        {
          if ups[i][j] {
            s[i, j] := 1;
          } else {
            s[i, j] := -1;
          }
          j := j + 1;
        }
        i := i + 1;
      }
      SameCells(Cells(), Initial(ups));
    }

    /** The energy change if site (i, j) were flipped, with periodic
        boundaries; reads the array and changes nothing. */
    function DeltaU(i: int, j: int): (r: int)
      requires Valid() && 0 <= i < size && 0 <= j < size
      reads s
      ensures r == Lattice.DeltaU(Cells(), i, j)
    {
      var leftS := if i == 0 then s[size - 1, j] else s[i - 1, j];
      var rightS := if i == size - 1 then s[0, j] else s[i + 1, j];
      var topS := if j == 0 then s[i, size - 1] else s[i, j - 1];
      var bottomS := if j == size - 1 then s[i, 0] else s[i, j + 1];
      2 * s[i, j] * (leftS + rightS + topS + bottomS)
    }

    /** Multiplies the spin at (i, j) by -1 and touches no other cell. */
    method Flip(i: int, j: int)
      requires Valid() && 0 <= i < size && 0 <= j < size
      modifies s
      ensures Valid()
      ensures s[i, j] == -old(s[i, j])
      ensures forall a, b :: 0 <= a < size && 0 <= b < size && !(a == i && b == j) ==> s[a, b] == old(s[a, b])
      ensures Cells() == Lattice.Flip(old(Cells()), i, j)
    {
      ghost var before := Cells();
      s[i, j] := s[i, j] * -1;
      SameCells(Cells(), Lattice.Flip(before, i, j));
    }

    /** One proposal of the step loop of `run`: flip site (p.i, p.j) when
        eDiff <= 0 or when the acceptance test passed, otherwise nothing. */
    method Propose(p: Proposal) returns (accepted: bool)
      requires Valid() && InRange(p, size)
      modifies s
      ensures Valid()
      ensures accepted == Accepts(old(Cells()), p)
      ensures Cells() == Step(old(Cells()), p)
    {
      var eDiff := DeltaU(p.i, p.j);
      accepted := eDiff <= 0 || p.passes;
      if accepted {
        Flip(p.i, p.j);
      }
    }

    /** One batch of `run`: exactly StepsPerBatch proposals, each flipping
        its site when eDiff <= 0 or when its acceptance test passed. */
    method RunBatch(proposals: seq<Proposal>)
      requires Valid()
      requires |proposals| == StepsPerBatch && AllInRange(proposals, size)
      modifies s
      ensures Valid()
      ensures Cells() == Batch(old(Cells()), proposals)
    {
      ghost var start := Cells();
      for step := 0 to StepsPerBatch
        invariant Valid()
        invariant Cells() == Batch(start, proposals[..step])
      {
        var _ := Propose(proposals[step]);
        BatchPrefixStep(start, proposals, step);
      }
      assert proposals[..StepsPerBatch] == proposals;
    }
  }
}
