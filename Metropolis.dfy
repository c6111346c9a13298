/** The Metropolis batch as a function of the lattice and of the random
    outcomes it consumes. A proposal names the site picked and whether the
    random acceptance test (a uniform draw below exp(-eDiff/T)) passed. */
module Metropolis {
  import opened Lattice

  /** Proposals per batch in the program. */
  const StepsPerBatch: nat := 10000

  /** One proposal: the row and column picked, and the outcome of the
      acceptance test, which only matters when the flip raises the energy. */
  datatype Proposal = Proposal(i: int, j: int, passes: bool)

  predicate InRange(p: Proposal, n: int)
  {
    0 <= p.i < n && 0 <= p.j < n
  }

  predicate AllInRange(ps: seq<Proposal>, n: int)
  {
    forall k :: 0 <= k < |ps| ==> InRange(ps[k], n)
  }

  /** The Metropolis criterion: accept a flip that does not raise the
      energy, and one that does only if the acceptance test passed. Read
      through the total energy: accept when the flipped lattice has no more
      energy than the current one, or when the test passed. */
  predicate Accepts(g: Grid, p: Proposal): (b: bool)
    requires IsSquare(g) && InRange(p, |g|)
    ensures |g| >= 2 ==> (b <==> Energy(Flip(g, p.i, p.j)) <= Energy(g) || p.passes)
  {
    if |g| >= 2 then
      DeltaUIsEnergyChange(g, p.i, p.j);
      DeltaU(g, p.i, p.j) <= 0 || p.passes
    else
      DeltaU(g, p.i, p.j) <= 0 || p.passes
  }

  /** One proposal: flip the site if it is accepted, otherwise nothing.
      Only the proposed site can change, and it changes exactly when the
      proposal is accepted. */
  function Step(g: Grid, p: Proposal): (h: Grid)
    requires IsSquare(g) && InRange(p, |g|)
    ensures IsSquare(h) && |h| == |g|
    ensures h[p.i][p.j] == if Accepts(g, p) then -g[p.i][p.j] else g[p.i][p.j]
    ensures forall a, b :: 0 <= a < |g| && 0 <= b < |g| && !(a == p.i && b == p.j) ==> h[a][b] == g[a][b]
  {
    if Accepts(g, p) then Flip(g, p.i, p.j) else g
  }

  /** The proposals performed in order, one step each, accepted or not. */
  function Batch(g: Grid, ps: seq<Proposal>): (h: Grid)
    requires IsSquare(g) && AllInRange(ps, |g|)
    ensures IsSquare(h) && |h| == |g|
    decreases |ps|
  {
    if ps == [] then g else Batch(Step(g, ps[0]), ps[1..])
  }

  // ---------------------------------------------------------------------
  // One step

  /** The three cases of the criterion: a flip that does not raise the
      energy always happens, one that does happens exactly when the test
      passes, and a rejected proposal leaves the grid as it was. */
  lemma MetropolisRule(g: Grid, p: Proposal)
    requires IsSquare(g) && InRange(p, |g|)
    ensures DeltaU(g, p.i, p.j) <= 0 ==> Step(g, p) == Flip(g, p.i, p.j)
    ensures DeltaU(g, p.i, p.j) > 0 && p.passes ==> Step(g, p) == Flip(g, p.i, p.j)
    ensures DeltaU(g, p.i, p.j) > 0 && !p.passes ==> Step(g, p) == g
  {
  }

  /** On a lattice, a proposal changes the grid if and only if the
      criterion accepts it. */
  lemma StepChangesIff(g: Grid, p: Proposal)
    requires IsLattice(g) && InRange(p, |g|)
    ensures Step(g, p) != g <==> (DeltaU(g, p.i, p.j) <= 0 || p.passes)
  {
    if Accepts(g, p) {
      FlipChanges(g, p.i, p.j);
    }
  }

  /** A step keeps every cell a spin. */
  lemma StepPreservesLattice(g: Grid, p: Proposal)
    requires IsLattice(g) && InRange(p, |g|)
    ensures IsLattice(Step(g, p))
  {
    FlipPreservesLattice(g, p.i, p.j);
  }

  /** A step changes the energy by DeltaU when accepted, and not at all
      otherwise. */
  lemma StepEnergy(g: Grid, p: Proposal)
    requires IsSquare(g) && |g| >= 2 && InRange(p, |g|)
    ensures Energy(Step(g, p)) == Energy(g) + if Accepts(g, p) then DeltaU(g, p.i, p.j) else 0
  {
    if Accepts(g, p) {
      DeltaUIsEnergyChange(g, p.i, p.j);
    }
  }

  /** After an accepted uphill flip, a proposal at the same site is
      accepted whatever its test says, and it restores the grid. */
  lemma UphillUndone(g: Grid, p: Proposal, q: Proposal)
    requires IsSquare(g) && |g| >= 2 && InRange(p, |g|)
    requires DeltaU(g, p.i, p.j) > 0 && p.passes
    requires q.i == p.i && q.j == p.j
    ensures DeltaU(Step(g, p), p.i, p.j) == -DeltaU(g, p.i, p.j) < 0
    ensures Accepts(Step(g, p), q) && Step(Step(g, p), q) == g
  {
    FlipNegatesDeltaU(g, p.i, p.j);
    FlipInvolutive(g, p.i, p.j);
  }

  /** A down spin whose four neighbours are all up has eDiff = -8, so the
      proposal is accepted whatever its test says and the spin turns up. */
  lemma AlignedSiteFlips(g: Grid, p: Proposal)
    requires IsSquare(g) && |g| >= 2 && InRange(p, |g|)
    requires g[p.i][p.j] == -1
    requires LeftS(g, p.i, p.j) == RightS(g, p.i, p.j) == TopS(g, p.i, p.j) == BottomS(g, p.i, p.j) == 1
    ensures DeltaU(g, p.i, p.j) == -8 && Accepts(g, p)
    ensures Step(g, p)[p.i][p.j] == 1
    ensures Energy(Step(g, p)) == Energy(g) - 8
  {
    DeltaUIsEnergyChange(g, p.i, p.j);
  }

  // ---------------------------------------------------------------------
  // A batch

  /** Running two lists of proposals one after the other is running their
      concatenation: each proposal is consumed once, in order. */
  lemma {:induction false} BatchAppend(g: Grid, ps: seq<Proposal>, qs: seq<Proposal>)
    requires IsSquare(g) && AllInRange(ps, |g|) && AllInRange(qs, |g|)
    ensures AllInRange(ps + qs, |g|)
    ensures Batch(g, ps + qs) == Batch(Batch(g, ps), qs)
    decreases |ps|
  {
    if ps == [] {
      assert ps + qs == qs;
    } else {
      assert (ps + qs)[1..] == ps[1..] + qs;
      BatchAppend(Step(g, ps[0]), ps[1..], qs);
    }
  }

  /** The first k + 1 proposals of a batch are the first k followed by
      one more step with proposal k. */
  lemma BatchPrefixStep(g: Grid, ps: seq<Proposal>, k: int)
    requires IsSquare(g) && AllInRange(ps, |g|) && 0 <= k < |ps|
    ensures AllInRange(ps[..k], |g|) && AllInRange(ps[..k + 1], |g|)
    ensures Batch(g, ps[..k + 1]) == Step(Batch(g, ps[..k]), ps[k])
  {
    assert ps[..k + 1] == ps[..k] + [ps[k]];
    BatchAppend(g, ps[..k], [ps[k]]);
    assert [ps[k]][1..] == [];
  }

  /** Every cell stays +1 or -1 however many proposals are made. */
  lemma {:induction false} BatchPreservesLattice(g: Grid, ps: seq<Proposal>)
    requires IsLattice(g) && AllInRange(ps, |g|)
    ensures IsLattice(Batch(g, ps))
    decreases |ps|
  {
    if ps != [] {
      StepPreservesLattice(g, ps[0]);
      BatchPreservesLattice(Step(g, ps[0]), ps[1..]);
    }
  }

  /** A site that no proposal picks keeps its spin. */
  lemma {:induction false} BatchUntouched(g: Grid, ps: seq<Proposal>, a: int, b: int)
    requires IsSquare(g) && AllInRange(ps, |g|) && 0 <= a < |g| && 0 <= b < |g|
    requires forall k :: 0 <= k < |ps| ==> ps[k].i != a || ps[k].j != b
    ensures Batch(g, ps)[a][b] == g[a][b]
    decreases |ps|
  {
    if ps != [] {
      BatchUntouched(Step(g, ps[0]), ps[1..], a, b);
    }
  }

  /** When every acceptance test fails, a batch never raises the energy. */
  lemma {:induction false} ColdBatchDescends(g: Grid, ps: seq<Proposal>)
    requires IsSquare(g) && |g| >= 2 && AllInRange(ps, |g|)
    requires forall k :: 0 <= k < |ps| ==> !ps[k].passes
    ensures Energy(Batch(g, ps)) <= Energy(g)
    decreases |ps|
  {
    if ps != [] {
      StepEnergy(g, ps[0]);
      ColdBatchDescends(Step(g, ps[0]), ps[1..]);
    }
  }
}
