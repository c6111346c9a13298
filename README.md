# Ising spin lattice: Metropolis engine

A Dafny model of the simulation engine of a 2D Ising model desktop program
(an AWT window started from `main`). The program keeps a `size` x `size`
array `s` of spins, each +1 or -1, on a torus (periodic boundaries). It fills
the array at random. It then runs batches of 10000 Metropolis proposals. Each
proposal picks a site and computes the energy change `deltaU` that flipping it
would cause. It flips the site when that change is not positive, or when a
random test against `exp(-eDiff/T)` passes.

The project has four modules:

- `Sums` (Sums.dfy): sums of sequences and matrices, and how replacing one
  entry changes them. It is a helper for the total energy.
- `Lattice` (Lattice.dfy): the lattice as a value (`Grid = seq<seq<int>>`).
  It holds the wrap-around neighbour lookup (`Prev`, `Next`, `LeftS`,
  `RightS`, `TopS`, `BottomS`), `DeltaU`, the single-site `Flip` and the
  lattice built from the initial draws (`Initial`). It also holds the total
  Ising energy `Energy` with unit coupling, which `deltaU` is the change of.
- `Metropolis` (Metropolis.dfy): a `Proposal` (site plus the outcome of the
  random acceptance test), the Metropolis criterion `Accepts`, one `Step` and a
  `Batch` of steps, with lemmas about them.
- `Simulation` (Simulation.dfy): the class `Ising` holding `size` and the
  array `s: array2<int>`. Its constructor is the initialisation loop. `DeltaU`
  reads the array. `Flip` changes one cell in place. `RunBatch` is the step
  loop of `run`, one `Propose` per step. Each is proved against the value model: `Cells()` is the
  array seen as a `Grid`.

Randomness is an input. `ups[i][j]` says whether the draw for cell (i, j) fell
below 0.5 during initialisation. Each `Proposal(i, j, passes)` gives the site
indices drawn for one step and whether `Math.random() < Math.exp(-eDiff/temp)`
held for that step.

The program fixes the side at 100 and the batch at 10000 and checks neither.
The model keeps the batch length (`StepsPerBatch = 10000`) and takes the side
as a constructor argument `n > 0`, of which the program's 100 is one value.

## Model

| member | source | states |
|---|---|---|
| `Simulation.Ising.constructor` | Ising.java:60-65 | After the nested loop the array is `n` x `n`, every cell is +1 or -1, and the grid equals `Initial(ups)`: +1 exactly where the draw fell below one half. |
| `Lattice.Initial` | Ising.java:60-62 | The initial grid is square with `|ups|` rows, every cell is +1 or -1, and a cell is +1 if and only if its draw fell below one half. |
| `Lattice.Prev` | Ising.java:96-98 | The left/top index lies in `[0, n)` and equals `(k - 1) mod n`, so index 0 wraps to `n - 1`. |
| `Lattice.Next` | Ising.java:97-99 | The right/bottom index lies in `[0, n)` and equals `(k + 1) mod n`, so index `n - 1` wraps to 0. |
| `Lattice.WrapInverse` | Ising.java:96-99 | Stepping left then right (or top then bottom) returns to the same index. On a ring of two or more sites no neighbour index equals the site's own. |
| `Lattice.PeriodicNeighbours` | Ising.java:96-99 | The edge and interior cases of the wrap: row 0's left is row `size-1`, row `size-1`'s right is row 0, and the same holds for columns with top and bottom. Interior sites use `i±1`, `j±1`. |
| `Lattice.LeftS` | Ising.java:96 | The left neighbour spin, row `i - 1` with row 0 wrapping to `size - 1`; its contract states it is the cell in row `(i - 1) mod size`. Edge and interior cases are spelled out by `PeriodicNeighbours`. |
| `Lattice.RightS` | Ising.java:97 | The right neighbour spin, row `i + 1` with row `size - 1` wrapping to 0; its contract states it is the cell in row `(i + 1) mod size`. |
| `Lattice.TopS` | Ising.java:98 | The top neighbour spin, column `j - 1` with column 0 wrapping to `size - 1`; its contract states it is the cell in column `(j - 1) mod size`. |
| `Lattice.BottomS` | Ising.java:99 | The bottom neighbour spin, column `j + 1` with column `size - 1` wrapping to 0; its contract states it is the cell in column `(j + 1) mod size`. |
| `Simulation.Ising.DeltaU` | Ising.java:94-101 | The value read from the array with the source's four wrap conditionals equals the value model's `2 * s[i][j] * (leftS + rightS + topS + bottomS)` on the current grid. It reads and does not modify the array. |
| `Lattice.DeltaU` | Ising.java:94-100 | Computes `2 * s[i][j] * (leftS + rightS + topS + bottomS)` on the grid value; its contract states that on a grid of +1/-1 spins the result is one of -8, -4, 0, 4, 8. Its meaning as an energy change is carried by `DeltaUIsEnergyChange`; its sign change under a flip by `FlipNegatesDeltaU`. |
| `Lattice.DeltaUIsEnergyChange` | Ising.java:93-100 | On any square grid with side at least 2, flipping (a, b) changes the total energy (minus the sum of neighbour spin products over all bonds of the torus) by exactly `deltaU(a, b)`. |
| `Lattice.SingleSiteDeltaU` | Ising.java:94-100 | On a 1 x 1 lattice the site is its own neighbour in all four directions: `deltaU` is 8 before and after a flip. This is why the flip-negation lemmas require side at least 2. |
| `Lattice.Flip` | Ising.java:83 | The flipped grid has the same shape; cell (i, j) is negated and every other cell is unchanged. |
| `Simulation.Ising.Flip` | Ising.java:83 | `s[i, j] *= -1` negates that cell, leaves every other cell unchanged, keeps every cell +1 or -1, and the new grid is `Lattice.Flip` of the old one. |
| `Lattice.FlipPreservesLattice` | Ising.java:83 | Flipping a cell of a +1/-1 grid yields a +1/-1 grid. |
| `Lattice.FlipChanges` | Ising.java:83 | On a +1/-1 grid a flip always changes the grid. |
| `Lattice.FlipInvolutive` | Ising.java:83 | Flipping the same site twice restores the original grid. |
| `Lattice.FlipCommutes` | Ising.java:83 | Flips at two sites give the same grid in either order. |
| `Lattice.FlipNegatesDeltaU` | Ising.java:94-100 | With side at least 2, the energy change at (i, j) after flipping (i, j) is the negation of the one before, because the four neighbours are untouched. |
| `Metropolis.Accepts` | Ising.java:82 | The Metropolis criterion: `eDiff <= 0`, or else the acceptance test passed. Its contract restates it through the total energy: with side at least 2, a proposal is accepted exactly when the flipped lattice has no more energy than the current one, or the test passed. |
| `Metropolis.Step` | Ising.java:81-85 | One proposal: the flip if `Accepts`, otherwise the grid unchanged. Its contract states that the shape is kept, that the proposed cell is negated exactly when the proposal is accepted, and that no other cell changes. `MetropolisRule`, `StepChangesIff` and `StepEnergy` carry its further properties. |
| `Metropolis.Batch` | Ising.java:78-86 | Running a sequence of proposals in order gives a square grid of the same side. |
| `Metropolis.MetropolisRule` | Ising.java:81-85 | If `eDiff <= 0` the step is the flip. If `eDiff > 0` and the test passes it is the flip. If `eDiff > 0` and the test fails the grid is unchanged. |
| `Metropolis.StepChangesIff` | Ising.java:81-85 | On a +1/-1 grid a proposal changes the grid if and only if `eDiff <= 0` or the acceptance test passed. |
| `Metropolis.StepPreservesLattice` | Ising.java:81-85 | One step keeps every cell +1 or -1. |
| `Metropolis.StepEnergy` | Ising.java:81-85 | With side at least 2, one step changes the total energy by `eDiff` when accepted and by 0 when rejected. |
| `Metropolis.UphillUndone` | Ising.java:81-85 | With side at least 2: after an accepted energy-raising flip, a proposal at the same site has a negative `eDiff`, so it is accepted whatever its test says, and it restores the grid. |
| `Metropolis.AlignedSiteFlips` | Ising.java:81-85 | With side at least 2, a -1 site whose four neighbours are +1 has `eDiff = -8`. It is flipped to +1 unconditionally and the energy drops by 8. |
| `Metropolis.BatchAppend` | Ising.java:78-86 | Running two proposal sequences one after the other equals running their concatenation: each proposal is consumed once, in order. |
| `Metropolis.BatchPrefixStep` | Ising.java:78-86 | The first k + 1 proposals of a batch are the first k followed by one step with proposal k; this is the step the loop of `run` takes. |
| `Metropolis.BatchPreservesLattice` | Ising.java:78-86 | After any number of proposals every cell is still +1 or -1. |
| `Metropolis.BatchUntouched` | Ising.java:78-86 | A site that no proposal of the batch picks keeps its spin. |
| `Metropolis.ColdBatchDescends` | Ising.java:81-85 | With side at least 2, when every acceptance test fails, a batch never raises the total energy. |
| `Simulation.Ising.Propose` | Ising.java:79-85 | One proposal computes `eDiff` from the array and reports the flip accepted exactly when the Metropolis criterion holds on the old grid. The new grid is `Step` of the old one: flipped if accepted, unchanged otherwise. Every cell stays +1 or -1. |
| `Simulation.Ising.RunBatch` | Ising.java:78-86 | The loop makes exactly `StepsPerBatch` = 10000 proposals, accepted or not. It keeps every cell +1 or -1. The final grid is `Batch` of the initial grid over all 10000 proposals. |

## Left out

- The window, panels, scrollbar, label, start/pause button, number format, `colorSquare`, `update`, `paint`, the off-screen image and `main`: user interface and rendering.
- The simulation thread, the endless `while (true)` loop, the `running` flag and `Thread.sleep`: scheduling and concurrency. The model has no paused state; a caller simply calls `RunBatch` or not.
- `Math.random()` and the cast of `Math.random() * size` to an index: the indices are inputs, and `RunBatch` requires them in `[0, size)`, which the cast guarantees.
- The temperature `tScroller.getValue() / 100.0` and `Math.exp(-eDiff/temp)`: floating point. The outcome of the test is the input `passes`; the link between temperature and acceptance probability is not modelled.
- Simulation.Ising.RunBatch: does not capture that the temperature is read once, before the loop. The model has no temperature, and the `passes` outcomes are unconstrained per step, so they fit a temperature re-read at every step just as well.
- The acceptance frequency converging to `exp(-eDiff/T)`: a statistical property of the random source, outside a deterministic model.
- The program draws the acceptance random number only when `eDiff > 0`. The model gives every proposal a `passes` value and ignores it when `eDiff <= 0`, so it does not count how many random numbers are consumed.
- `deltaU` returns a `double` in the source; `2.0 * int` is exact for these small values, so the model returns an `int`.
- Lattice.FlipNegatesDeltaU: requires side length at least 2, because on a 1 x 1 lattice the site is its own neighbour (see `Lattice.SingleSiteDeltaU`); the program's side is 100.
- Lattice.DeltaUIsEnergyChange: requires side length at least 2 for the same reason; the program's side is 100.
- Metropolis.StepEnergy: requires side length at least 2, since it rests on `DeltaUIsEnergyChange`; on a 1 x 1 lattice the energy stays -2 while `deltaU` is 8.
- Metropolis.UphillUndone: requires side length at least 2, since it rests on `FlipNegatesDeltaU`.
- Metropolis.AlignedSiteFlips: its energy clause requires side length at least 2, since it rests on `DeltaUIsEnergyChange`.
- Metropolis.ColdBatchDescends: requires side length at least 2, since it rests on `StepEnergy`.
- Metropolis.Accepts: its energy form of the criterion is stated only for side length at least 2, for the same reason.
