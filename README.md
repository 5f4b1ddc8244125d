# Monte Carlo linear-system estimator: a Dafny model

This project models the computational core of ISM_Lab5. That program estimates the
solution of a linear system x = Cx + f by simulating Markov chains. The core has two parts:

- `MultiplicativePRNG` (prng.dfy, module `Prng`) is a Lehmer-style generator. Its one
  mutable field `last` advances by `last := (last * multiplier) % modulus`. Every draw
  comes from the new state: `next()` returns `last / modulus`; `next(from, to)` scales that
  draw to the range; `nextInt(from, to)` rounds a draw in [from - 1/2, to + 1/2). `reset`
  goes back to the seed. `clone` takes a snapshot of the current state.
- The estimator in main.cpp (monte_carlo.dfy, module `MonteCarlo`):
  - `calcNext` computes the weighted path sum along one trajectory.
  - `calcSystem` builds uniform sampling distributions and draws a table of trajectories
    from one freshly constructed generator (2^31, 262147, 262147). It adds every
    trajectory's path sum for probe e_j to `result[j]`, then divides by the number of
    trajectories.
  - `checkCoefs` tests that every row's absolute sum is below 1.
  - `calcDiscrepancy` takes the largest component difference.

The generator is a class. Its three `const` fields and its `var last` mirror the C++
`const` members and the `mutable long long last`. The field is named `modulus` because
`module` is a Dafny keyword. The C++ `%` is truncating, so it is modelled by `CRem`
rather than Dafny's Euclidean `%`. The 64-bit and 32-bit integer types are modelled by
range predicates (`IsLong`, `IsInt`). `double` is modelled by `real`, and `std::round` by
`Round` (halfway cases away from zero).

Every loop of the source is a method with loop invariants. The accumulating loops are
proved against recursive specification functions:

| loop | specification function |
|---|---|
| `CalcNext` | `PathSum` / `Weight` |
| `AccumulateChains` | `SampleSum` |
| `DrawTrajectories` | `TrajectoryTable` |
| `CheckCoefs` | `RowAbsSum` |
| `CalcDiscrepancy` | `MaxAbsDiff` |

The fill loops of `UniformSampling` are proved against the sequence comprehensions
`UniformVec` and `UniformMtr`. `CalcSystem`'s final division loop is proved against the
closed form (old value plus `SampleSum`) divided by chainsNum.

The loop phases of calcSystem are separate methods (`UniformSampling`,
`DrawTrajectories`, `AccumulateChains`). `CalcSystem` calls them in the source's order and
then runs the final division loop. The sampling tables that `UniformSampling` fills are
the ones `AccumulateChains` passes to `CalcNext`. The parameter the source calls `real` in
calcDiscrepancy is named `reference`, since `real` is a Dafny type name.

Three behaviours of the code are worth stating outright:

- calcSystem never clears `result`, so `CalcSystem`'s postcondition carries `old(result[j])`.
- The constructor does not check the modulus, so `0 < modulus` is a precondition.
- A zero row k of C does not make component k exact. Each trajectory stops after its first
  term (`ZeroRowStopsPath`). Under uniform sampling it adds n * f[k] if it starts at k
  (`UnitProbeStart`) and 0 otherwise (`StartElsewhereContributesNothing`), so the average
  for that component stays random.

## Model

| member | source | states |
|---|---|---|
| Prng.CRem | MultiplicativePRNG.cpp:19 | C++ `%`: the remainder lies strictly between -modulus and modulus, has the sign of the dividend, and completes the truncated quotient |
| Prng.Round | MultiplicativePRNG.cpp:30 | std::round: the result is within 1/2 of x, and halfway cases go away from zero |
| Prng.StepRepresentable | MultiplicativePRNG.cpp:19 | under SafeParams, a state after one step times the multiplier fits a `long long`, so the next step cannot overflow |
| Prng.ReferenceProductFits | MultiplicativePRNG.h:7-11 | a state below 2^31 times a 32-bit `int` multiplier stays below 2^62 in magnitude, so it fits a `long long` |
| Prng.StepKeepsOdd | MultiplicativePRNG.cpp:19 | with an even modulus and an odd positive state and multiplier, the next state is odd and strictly between 0 and the modulus |
| Prng.IterateKeepsOdd | MultiplicativePRNG.cpp:17-21 | from an odd seed with an odd multiplier and an even modulus, every state of the stream is odd and in (0, modulus) |
| Prng.UnitBounded | MultiplicativePRNG.cpp:20 | a state in (-modulus, modulus) gives next() in (-1, 1) |
| Prng.UnitInRange | MultiplicativePRNG.cpp:20 | a state in [0, modulus) gives next() in [0, 1), and a positive state gives a positive draw |
| Prng.ScaleInRange | MultiplicativePRNG.cpp:23-26 | when from <= to, next(from, to) lies in [from, to], and strictly below `to` when from < to |
| Prng.RoundInBand | MultiplicativePRNG.cpp:30 | rounding any point of (from - 1/2, to + 1/2) gives an integer in [from, to] |
| Prng.IntDrawInRange | MultiplicativePRNG.cpp:28-31 | when the new state is in (0, modulus) and from <= to, the scaled draw lies strictly inside (from - 1/2, to + 1/2), and nextInt (rounded as std::round does) lies in [from, to] |
| Prng.ZeroStateLeavesRange | MultiplicativePRNG.cpp:28-31 | a zero state would make nextInt(0, to) return -1, outside its range |
| Prng.Units | MultiplicativePRNG.cpp:17-21 | the k draws of next() from a state: k values, the i-th being the (i+1)-th state divided by the modulus |
| Prng.MultiplicativePRNG.constructor | MultiplicativePRNG.cpp:4-7 | the fields take the arguments and the stream starts at the seed |
| Prng.MultiplicativePRNG.Copy | MultiplicativePRNG.cpp:9-12 | the copy has the source's parameters and its current state |
| Prng.MultiplicativePRNG.Next | MultiplicativePRNG.cpp:17-21 | the new state is the truncating remainder of last * multiplier, and the result is that state over the modulus, in (-1, 1). With a non-negative state and multiplier, the state stays in [0, modulus) and the draw in [0, 1). Under SafeParams the next call cannot overflow |
| Prng.MultiplicativePRNG.NextBetween | MultiplicativePRNG.cpp:23-26 | advances the state exactly once, and returns from + (to - from) * draw, which lies in [from, to] (below `to` when from < to) |
| Prng.MultiplicativePRNG.NextInt | MultiplicativePRNG.cpp:28-31 | advances the state exactly once, and returns the rounded scaled draw, which lies in [from, to] whenever the new state is in (0, modulus) |
| Prng.MultiplicativePRNG.Reset | MultiplicativePRNG.cpp:33-36 | the state goes back to the seed, and the parameters are unchanged |
| Prng.MultiplicativePRNG.Clone | MultiplicativePRNG.cpp:38-41 | a fresh object, so not aliased with the source, with the same parameters and the source's current state rather than the seed |
| Prng.Draws | MultiplicativePRNG.cpp:17-21 | k calls of next() yield exactly the k draws of the stream from the current state, and leave the state k steps further on |
| Prng.ResetReplays | MultiplicativePRNG.cpp:33-36 | from a fresh generator, k draws, then reset, then k draws give two identical sequences |
| Prng.SameParametersSameStream | MultiplicativePRNG.cpp:4-7 | two generators constructed with the same parameters yield the same draws |
| Prng.CloneIsSnapshot | MultiplicativePRNG.cpp:38-41 | a draw on the source does not move the clone, and a later draw on the clone does not move the source: the source stays one step on, and the clone's next draw equals the source's |
| MonteCarlo.CalcNext | main.cpp:25-48 | the loop returns the full weighted path sum: the starting weight times the ratios so far, times f, summed over the trajectory. A non-positive sampling probability counts as ratio 0. A length-1 trajectory gives h[i0]/markovVec[i0] * vecF[i0], or 0 |
| MonteCarlo.ZeroWeightPersists | main.cpp:42 | once the weight q is 0 it stays 0 for the rest of the trajectory |
| MonteCarlo.ZeroWeightCollapse | main.cpp:42-44 | once q is 0, no later term changes the path sum |
| MonteCarlo.UnprobedStartContributesNothing | main.cpp:36 | a trajectory starting where the probe h is 0 contributes 0 |
| MonteCarlo.BlockedTransitionFreezesSum | main.cpp:42-44 | a sampled transition with non-positive markovMtr fixes the path sum at the terms before it |
| MonteCarlo.OnlyFirstTerm | main.cpp:35-45 | when the first transition's ratio is 0, the path sum is the starting weight times f at the start |
| MonteCarlo.ZeroRowStopsPath | main.cpp:42-44 | a trajectory starting in an all-zero row of C contributes only its starting term |
| MonteCarlo.TrajectoryEntry | main.cpp:75 | every draw nextInt(0, size - 1) of calcSystem's stream lies in [0, size - 1] |
| MonteCarlo.TrajectoryTable | main.cpp:71-77 | the table has chainsNum rows of chainLength entries. Entry (i, j) is the (i * chainLength + j)-th draw of one stream that is never reset, so it lies in [0, size - 1] |
| MonteCarlo.TrajectoryTableOver | main.cpp:71-77 | every row of the table is a non-empty trajectory over valid indices |
| MonteCarlo.UniformSampling | main.cpp:61-69 | after the fill loops, every entry of markovVec and markovMtr is 1/size, and strictly positive |
| MonteCarlo.DrawTrajectories | main.cpp:71-77 | the filled table equals the draws of the fresh stream, row by row, and the generator ends chainsNum * chainLength steps on |
| MonteCarlo.AccumulateChains | main.cpp:79-87 | given the uniform tables from the fill phase, each result[j] gains the sum over all trajectories of calcNext with probe e_j, and no other entry changes |
| MonteCarlo.CalcSystem | main.cpp:50-95 | result[j] becomes (old result[j] + that sum over the trajectory table) / chainsNum for j < size. Later entries are unchanged, and result is not cleared first |
| MonteCarlo.CalcSystemIsDeterministic | main.cpp:55 | two calls on equal inputs leave equal results, since each call builds a fresh generator with fixed parameters |
| MonteCarlo.UnitProbeStart | main.cpp:83-84 | with uniform sampling and probe e_j, the starting weight is size at j and 0 elsewhere |
| MonteCarlo.UniformRatio | main.cpp:42 | under uniform sampling, the likelihood ratio of a transition a -> b is size * C[a][b] |
| MonteCarlo.StartElsewhereContributesNothing | main.cpp:36 | under uniform sampling, a trajectory that does not start at j contributes 0 to component j |
| MonteCarlo.CheckCoefs | main.cpp:97-117 | returns true iff every row's absolute sum over the first size columns is below 1 (true for an empty matrix) |
| MonteCarlo.EntryBoundedByRowSum | main.cpp:105-108 | each entry's magnitude is at most the absolute sum of any prefix of its row that contains it |
| MonteCarlo.RowAbsSumNonNegative | main.cpp:104-108 | the accumulated absolute row sum is never negative |
| MonteCarlo.ConvergentEntriesBelowOne | main.cpp:97-117 | a matrix accepted by checkCoefs has every entry below 1 in magnitude |
| MonteCarlo.MaxAbsDiffIsMax | main.cpp:15-20 | the running maximum bounds every difference seen, is -1 before any, and otherwise equals one of them |
| MonteCarlo.CalcDiscrepancy | main.cpp:13-22 | the result is max over i of abs(real[i] - result[i]): at least every difference, equal to one of them when non-empty, and -1 when empty |

## Left out

- `main()` (main.cpp:120-209) is left out: the gnuplot pipe, console I/O, the parameter sweep and the hard-coded test system are driver code.
- IEEE-754 `double` is modelled by exact `real` arithmetic. Rounding error, `pow(2, 31)` conversion and the `(double)` and `(int)` casts are not modelled: the `(int)` cast in nextInt is not range-checked, and `from - 0.5` and `to + 0.5` are exact.
- Statistical properties (unbiasedness, convergence, error below a tolerance) are probabilistic and are not stated.
- `new`/`delete` of the generator and virtual dispatch through the `PRNG` interface are left out. `CalcSystem` holds a `MultiplicativePRNG` directly. PRNG.h declares only the interface, and Cloneable.h is not part of this model.
- Aliasing between `result` and the constant inputs is not modelled: `coefsMtr` and `vecF` are values, and `result` is an array.
- `calcSystem` reads `trajectory[i][0]` and divides by chainsNum, so an empty chain or zero chains is outside the source's domain. `CalcSystem` requires chainsNum >= 1 and chainLength >= 1. It also requires C to cover size x size and `result` to have at least size entries, as the source indexes them unchecked.
- Prng.MultiplicativePRNG.constructor: requires 0 < modulus, where the source performs no check (a zero modulus makes `%` undefined).
- Prng.MultiplicativePRNG.Next: requires last * multiplier to fit a `long long`, since signed overflow is undefined in C++. SafeParams is a sufficient condition for keeping this true after every draw, not a necessary one.
- Prng.MultiplicativePRNG.NextBetween: states the range only for a non-negative state and multiplier. With negative parameters the truncating `%` can make the draw negative, and the model only bounds it in (-1, 1).
- MonteCarlo.ZeroRowStopsPath: states the per-trajectory contribution of a zero row rather than an exact component value, because the average over random trajectories is not exact.
