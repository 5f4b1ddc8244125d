/**
 * The Monte Carlo estimator for a linear system x = Cx + f. Random index
 * trajectories are drawn from one multiplicative generator. For each
 * trajectory and each unit probe vector e_j, a weighted path sum is added to
 * component j of the caller's result vector, which is then divided by the
 * number of trajectories. `double` is modelled by `real`, so the contracts
 * state what the algorithm computes in exact arithmetic.
 */
module MonteCarlo {
  import opened Prng

  function RealAbs(x: real): real { if x < 0.0 then -x else x }

  function Max(a: real, b: real): real { if a < b then b else a }

  // ---------------------------------------------------------------------------
  // calcNext: the weighted path sum along one trajectory
  // ---------------------------------------------------------------------------

  // In the specification functions below, c is the coefficient matrix, p the
  // sampling transition matrix, f the constant vector, p0 the initial sampling
  // distribution, h the probe vector and t the trajectory.

  /** Every read of the first state of t (in p0 and h) is in bounds. */
  predicate StartReadable(p0: seq<real>, h: seq<real>, t: seq<int>)
  {
    |t| >= 1 && 0 <= t[0] < |p0| && t[0] < |h|
  }

  /** The transition a -> b can be looked up in c and p. */
  predicate StepReadable(c: seq<seq<real>>, p: seq<seq<real>>, a: int, b: int)
  {
    0 <= a < |c| && 0 <= b < |c[a]| && a < |p| && b < |p[a]|
  }

  /** Every transition t[k-1] -> t[k] can be looked up in c and p. */
  predicate StepsReadable(c: seq<seq<real>>, p: seq<seq<real>>, t: seq<int>)
  {
    forall k :: 1 <= k < |t| ==> StepReadable(c, p, t[k - 1], t[k])
  }

  /** Every state of t indexes f. */
  predicate TermsReadable(f: seq<real>, t: seq<int>)
  {
    forall k :: 0 <= k < |t| ==> 0 <= t[k] < |f|
  }

  predicate Readable(c: seq<seq<real>>, p: seq<seq<real>>, f: seq<real>, p0: seq<real>, h: seq<real>, t: seq<int>)
  {
    StartReadable(p0, h, t) && StepsReadable(c, p, t) && TermsReadable(f, t)
  }

  /** The starting weight: h[i] / p0[i], or 0 when i has no positive sampling probability. */
  function InitialWeight(p0: seq<real>, h: seq<real>, i: int): real
    requires 0 <= i < |p0| && i < |h|
  {
    if p0[i] > 0.0 then h[i] / p0[i] else 0.0
  }

  /** The likelihood ratio of one transition: c[a][b] / p[a][b], or 0 when p[a][b] is not positive. */
  function Ratio(c: seq<seq<real>>, p: seq<seq<real>>, a: int, b: int): real
    requires StepReadable(c, p, a, b)
  {
    if p[a][b] > 0.0 then c[a][b] / p[a][b] else 0.0
  }

  /** The path weight after k transitions: the starting weight times the first k ratios. */
  function Weight(c: seq<seq<real>>, p: seq<seq<real>>, p0: seq<real>, h: seq<real>, t: seq<int>, k: nat): real
    requires StartReadable(p0, h, t) && StepsReadable(c, p, t) && k < |t|
  {
    if k == 0 then InitialWeight(p0, h, t[0])
    else Weight(c, p, p0, h, t, k - 1) * Ratio(c, p, t[k - 1], t[k])
  }

  /** The sum of the first k terms Weight(s) * f[t[s]] of the estimator along t. */
  function PathSum(c: seq<seq<real>>, p: seq<seq<real>>, f: seq<real>, p0: seq<real>, h: seq<real>, t: seq<int>, k: nat): real
    requires Readable(c, p, f, p0, h, t) && k <= |t|
  {
    if k == 0 then 0.0
    else PathSum(c, p, f, p0, h, t, k - 1) + Weight(c, p, p0, h, t, k - 1) * f[t[k - 1]]
  }

  /** calcNext: the loop computes the whole path sum along the trajectory. */
  method CalcNext(coefsMtr: seq<seq<real>>, markovMtr: seq<seq<real>>, vecF: seq<real>,
                  markovVec: seq<real>, h: seq<real>, trajectory: seq<int>) returns (result: real)
    requires Readable(coefsMtr, markovMtr, vecF, markovVec, h, trajectory)
    ensures result == PathSum(coefsMtr, markovMtr, vecF, markovVec, h, trajectory, |trajectory|)
    ensures |trajectory| == 1 ==>
      var i0 := trajectory[0];
      result == if markovVec[i0] > 0.0 then h[i0] / markovVec[i0] * vecF[i0] else 0.0
  {
    var indexCur := trajectory[0];
    var q := if markovVec[indexCur] > 0.0 then h[indexCur] / markovVec[indexCur] else 0.0;
    result := q * vecF[indexCur];
    var i := 1;
    while i < |trajectory|
      invariant 1 <= i <= |trajectory|
      invariant q == Weight(coefsMtr, markovMtr, markovVec, h, trajectory, i - 1)
      invariant result == PathSum(coefsMtr, markovMtr, vecF, markovVec, h, trajectory, i)
    {
      var indexPrev := trajectory[i - 1];
      indexCur := trajectory[i];
      q := q * (if markovMtr[indexPrev][indexCur] > 0.0
                then coefsMtr[indexPrev][indexCur] / markovMtr[indexPrev][indexCur] else 0.0);
      result := result + q * vecF[indexCur];
      i := i + 1;
    }
  }

  /** Once the path weight is 0 it stays 0 for the rest of the trajectory. */
  lemma {:induction false} ZeroWeightPersists(c: seq<seq<real>>, p: seq<seq<real>>, p0: seq<real>, h: seq<real>, t: seq<int>, k: nat, m: nat)
    requires StartReadable(p0, h, t) && StepsReadable(c, p, t)
    requires k <= m < |t| && Weight(c, p, p0, h, t, k) == 0.0
    ensures Weight(c, p, p0, h, t, m) == 0.0
  {
    if m > k {
      ZeroWeightPersists(c, p, p0, h, t, k, m - 1);
    }
  }

  /** Once the path weight is 0, no later term changes the path sum. */
  lemma {:induction false} ZeroWeightCollapse(c: seq<seq<real>>, p: seq<seq<real>>, f: seq<real>, p0: seq<real>, h: seq<real>, t: seq<int>, k: nat, m: nat)
    requires Readable(c, p, f, p0, h, t)
    requires k <= m <= |t| && k < |t| && Weight(c, p, p0, h, t, k) == 0.0
    ensures PathSum(c, p, f, p0, h, t, m) == PathSum(c, p, f, p0, h, t, k)
  {
    if m > k {
      ZeroWeightCollapse(c, p, f, p0, h, t, k, m - 1);
      ZeroWeightPersists(c, p, p0, h, t, k, m - 1);
    }
  }

  /** A trajectory starting where the probe vector is 0 contributes nothing. */
  lemma UnprobedStartContributesNothing(c: seq<seq<real>>, p: seq<seq<real>>, f: seq<real>, p0: seq<real>, h: seq<real>, t: seq<int>)
    requires Readable(c, p, f, p0, h, t) && h[t[0]] == 0.0
    ensures PathSum(c, p, f, p0, h, t, |t|) == 0.0
  {
    ZeroWeightCollapse(c, p, f, p0, h, t, 0, |t|);
  }

  /**
   * A sampled transition without positive sampling probability zeroes the
   * weight: the path sum is fixed at the terms before that transition.
   */
  lemma BlockedTransitionFreezesSum(c: seq<seq<real>>, p: seq<seq<real>>, f: seq<real>, p0: seq<real>, h: seq<real>, t: seq<int>, k: nat)
    requires Readable(c, p, f, p0, h, t) && 1 <= k < |t|
    requires StepReadable(c, p, t[k - 1], t[k]) && p[t[k - 1]][t[k]] <= 0.0
    ensures PathSum(c, p, f, p0, h, t, |t|) == PathSum(c, p, f, p0, h, t, k)
  {
    ZeroWeightCollapse(c, p, f, p0, h, t, k, |t|);
  }

  // ---------------------------------------------------------------------------
  // calcSystem: uniform sampling, one PRNG stream, averaging over trajectories
  // ---------------------------------------------------------------------------

  /** The generator parameters calcSystem constructs its PRNG with. */
  const ChainModulus: int := Pow2_31
  const ChainSeed: int := 262147
  const ChainMultiplier: int := 262147

  /** The uniform distribution over n indices: every entry 1/n. */
  function UniformVec(n: nat): seq<real>
  {
    seq(n, k requires 0 <= k < n => 1.0 / n as real)
  }

  /** The uniform n-by-n transition matrix. */
  function UniformMtr(n: nat): seq<seq<real>>
  {
    seq(n, k => UniformVec(n))
  }

  /** The unit probe vector e_j of length n. */
  function UnitVec(n: nat, j: nat): seq<real>
  {
    seq(n, k => if k == j then 1.0 else 0.0)
  }

  /** At least an n-by-n block of c can be read. */
  predicate CoversSquare(c: seq<seq<real>>, n: nat)
  {
    |c| >= n && forall i :: 0 <= i < n ==> |c[i]| >= n
  }

  /**
   * The k-th integer (counting from 0) that calcSystem's stream yields for
   * nextInt(0, size - 1). The stream stays odd, so the draw is in range.
   */
  function TrajectoryEntry(size: int, k: nat): (r: int)
    ensures size >= 1 ==> 0 <= r < size
  {
    var last := Iterate(ChainSeed, ChainMultiplier, ChainModulus, k + 1);
    IterateKeepsOdd(ChainSeed, ChainMultiplier, ChainModulus, k + 1);
    IntDrawInRange(0, size - 1, last, ChainModulus);
    IntDraw(0, size - 1, last, ChainModulus)
  }

  /** The trajectory table, filled row by row from a single stream that is never reset. */
  function TrajectoryTable(size: int, chains: nat, len: nat): (table: seq<seq<int>>)
    ensures |table| == chains
    ensures forall i :: 0 <= i < chains ==> |table[i]| == len
    ensures forall i, j :: 0 <= i < chains && 0 <= j < len ==> table[i][j] == TrajectoryEntry(size, i * len + j)
    ensures size >= 1 ==> forall i, j :: 0 <= i < chains && 0 <= j < len ==> 0 <= table[i][j] < size
  {
    seq(chains, i requires 0 <= i < chains =>
      seq(len, j requires 0 <= j < len => TrajectoryEntry(size, i * len + j)))
  }

  /** Every row of the table is a non-empty trajectory over the indices 0 .. n - 1. */
  predicate TableOver(table: seq<seq<int>>, n: nat)
  {
    forall i :: 0 <= i < |table| ==> |table[i]| >= 1 && TermsReadable(UniformVec(n), table[i])
  }

  lemma TableReadable(c: seq<seq<real>>, f: seq<real>, j: nat, t: seq<int>)
    requires CoversSquare(c, |f|) && j < |f|
    requires |t| >= 1 && TermsReadable(UniformVec(|f|), t)
    ensures Readable(c, UniformMtr(|f|), f, UniformVec(|f|), UnitVec(|f|, j), t)
  {
  }

  /** With at least one index and one step, every row of the trajectory table is a readable trajectory. */
  lemma TrajectoryTableOver(size: nat, chains: nat, len: nat)
    requires size >= 1 && len >= 1
    ensures TableOver(TrajectoryTable(size, chains, len), size)
  {
  }

  /** The sum over the first m trajectories of the path sums calcNext gives for probe e_j. */
  function SampleSum(c: seq<seq<real>>, f: seq<real>, table: seq<seq<int>>, j: nat, m: nat): real
    requires CoversSquare(c, |f|) && j < |f| && m <= |table| && TableOver(table, |f|)
  {
    if m == 0 then 0.0
    else
      TableReadable(c, f, j, table[m - 1]);
      SampleSum(c, f, table, j, m - 1)
      + PathSum(c, UniformMtr(|f|), f, UniformVec(|f|), UnitVec(|f|, j), table[m - 1], |table[m - 1]|)
  }

  /** calcSystem, first phase: the uniform initial vector and transition matrix, entry by entry. */
  method UniformSampling(size: nat) returns (markovMtr: seq<seq<real>>, markovVec: seq<real>)
    ensures markovMtr == UniformMtr(size) && markovVec == UniformVec(size)
    ensures forall i :: 0 <= i < size ==> markovVec[i] > 0.0 && |markovMtr[i]| == size
    ensures forall i, j :: 0 <= i < size && 0 <= j < size ==> markovMtr[i][j] > 0.0
  {
    markovMtr := seq(size, a => seq(size, b => 0.0));
    markovVec := seq(size, k => 0.0);
    for i := 0 to size
      invariant |markovVec| == size && |markovMtr| == size
      invariant forall a :: 0 <= a < size ==> |markovMtr[a]| == size
      invariant forall a :: 0 <= a < i ==> markovVec[a] == 1.0 / size as real
      invariant forall a :: 0 <= a < i ==> markovMtr[a] == UniformVec(size)
    {
      markovVec := markovVec[i := 1.0 / size as real];
      for j := 0 to size
        invariant |markovMtr| == size
        invariant forall a :: 0 <= a < size ==> |markovMtr[a]| == size
        invariant forall a :: 0 <= a < i ==> markovMtr[a] == UniformVec(size)
        invariant forall b :: 0 <= b < j ==> markovMtr[i][b] == 1.0 / size as real
      {
        markovMtr := markovMtr[i := markovMtr[i][j := 1.0 / size as real]];
      }
      assert markovMtr[i] == UniformVec(size);
    }
    assert markovVec == UniformVec(size);
  }

  /**
   * calcSystem, second phase: chainsNum trajectories of chainLength indices,
   * filled row by row with nextInt(0, size - 1) from a generator that starts
   * fresh with calcSystem's parameters and is never reset.
   */
  method DrawTrajectories(prng: MultiplicativePRNG, size: int, chainsNum: nat, chainLength: nat)
    returns (trajectory: seq<seq<int>>)
    requires prng.Valid() && prng.modulus == ChainModulus && prng.multiplier == ChainMultiplier
    requires prng.last == ChainSeed
    modifies prng
    ensures prng.Valid() && prng.last == Iterate(ChainSeed, ChainMultiplier, ChainModulus, chainsNum * chainLength)
    ensures trajectory == TrajectoryTable(size, chainsNum, chainLength)
  {
    trajectory := seq(chainsNum, a => seq(chainLength, b => 0));
    ghost var table := TrajectoryTable(size, chainsNum, chainLength);
    assert IsLong(prng.last * prng.multiplier);
    for i := 0 to chainsNum
      invariant prng.Valid() && prng.modulus == ChainModulus && prng.multiplier == ChainMultiplier
      invariant prng.last == Iterate(ChainSeed, ChainMultiplier, ChainModulus, i * chainLength)
      invariant IsLong(prng.last * prng.multiplier)
      invariant |trajectory| == chainsNum
      invariant forall a :: 0 <= a < chainsNum ==> |trajectory[a]| == chainLength
      invariant forall a :: 0 <= a < i ==> trajectory[a] == table[a]
    {
      for j := 0 to chainLength
        invariant prng.Valid() && prng.modulus == ChainModulus && prng.multiplier == ChainMultiplier
        invariant prng.last == Iterate(ChainSeed, ChainMultiplier, ChainModulus, i * chainLength + j)
        invariant IsLong(prng.last * prng.multiplier)
        invariant |trajectory| == chainsNum
        invariant forall a :: 0 <= a < chainsNum ==> |trajectory[a]| == chainLength
        invariant forall a :: 0 <= a < i ==> trajectory[a] == table[a]
        invariant forall b :: 0 <= b < j ==> trajectory[i][b] == TrajectoryEntry(size, i * chainLength + b)
      {
        var x := prng.NextInt(0, size - 1);
        trajectory := trajectory[i := trajectory[i][j := x]];
      }
      assert trajectory[i] == table[i];
      assert (i + 1) * chainLength == i * chainLength + chainLength;
    }
  }

  /**
   * calcSystem, third phase: for every trajectory and every component j, the
   * path sum calcNext gives for the probe e_j is added to result[j].
   */
  method AccumulateChains(coefsMtr: seq<seq<real>>, markovMtr: seq<seq<real>>, vecF: seq<real>, markovVec: seq<real>,
                          trajectory: seq<seq<int>>, result: array<real>)
    requires CoversSquare(coefsMtr, |vecF|) && (|vecF| == 0 || TableOver(trajectory, |vecF|))
    requires markovMtr == UniformMtr(|vecF|) && markovVec == UniformVec(|vecF|)
    requires result.Length >= |vecF|
    modifies result
    ensures forall k :: 0 <= k < |vecF| ==>
      result[k] == old(result[k]) + SampleSum(coefsMtr, vecF, trajectory, k, |trajectory|)
    ensures forall k :: |vecF| <= k < result.Length ==> result[k] == old(result[k])
  {
    var size := |vecF|;
    var h := seq(size, k => 0.0);
    for i := 0 to |trajectory|
      invariant forall k :: 0 <= k < size ==>
        result[k] == old(result[k]) + SampleSum(coefsMtr, vecF, trajectory, k, i)
      invariant forall k :: size <= k < result.Length ==> result[k] == old(result[k])
    {
      for j := 0 to size
        invariant forall k :: 0 <= k < j ==>
          result[k] == old(result[k]) + SampleSum(coefsMtr, vecF, trajectory, k, i + 1)
        invariant forall k :: j <= k < size ==>
          result[k] == old(result[k]) + SampleSum(coefsMtr, vecF, trajectory, k, i)
        invariant forall k :: size <= k < result.Length ==> result[k] == old(result[k])
      {
        h := seq(size, k => 0.0);
        h := h[j := 1.0];
        assert h == UnitVec(size, j);
        TableReadable(coefsMtr, vecF, j, trajectory[i]);
        var x := CalcNext(coefsMtr, markovMtr, vecF, markovVec, h, trajectory[i]);
        result[j] := result[j] + x;
      }
    }
  }

  /**
   * calcSystem: adds, for every component j, the path sums of all trajectories
   * for probe e_j to result[j], then divides by the number of trajectories.
   * result is not cleared first; entries from |vecF| on are left alone.
   */
  method CalcSystem(coefsMtr: seq<seq<real>>, vecF: seq<real>, chainsNum: int, chainLength: int, result: array<real>)
    requires chainsNum >= 1 && chainLength >= 1
    requires CoversSquare(coefsMtr, |vecF|)
    requires result.Length >= |vecF|
    modifies result
    ensures forall j :: 0 <= j < |vecF| ==>
      result[j] == (old(result[j]) + SampleSum(coefsMtr, vecF, TrajectoryTable(|vecF|, chainsNum, chainLength), j, chainsNum))
                   / chainsNum as real
    ensures forall j :: |vecF| <= j < result.Length ==> result[j] == old(result[j])
  {
    var size := |vecF|;
    var prng := new MultiplicativePRNG(ChainModulus, ChainSeed, ChainMultiplier);
    var markovMtr, markovVec := UniformSampling(size);
    var trajectory := DrawTrajectories(prng, size, chainsNum, chainLength);
    if size >= 1 {
      TrajectoryTableOver(size, chainsNum, chainLength);
    }
    AccumulateChains(coefsMtr, markovMtr, vecF, markovVec, trajectory, result);

    for i := 0 to size
      invariant forall k :: 0 <= k < i ==>
        result[k] == (old(result[k]) + SampleSum(coefsMtr, vecF, trajectory, k, chainsNum)) / chainsNum as real
      invariant forall k :: i <= k < size ==>
        result[k] == old(result[k]) + SampleSum(coefsMtr, vecF, trajectory, k, chainsNum)
      invariant forall k :: size <= k < result.Length ==> result[k] == old(result[k])
    {
      result[i] := result[i] / chainsNum as real;
    }
  }

  /** A fresh generator on every call makes calcSystem deterministic: equal inputs, equal outputs. */
  method CalcSystemIsDeterministic(coefsMtr: seq<seq<real>>, vecF: seq<real>, chainsNum: int, chainLength: int,
                                   r1: array<real>, r2: array<real>)
    requires chainsNum >= 1 && chainLength >= 1
    requires CoversSquare(coefsMtr, |vecF|)
    requires r1 != r2 && r1.Length == r2.Length >= |vecF| && r1[..] == r2[..]
    modifies r1, r2
    ensures r1[..] == r2[..]
  {
    CalcSystem(coefsMtr, vecF, chainsNum, chainLength, r1);
    CalcSystem(coefsMtr, vecF, chainsNum, chainLength, r2);
    assert forall k :: 0 <= k < r1.Length ==> r1[k] == r2[k];
  }

  /** With uniform sampling and probe e_j, the starting weight is n on j and 0 elsewhere. */
  lemma UnitProbeStart(n: nat, j: nat, i: nat)
    requires j < n && i < n
    ensures InitialWeight(UniformVec(n), UnitVec(n, j), i) == if i == j then n as real else 0.0
  {
    var u := 1.0 / n as real;
    assert u > 0.0;
    if i == j {
      assert UnitVec(n, j)[i] == 1.0;
      assert 1.0 / u == n as real;
    }
  }

  /** Under uniform sampling the likelihood ratio of a transition a -> b is n * c[a][b]. */
  lemma UniformRatio(c: seq<seq<real>>, n: nat, a: int, b: int)
    requires CoversSquare(c, n) && 0 <= a < n && 0 <= b < n
    ensures StepReadable(c, UniformMtr(n), a, b)
    ensures Ratio(c, UniformMtr(n), a, b) == n as real * c[a][b]
  {
    var u := 1.0 / n as real;
    assert UniformMtr(n)[a][b] == u;
    assert u > 0.0;
    assert c[a][b] / u == n as real * c[a][b];
  }

  /**
   * When the first transition's ratio is 0, only the starting term is left:
   * the path sum is the starting weight times f at the starting state.
   */
  lemma OnlyFirstTerm(c: seq<seq<real>>, p: seq<seq<real>>, f: seq<real>, p0: seq<real>, h: seq<real>, t: seq<int>)
    requires Readable(c, p, f, p0, h, t)
    requires |t| > 1 ==> Ratio(c, p, t[0], t[1]) == 0.0
    ensures PathSum(c, p, f, p0, h, t, |t|) == InitialWeight(p0, h, t[0]) * f[t[0]]
  {
    assert PathSum(c, p, f, p0, h, t, 1) == InitialWeight(p0, h, t[0]) * f[t[0]];
    if |t| > 1 {
      assert Weight(c, p, p0, h, t, 1) == 0.0;
      ZeroWeightCollapse(c, p, f, p0, h, t, 1, |t|);
    }
  }

  /** A trajectory that does not start at j contributes nothing to component j. */
  lemma StartElsewhereContributesNothing(c: seq<seq<real>>, f: seq<real>, j: nat, t: seq<int>)
    requires Readable(c, UniformMtr(|f|), f, UniformVec(|f|), UnitVec(|f|, j), t)
    requires j < |f| && t[0] != j
    ensures PathSum(c, UniformMtr(|f|), f, UniformVec(|f|), UnitVec(|f|, j), t, |t|) == 0.0
  {
    UnitProbeStart(|f|, j, t[0]);
    ZeroWeightCollapse(c, UniformMtr(|f|), f, UniformVec(|f|), UnitVec(|f|, j), t, 0, |t|);
  }

  /**
   * A zero row of c stops the estimator at its first state: a trajectory
   * starting in a row of c that is all zero contributes only its starting term.
   */
  lemma ZeroRowStopsPath(c: seq<seq<real>>, p: seq<seq<real>>, f: seq<real>, p0: seq<real>, h: seq<real>, t: seq<int>)
    requires Readable(c, p, f, p0, h, t)
    requires t[0] < |c| && forall b :: 0 <= b < |c[t[0]]| ==> c[t[0]][b] == 0.0
    ensures PathSum(c, p, f, p0, h, t, |t|) == InitialWeight(p0, h, t[0]) * f[t[0]]
  {
    if |t| > 1 {
      assert StepReadable(c, p, t[0], t[1]);
      assert c[t[0]][t[1]] == 0.0;
    }
    OnlyFirstTerm(c, p, f, p0, h, t);
  }

  // ---------------------------------------------------------------------------
  // checkCoefs: every row's absolute sum below 1
  // ---------------------------------------------------------------------------

  /** The sum of the absolute values of the first k entries of a row. */
  function RowAbsSum(row: seq<real>, k: nat): real
    requires k <= |row|
  {
    if k == 0 then 0.0 else RowAbsSum(row, k - 1) + RealAbs(row[k - 1])
  }

  /** checkCoefs: true iff every row's absolute sum over the first |coefs| columns is below 1. */
  method CheckCoefs(coefs: seq<seq<real>>) returns (ok: bool)
    requires forall i :: 0 <= i < |coefs| ==> |coefs[i]| >= |coefs|
    ensures ok <==> forall i :: 0 <= i < |coefs| ==> RowAbsSum(coefs[i], |coefs|) < 1.0
  {
    var size := |coefs|;
    for i := 0 to size
      invariant forall a :: 0 <= a < i ==> RowAbsSum(coefs[a], size) < 1.0
    {
      var sum := 0.0;
      for j := 0 to size
        invariant sum == RowAbsSum(coefs[i], j)
      {
        sum := sum + RealAbs(coefs[i][j]);
      }
      if sum >= 1.0 {
        return false;
      }
    }
    return true;
  }

  /** Each entry's magnitude is bounded by the absolute sum of any prefix of its row that contains it. */
  lemma {:induction false} EntryBoundedByRowSum(row: seq<real>, k: nat, j: nat)
    requires j < k <= |row|
    ensures RealAbs(row[j]) <= RowAbsSum(row, k)
    ensures RowAbsSum(row, k) >= 0.0
  {
    if j < k - 1 {
      EntryBoundedByRowSum(row, k - 1, j);
    } else {
      RowAbsSumNonNegative(row, k - 1);
    }
  }

  lemma {:induction false} RowAbsSumNonNegative(row: seq<real>, k: nat)
    requires k <= |row|
    ensures RowAbsSum(row, k) >= 0.0
  {
    if k > 0 {
      RowAbsSumNonNegative(row, k - 1);
    }
  }

  /** A matrix that passes checkCoefs has every entry of magnitude below 1. */
  lemma ConvergentEntriesBelowOne(coefs: seq<seq<real>>, i: nat, j: nat)
    requires forall a :: 0 <= a < |coefs| ==> |coefs[a]| >= |coefs|
    requires forall a :: 0 <= a < |coefs| ==> RowAbsSum(coefs[a], |coefs|) < 1.0
    requires i < |coefs| && j < |coefs|
    ensures RealAbs(coefs[i][j]) < 1.0
  {
    EntryBoundedByRowSum(coefs[i], |coefs|, j);
  }

  // ---------------------------------------------------------------------------
  // calcDiscrepancy: the largest component-wise difference
  // ---------------------------------------------------------------------------

  /** The running maximum of |reference[i] - result[i]| over i < k, starting from -1. */
  function MaxAbsDiff(reference: seq<real>, result: seq<real>, k: nat): real
    requires k <= |reference| && k <= |result|
  {
    if k == 0 then -1.0
    else Max(RealAbs(reference[k - 1] - result[k - 1]), MaxAbsDiff(reference, result, k - 1))
  }

  /** The running maximum bounds every difference seen and equals one of them. */
  lemma {:induction false} MaxAbsDiffIsMax(reference: seq<real>, result: seq<real>, k: nat)
    requires k <= |reference| && k <= |result|
    ensures forall i :: 0 <= i < k ==> RealAbs(reference[i] - result[i]) <= MaxAbsDiff(reference, result, k)
    ensures k == 0 ==> MaxAbsDiff(reference, result, k) == -1.0
    ensures k > 0 ==> exists i :: 0 <= i < k && MaxAbsDiff(reference, result, k) == RealAbs(reference[i] - result[i])
  {
    if k > 0 {
      MaxAbsDiffIsMax(reference, result, k - 1);
      var d := RealAbs(reference[k - 1] - result[k - 1]);
      if k == 1 || MaxAbsDiff(reference, result, k - 1) <= d {
        assert MaxAbsDiff(reference, result, k) == d;
      } else {
        var i :| 0 <= i < k - 1 && MaxAbsDiff(reference, result, k - 1) == RealAbs(reference[i] - result[i]);
        assert MaxAbsDiff(reference, result, k) == RealAbs(reference[i] - result[i]);
      }
    }
  }

  /**
   * calcDiscrepancy: max_i |reference[i] - result[i]| over the reference's
   * indices, or -1 when the reference is empty.
   */
  method CalcDiscrepancy(reference: seq<real>, result: seq<real>) returns (maxVal: real)
    requires |result| >= |reference|
    ensures maxVal == MaxAbsDiff(reference, result, |reference|)
    ensures forall i :: 0 <= i < |reference| ==> RealAbs(reference[i] - result[i]) <= maxVal
    ensures |reference| == 0 ==> maxVal == -1.0
    ensures |reference| > 0 ==> exists i :: 0 <= i < |reference| && maxVal == RealAbs(reference[i] - result[i])
  {
    maxVal := -1.0;
    var size := |reference|;
    for i := 0 to size
      invariant maxVal == MaxAbsDiff(reference, result, i)
    {
      maxVal := Max(RealAbs(reference[i] - result[i]), maxVal);
    }
    MaxAbsDiffIsMax(reference, result, size);
  }
}
