/** The stepped loop that the three copies of `generateSensDpiPairs` share line for line.
    It visits the candidate DPI values `start, start + step, ...` up to `end` inclusive and
    keeps the pair `(edpi / dpi, dpi)` of every candidate whose sensitivity has at most two
    decimals. JavaScript numbers are modelled as exact reals. */
module DpiLoop {
  import opened CalcTypes

  /** The `k`-th value the loop variable takes. */
  function CandidateDpi(start: real, step: real, k: nat): real
  {
    start + k as real * step
  }

  /** The pair the loop would push for `dpi`. */
  function PairAt(edpi: real, dpi: real): SensDpiPair
    requires dpi != 0.0
  {
    SensDpiPair(edpi / dpi, dpi)
  }

  /** Every pair keeps the eDPI: sensitivity times DPI gives it back. */
  lemma PairKeepsEdpi(edpi: real, dpi: real)
    requires dpi != 0.0
    ensures PairAt(edpi, dpi).inGameSens * PairAt(edpi, dpi).dpi == edpi
  {
  }

  /** The loop keeps the `k`-th candidate: it is within the bound and its sensitivity passes
      the two-decimal filter. */
  predicate KeepsCandidate(edpi: real, start: real, end: real, step: real, k: nat)
    requires 0.0 < start && 0.0 < step
  {
    CandidateDpi(start, step, k) <= end && AtMostTwoDecimals(edpi / CandidateDpi(start, step, k))
  }

  /** Measure of the remaining loop: the number of steps from `dpi` to `end`. */
  function Remaining(dpi: real, end: real, step: real): real
    requires 0.0 < step
  {
    if dpi <= end then (end - dpi) / step + 1.0 else 0.0
  }

  /** The number of iterations the loop makes from `dpi`. */
  function Iterations(dpi: real, end: real, step: real): int
    requires 0.0 < step
  {
    if dpi <= end then ((end - dpi) / step).Floor + 1 else 0
  }

  lemma StepDown(dpi: real, end: real, step: real)
    requires 0.0 < step
    ensures (end - (dpi + step)) / step == (end - dpi) / step - 1.0
  {
    calc {
      (end - (dpi + step)) / step;
      (end - dpi) / step - step / step;
    }
  }

  lemma RemainingDecreases(dpi: real, end: real, step: real)
    requires 0.0 < step && dpi <= end
    ensures 0.0 <= Remaining(dpi, end, step)
    ensures Remaining(dpi + step, end, step) <= Remaining(dpi, end, step) - 1.0
  {
    StepDown(dpi, end, step);
    assert 0.0 <= (end - dpi) / step;
  }

  /** The pairs the loop pushes, in order, once `dpi` has been reached. */
  function KeptPairs(edpi: real, dpi: real, end: real, step: real): (r: seq<SensDpiPair>)
    requires 0.0 < dpi && 0.0 < step
    ensures forall i :: 0 <= i < |r| ==> AtMostTwoDecimals(r[i].inGameSens)
    decreases Remaining(dpi, end, step)
  {
    if dpi > end then []
    else
      RemainingDecreases(dpi, end, step);
      var sens := edpi / dpi;
      (if AtMostTwoDecimals(sens) then [PairAt(edpi, dpi)] else [])
      + KeptPairs(edpi, dpi + step, end, step)
  }

  /** One iteration of the loop: the pair of `dpi` if it passes the filter, then the rest. */
  lemma KeptPairsUnfold(edpi: real, dpi: real, end: real, step: real)
    requires 0.0 < dpi && 0.0 < step && dpi <= end
    ensures KeptPairs(edpi, dpi, end, step) ==
      (if AtMostTwoDecimals(edpi / dpi) then [SensDpiPair(edpi / dpi, dpi)] else [])
      + KeptPairs(edpi, dpi + step, end, step)
  {
  }

  /** Every kept DPI lies in `[dpi, end]`, and the kept DPIs strictly increase. */
  lemma {:induction false} KeptPairsAscendingInRange(edpi: real, dpi: real, end: real, step: real)
    requires 0.0 < dpi && 0.0 < step
    ensures forall i :: 0 <= i < |KeptPairs(edpi, dpi, end, step)| ==>
      dpi <= KeptPairs(edpi, dpi, end, step)[i].dpi <= end
    ensures forall i, j :: 0 <= i < j < |KeptPairs(edpi, dpi, end, step)| ==>
      KeptPairs(edpi, dpi, end, step)[i].dpi < KeptPairs(edpi, dpi, end, step)[j].dpi
    decreases Remaining(dpi, end, step)
  {
    if dpi <= end {
      RemainingDecreases(dpi, end, step);
      KeptPairsAscendingInRange(edpi, dpi + step, end, step);
    }
  }

  lemma CandidateShift(start: real, step: real, k: nat)
    ensures CandidateDpi(start + step, step, k) == CandidateDpi(start, step, k + 1)
  {
  }

  lemma CandidateAtLeast(start: real, step: real, k: nat)
    requires 0.0 < step
    ensures start <= CandidateDpi(start, step, k)
    ensures 0 < k ==> start + step <= CandidateDpi(start, step, k)
  {
    if 0 < k {
      assert (k - 1) as real * step >= 0.0;
      assert CandidateDpi(start, step, k) == start + step + (k - 1) as real * step;
    }
  }

  /** Soundness of the filter: every kept pair is the pair of a candidate within the bound
      whose sensitivity has at most two decimals. */
  lemma {:induction false} KeptPairsSound(edpi: real, dpi: real, end: real, step: real, q: SensDpiPair)
    requires 0.0 < dpi && 0.0 < step
    requires q in KeptPairs(edpi, dpi, end, step)
    ensures exists k: nat :: KeepsCandidate(edpi, dpi, end, step, k) && q == PairAt(edpi, CandidateDpi(dpi, step, k))
    decreases Remaining(dpi, end, step)
  {
    RemainingDecreases(dpi, end, step);
    if q in KeptPairs(edpi, dpi + step, end, step) {
      KeptPairsSound(edpi, dpi + step, end, step, q);
      var k: nat :| KeepsCandidate(edpi, dpi + step, end, step, k) && q == PairAt(edpi, CandidateDpi(dpi + step, step, k));
      CandidateShift(dpi, step, k);
      assert KeepsCandidate(edpi, dpi, end, step, k + 1);
    } else {
      assert KeepsCandidate(edpi, dpi, end, step, 0) && q == PairAt(edpi, CandidateDpi(dpi, step, 0));
    }
  }

  /** Every kept DPI is one of the candidates, between the start and the bound. */
  lemma KeptPairsOnGrid(edpi: real, dpi: real, end: real, step: real, q: SensDpiPair)
    requires 0.0 < dpi && 0.0 < step
    requires q in KeptPairs(edpi, dpi, end, step)
    ensures dpi <= q.dpi <= end
    ensures exists k: nat :: q.dpi == CandidateDpi(dpi, step, k)
  {
    KeptPairsSound(edpi, dpi, end, step, q);
    var k: nat :| KeepsCandidate(edpi, dpi, end, step, k) && q == PairAt(edpi, CandidateDpi(dpi, step, k));
    CandidateAtLeast(dpi, step, k);
  }

  /** Every kept pair keeps the eDPI and has a sensitivity with at most two decimals. */
  lemma {:induction false} KeptPairsKeepEdpi(edpi: real, dpi: real, end: real, step: real, q: SensDpiPair)
    requires 0.0 < dpi && 0.0 < step
    requires q in KeptPairs(edpi, dpi, end, step)
    ensures q.inGameSens * q.dpi == edpi && AtMostTwoDecimals(q.inGameSens)
    decreases Remaining(dpi, end, step)
  {
    RemainingDecreases(dpi, end, step);
    if q in KeptPairs(edpi, dpi + step, end, step) {
      KeptPairsKeepEdpi(edpi, dpi + step, end, step, q);
    } else {
      assert q == PairAt(edpi, dpi) && AtMostTwoDecimals(edpi / dpi);
      PairKeepsEdpi(edpi, dpi);
    }
  }

  /** Completeness of the filter: the pair of every candidate within the bound whose
      sensitivity has at most two decimals is kept. */
  lemma {:induction false} KeptPairsComplete(edpi: real, dpi: real, end: real, step: real, k: nat)
    requires 0.0 < dpi && 0.0 < step
    requires KeepsCandidate(edpi, dpi, end, step, k)
    ensures PairAt(edpi, CandidateDpi(dpi, step, k)) in KeptPairs(edpi, dpi, end, step)
    decreases k
  {
    CandidateAtLeast(dpi, step, k);
    if 0 < k {
      CandidateShift(dpi, step, k - 1);
      KeptPairsComplete(edpi, dpi + step, end, step, k - 1);
    }
  }

  /** Soundness and completeness together: the table holds exactly the pairs of the kept
      candidates. */
  lemma KeptPairsMember(edpi: real, dpi: real, end: real, step: real, q: SensDpiPair)
    requires 0.0 < dpi && 0.0 < step
    ensures q in KeptPairs(edpi, dpi, end, step) <==>
      exists k: nat :: KeepsCandidate(edpi, dpi, end, step, k) && q == PairAt(edpi, CandidateDpi(dpi, step, k))
  {
    if q in KeptPairs(edpi, dpi, end, step) {
      KeptPairsSound(edpi, dpi, end, step, q);
    }
    if k: nat :| KeepsCandidate(edpi, dpi, end, step, k) && q == PairAt(edpi, CandidateDpi(dpi, step, k)) {
      KeptPairsComplete(edpi, dpi, end, step, k);
    }
  }

  /** The table has at most one row per loop iteration. */
  lemma {:induction false} KeptPairsLength(edpi: real, dpi: real, end: real, step: real)
    requires 0.0 < dpi && 0.0 < step
    ensures |KeptPairs(edpi, dpi, end, step)| <= Iterations(dpi, end, step)
    decreases Remaining(dpi, end, step)
  {
    if dpi <= end {
      RemainingDecreases(dpi, end, step);
      KeptPairsLength(edpi, dpi + step, end, step);
      StepDown(dpi, end, step);
      assert Iterations(dpi + step, end, step) <= Iterations(dpi, end, step) - 1;
    }
  }

  /** For whole numbers the iteration count is `(end - dpi) / step + 1`, with integer division. */
  lemma IterationsOfWholeNumbers(dpi: int, end: int, step: int)
    requires 0 < step
    ensures Iterations(dpi as real, end as real, step as real) == if dpi <= end then (end - dpi) / step + 1 else 0
  {
    if dpi <= end {
      var q, r := (end - dpi) / step, (end - dpi) % step;
      assert end - dpi == q * step + r && 0 <= r < step;
      assert (end - dpi) as real == q as real * step as real + r as real;
      assert (end as real - dpi as real) / step as real == q as real + r as real / step as real;
      assert 0.0 <= r as real / step as real < 1.0;
    }
  }
}
