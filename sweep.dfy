/** The frequency sweep of `main`: the start point, the candidate frequencies and the
    `total_tests` count (bitaxe_status_logger.py). */
module Sweep {
  import opened Common

  /** The candidate frequencies `range(f0 - r, f0 + r + 1, step)` of a sweep around `f0`. */
  function Candidates(f0: int, r: int, step: int): seq<int>
    requires step > 0
  {
    Range(f0 - r, f0 + r + 1, step)
  }

  /** `total_tests`: 1 in monitor mode, else `((f0 + r) - (f0 - r)) // step + 1` (floor division
      by a positive step agrees with Dafny's `/`). */
  function TotalTests(f0: int, r: int, step: int, monitor: bool): int
    requires monitor || step > 0
  {
    if monitor then 1 else ((f0 + r) - (f0 - r)) / step + 1
  }

  /** The frequency set before the first run: `f0` in monitor mode, else `f0 - r`. */
  function StartFrequency(f0: int, r: int, monitor: bool): int {
    if monitor then f0 else f0 - r
  }

  /** `total_tests` is exactly the number of candidates, for every valid range and step. */
  lemma CandidatesCount(f0: int, r: int, step: int)
    requires r >= 0 && step > 0
    ensures |Candidates(f0, r, step)| == TotalTests(f0, r, step, false) >= 1
  {
    RangeLength(f0 - r, f0 + r + 1, step);
    assert (f0 + r + 1) - (f0 - r) - 1 == (f0 + r) - (f0 - r);
    assert (f0 + r) - (f0 - r) >= 0;
  }

  /** Candidate `i` is `f0 - r + i * step`; all lie within `[f0 - r, f0 + r]`, strictly
      ascending, and the first is the start frequency. */
  lemma CandidateAt(f0: int, r: int, step: int, i: nat)
    requires r >= 0 && step > 0 && i < |Candidates(f0, r, step)|
    ensures Candidates(f0, r, step)[i] == f0 - r + i * step
    ensures f0 - r <= Candidates(f0, r, step)[i] <= f0 + r
    ensures i == 0 ==> Candidates(f0, r, step)[i] == StartFrequency(f0, r, false)
    ensures i > 0 ==> Candidates(f0, r, step)[i - 1] < Candidates(f0, r, step)[i]
  {
    RangeElement(f0 - r, f0 + r + 1, step, i);
    if i > 0 {
      RangeAscending(f0 - r, f0 + r + 1, step, i - 1, i);
    }
  }

  /** The documented scenario: centre 650 MHz, range 10, step 2 gives the eleven candidates
      640, 642, ..., 660. */
  lemma SweepScenario()
    ensures Candidates(650, 10, 2) == [640, 642, 644, 646, 648, 650, 652, 654, 656, 658, 660]
    ensures TotalTests(650, 10, 2, false) == 11
  {
  }
}
