/** The stall/reboot detector inside `run_test`: consecutive identical hashrate readings are
    counted, and once the count exceeds the reboot threshold a restart is requested
    (bitaxe_status_logger.py). */
module StallDetector {
  import opened Common

  /** `identical_hashrate_count` and `last_hashrate`. */
  datatype StallState = StallState(identicalCount: nat, lastHashrate: Option<real>)

  /** The detector at the start of a run, and after a successful restart. */
  const Fresh: StallState := StallState(0, None)

  /** The detector after one reading, and whether a restart was requested for it. */
  datatype Observation = Observation(next: StallState, rebootAttempted: bool)

  /** One reading `current` seen by the detector. The comparison is exact equality, and a
      restart is requested when the count is strictly greater than `threshold`; `rebootOk` is
      whether that restart request succeeded. */
  function Observe(st: StallState, current: real, threshold: int, rebootOk: bool): (r: Observation)
    ensures st.lastHashrate != Some(current) ==> r == Observation(StallState(1, Some(current)), false)
    ensures r.rebootAttempted <==> st.lastHashrate == Some(current) && st.identicalCount + 1 > threshold
    ensures st.lastHashrate == Some(current) && !(r.rebootAttempted && rebootOk)
            ==> r.next == StallState(st.identicalCount + 1, st.lastHashrate)
    ensures r.rebootAttempted && rebootOk ==> r.next == Fresh
  {
    if st.lastHashrate == Some(current) then
      var count := st.identicalCount + 1;
      if count > threshold then
        if rebootOk then Observation(Fresh, true)
        else Observation(StallState(count, st.lastHashrate), true)
      else Observation(StallState(count, st.lastHashrate), false)
    else Observation(StallState(1, Some(current)), false)
  }

  /** The detector after a list of readings, with the number of restarts requested on the way
      (every restart succeeding when `rebootOk`, every one failing otherwise). */
  function ObserveAll(st: StallState, readings: seq<real>, threshold: int, rebootOk: bool): (StallState, nat) {
    if readings == [] then (st, 0)
    else
      var (before, n) := ObserveAll(st, readings[..|readings| - 1], threshold, rebootOk);
      var o := Observe(before, readings[|readings| - 1], threshold, rebootOk);
      (o.next, n + if o.rebootAttempted then 1 else 0)
  }

  function Repeat(h: real, m: nat): (r: seq<real>)
    ensures |r| == m && forall i :: 0 <= i < m ==> r[i] == h
  {
    seq(m, _ => h)
  }

  /** One more reading past a remainder that is not the last before a multiple. */
  lemma DivModStep(m: nat, d: int)
    requires d > 1
    ensures m % d + 1 < d ==> (m + 1) % d == m % d + 1 && (m + 1) / d == m / d
    ensures m % d + 1 == d ==> (m + 1) % d == 0 && (m + 1) / d == m / d + 1
  {
    var q, r := m / d, m % d;
    assert m == q * d + r;
    if r + 1 < d {
      DivModUnique(m + 1, d, q, r + 1);
    } else {
      DivModUnique(m + 1, d, q + 1, 0);
    }
  }

  /** With restarts that succeed, `m` identical readings from a fresh detector request a restart
      every `threshold + 1` readings: `m / (threshold + 1)` restarts in all, leaving the counter
      at `m % (threshold + 1)` (0 right after a restart, with the last reading forgotten). */
  lemma {:induction false} RebootsPeriodically(h: real, m: nat, threshold: int)
    requires threshold >= 1
    ensures ObserveAll(Fresh, Repeat(h, m), threshold, true)
            == (StallState(m % (threshold + 1), if m % (threshold + 1) == 0 then None else Some(h)),
                m / (threshold + 1))
  {
    var d := threshold + 1;
    if m > 0 {
      assert Repeat(h, m)[..m - 1] == Repeat(h, m - 1);
      RebootsPeriodically(h, m - 1, threshold);
      DivModStep(m - 1, d);
    }
  }

  /** In particular the reboot threshold `n` is reached by `n + 1` identical readings: they make
      exactly one restart request, after which the counter is back to 0. */
  lemma OneRebootAfterThresholdPlusOne(h: real, threshold: int)
    requires threshold >= 1
    ensures ObserveAll(Fresh, Repeat(h, threshold + 1), threshold, true) == (Fresh, 1)
    ensures ObserveAll(Fresh, Repeat(h, threshold), threshold, true).1 == 0
  {
    RebootsPeriodically(h, threshold + 1, threshold);
    RebootsPeriodically(h, threshold, threshold);
    DivModUnique(threshold + 1, threshold + 1, 1, 0);
    DivModUnique(threshold, threshold + 1, 0, threshold);
  }

  /** With restarts that fail, the counter keeps climbing and every identical reading past the
      threshold requests another restart. */
  lemma {:induction false} FailedRebootsRetry(h: real, m: nat, threshold: int)
    requires threshold >= 1
    ensures ObserveAll(Fresh, Repeat(h, m), threshold, false)
            == (StallState(m, if m == 0 then None else Some(h)), if m > threshold then m - threshold else 0)
  {
    if m > 0 {
      assert Repeat(h, m)[..m - 1] == Repeat(h, m - 1);
      FailedRebootsRetry(h, m - 1, threshold);
    }
  }
}
