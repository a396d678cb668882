/** Best-result tracking (`best_hashrate`, `best_frequency`, `best_voltage`): a run's average
    hashrate replaces the stored best only when it is strictly greater
    (bitaxe_status_logger.py). */
module BestResult {
  import opened Common

  datatype Best = Best(hashrate: real, frequency: Option<int>, coreVoltage: Option<int>)

  /** The initial values: `best_hashrate = 0.0`, no best frequency or voltage. */
  const NoBest: Best := Best(0.0, None, None)

  /** Either nothing is recorded yet, or a point is recorded together with a positive average. */
  predicate Valid(b: Best) {
    || (b.frequency.None? && b.coreVoltage.None? && b.hashrate == 0.0)
    || (b.frequency.Some? && b.coreVoltage.Some? && b.hashrate > 0.0)
  }

  /** The best after a run at `(frequency, coreVoltage)` whose hashrate readings sum to `sum`
      over `count` readings: updated outside monitor mode, when the run has readings, and when
      its average strictly exceeds the stored best. */
  function RecordRun(b: Best, monitor: bool, sum: real, count: nat, frequency: int, coreVoltage: int): (r: Best)
    ensures monitor || count == 0 ==> r == b
    ensures !monitor && count > 0 && sum / count as real > b.hashrate
            ==> r == Best(sum / count as real, Some(frequency), Some(coreVoltage))
    ensures !monitor && count > 0 && sum / count as real <= b.hashrate ==> r == b
    ensures r.hashrate >= b.hashrate
  {
    if !monitor && count > 0 && sum / count as real > b.hashrate then
      Best(sum / count as real, Some(frequency), Some(coreVoltage))
    else b
  }

  lemma RecordRunKeepsValid(b: Best, monitor: bool, sum: real, count: nat, frequency: int, coreVoltage: int)
    requires Valid(b)
    ensures Valid(RecordRun(b, monitor, sum, count, frequency, coreVoltage))
  {
  }

  /** A run whose average only equals the stored best leaves it untouched. */
  lemma EqualAverageKeepsBest(b: Best, sum: real, count: nat, frequency: int, coreVoltage: int)
    requires count > 0 && sum / count as real == b.hashrate
    ensures RecordRun(b, false, sum, count, frequency, coreVoltage) == b
  {
  }

  /** The hashrate sum and count of one completed (non-monitor) run at one point. */
  datatype RunSummary = RunSummary(frequency: int, coreVoltage: int, sum: real, count: nat)

  function Average(r: RunSummary): real
    requires r.count > 0
  {
    r.sum / r.count as real
  }

  /** The best after a sequence of runs, in order. */
  function RecordAll(b: Best, runs: seq<RunSummary>): Best {
    if runs == [] then b
    else
      var last := runs[|runs| - 1];
      RecordRun(RecordAll(b, runs[..|runs| - 1]), false, last.sum, last.count, last.frequency, last.coreVoltage)
  }

  /** Over a whole sweep, the recorded best is the maximum average among runs with readings, at
      the FIRST run that reached it (a later tie never replaces it); when no run averaged above
      zero nothing is recorded. */
  lemma {:induction false} BestIsFirstMaximum(runs: seq<RunSummary>)
    ensures var b := RecordAll(NoBest, runs);
      && Valid(b)
      && (forall i :: 0 <= i < |runs| && runs[i].count > 0 ==> Average(runs[i]) <= b.hashrate)
      && (b.frequency.None? ==> b.hashrate == 0.0)
      && (b.frequency.Some? ==>
            exists i :: 0 <= i < |runs| && runs[i].count > 0 && Average(runs[i]) == b.hashrate
              && b.frequency == Some(runs[i].frequency) && b.coreVoltage == Some(runs[i].coreVoltage)
              && forall j :: 0 <= j < i && runs[j].count > 0 ==> Average(runs[j]) < b.hashrate)
  {
    if runs != [] {
      var init, last := runs[..|runs| - 1], runs[|runs| - 1];
      BestIsFirstMaximum(init);
      var b0 := RecordAll(NoBest, init);
      var b := RecordAll(NoBest, runs);
      RecordRunKeepsValid(b0, false, last.sum, last.count, last.frequency, last.coreVoltage);
      forall i | 0 <= i < |runs| && runs[i].count > 0 ensures Average(runs[i]) <= b.hashrate {
        if i < |init| {
          assert runs[i] == init[i];
        }
      }
      if b != b0 {
        forall j | 0 <= j < |init| && runs[j].count > 0 ensures Average(runs[j]) < b.hashrate {
          assert runs[j] == init[j];
        }
      } else if b.frequency.Some? {
        var i :| 0 <= i < |init| && init[i].count > 0 && Average(init[i]) == b0.hashrate
          && b0.frequency == Some(init[i].frequency) && b0.coreVoltage == Some(init[i].coreVoltage)
          && forall j :: 0 <= j < i && init[j].count > 0 ==> Average(init[j]) < b0.hashrate;
        assert runs[i] == init[i];
        forall j | 0 <= j < i && runs[j].count > 0 ensures Average(runs[j]) < b.hashrate {
          assert runs[j] == init[j];
        }
      }
    }
  }
}
