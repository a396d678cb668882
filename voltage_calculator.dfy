/** The BM1370 voltage calculator (bm1370_voltage_calculator.py): a linear voltage and hashrate
    estimate per frequency, and the fallback that, when the estimate exceeds the 1350 mV limit,
    reports the highest safe frequency below the request from a table of frequency/voltage pairs
    and drops the critical frequency from that table. */
module VoltageCalculator {
  import opened Common

  const MinFrequency: int := 400
  const MaxFrequency: int := 1500
  /** The highest core voltage (mV) that may be reported. */
  const CriticalVoltage: real := 1350.0

  /** The fitted voltage curve, in mV (exact real arithmetic, not IEEE doubles). */
  function CurveVoltage(frequency: int): real {
    0.5829 * frequency as real + 716.65
  }

  /** The estimated hashrate, in GH/s. */
  function CurveHashrate(frequency: int): real {
    2.15 * frequency as real
  }

  /** For whole frequencies the curve stays within the limit exactly up to 1086 MHz. */
  lemma CriticalFrequency(frequency: int)
    ensures CurveVoltage(frequency) > CriticalVoltage <==> frequency >= 1087
  {
    if frequency >= 1087 {
      assert frequency as real >= 1087.0;
    } else {
      assert frequency as real <= 1086.0;
    }
  }

  /** One entry of `valid_pairs`. */
  datatype Pair = Pair(frequency: int, voltage: real)

  /** The voltage and hashrate `calculate_voltage` reports. */
  datatype Estimate = Estimate(voltage: real, hashrate: real)

  /** The `ValueError`s: frequency outside [400, 1500]; no safe pair below the frequency; and
      `range` with a zero step. */
  datatype CalcError = FrequencyOutOfRange | NoSafeFrequency(frequency: int) | ZeroStep

  /** `safe_pairs`: the pairs within the voltage limit whose frequency is below `frequency`,
      in table order. */
  function SafePairs(pairs: seq<Pair>, frequency: int): (r: seq<Pair>)
    ensures |r| <= |pairs|
  {
    if pairs == [] then []
    else
      var rest := SafePairs(pairs[1..], frequency);
      if pairs[0].voltage <= CriticalVoltage && pairs[0].frequency < frequency then [pairs[0]] + rest else rest
  }

  /** The safe pairs are exactly the table's pairs within the limit and below the frequency. */
  lemma {:induction false} SafeMembers(pairs: seq<Pair>, frequency: int)
    ensures forall q :: q in SafePairs(pairs, frequency) <==> q in pairs && q.voltage <= CriticalVoltage && q.frequency < frequency
  {
    if pairs != [] {
      SafeMembers(pairs[1..], frequency);
      assert forall q :: q in pairs <==> q == pairs[0] || q in pairs[1..];
    }
  }

  /** The index of the first pair of greatest frequency: a later pair replaces the current
      maximum only when its frequency is strictly greater. */
  function MaxIndex(pairs: seq<Pair>): (i: nat)
    requires pairs != []
    ensures i < |pairs|
    ensures forall j :: 0 <= j < |pairs| ==> pairs[j].frequency <= pairs[i].frequency
    ensures forall j :: 0 <= j < i ==> pairs[j].frequency < pairs[i].frequency
  {
    if |pairs| == 1 then 0
    else
      var k := MaxIndex(pairs[1..]) + 1;
      assert forall j :: 1 <= j < |pairs| ==> pairs[j] == pairs[1..][j - 1];
      if pairs[0].frequency >= pairs[k].frequency then 0 else k
  }

  /** `max(safe_pairs, key=lambda x: x[0])`: a pair of greatest frequency, the first such. */
  function MaxByFrequency(pairs: seq<Pair>): (r: Pair)
    requires pairs != []
    ensures r in pairs
    ensures forall q :: q in pairs ==> q.frequency <= r.frequency
    ensures exists i :: 0 <= i < |pairs| && pairs[i] == r && forall j :: 0 <= j < i ==> pairs[j].frequency < r.frequency
  {
    var i := MaxIndex(pairs);
    assert pairs[i] == pairs[i];
    pairs[i]
  }

  /** `[(f, v) for f, v in valid_pairs if f != frequency]`. */
  function WithoutFrequency(pairs: seq<Pair>, frequency: int): (r: seq<Pair>)
    ensures forall q :: q in r <==> q in pairs && q.frequency != frequency
    ensures |r| <= |pairs|
  {
    if pairs == [] then []
    else
      var rest := WithoutFrequency(pairs[1..], frequency);
      assert forall q :: q in pairs <==> q == pairs[0] || q in pairs[1..];
      if pairs[0].frequency != frequency then [pairs[0]] + rest else rest
  }

  /** Removal keeps the other pairs in their original order: it distributes over concatenation
      and leaves a table without the frequency as it is. */
  lemma {:induction false} WithoutFrequencyKeepsOrder(a: seq<Pair>, b: seq<Pair>, frequency: int)
    ensures WithoutFrequency(a + b, frequency) == WithoutFrequency(a, frequency) + WithoutFrequency(b, frequency)
    ensures (forall q :: q in a ==> q.frequency != frequency) ==> WithoutFrequency(a, frequency) == a
  {
    if a == [] {
      assert a + b == b;
    } else {
      assert (a + b)[0] == a[0] && (a + b)[1..] == a[1..] + b;
      WithoutFrequencyKeepsOrder(a[1..], b, frequency);
      var rest := WithoutFrequency(a[1..], frequency);
      if a[0].frequency != frequency {
        assert WithoutFrequency(a, frequency) + WithoutFrequency(b, frequency) == [a[0]] + (rest + WithoutFrequency(b, frequency));
      }
      if forall q :: q in a ==> q.frequency != frequency {
        assert forall q :: q in a[1..] ==> q in a;
        assert a == [a[0]] + a[1..];
      }
    }
  }

  /** `calculate_voltage(frequency, valid_pairs)`: the estimate and the table after the call. */
  function Calculate(frequency: int, pairs: seq<Pair>): Result<(Estimate, seq<Pair>), CalcError> {
    if MinFrequency <= frequency <= MaxFrequency then
      var voltage := CurveVoltage(frequency);
      if voltage > CriticalVoltage then
        var safe := SafePairs(pairs, frequency);
        if safe == [] then Err(NoSafeFrequency(frequency))
        else
          var next := MaxByFrequency(safe);
          Ok((Estimate(next.voltage, CurveHashrate(next.frequency)), WithoutFrequency(pairs, frequency)))
      else Ok((Estimate(voltage, CurveHashrate(frequency)), pairs))
    else Err(FrequencyOutOfRange)
  }

  /** Outside [400, 1500] the call raises, whatever the table. */
  lemma CalculateRange(frequency: int, pairs: seq<Pair>)
    ensures Calculate(frequency, pairs) == Err(FrequencyOutOfRange) <==> !(MinFrequency <= frequency <= MaxFrequency)
  {
  }

  /** Within the limit: the curve's voltage and `2.15 * frequency`, the table unchanged. */
  lemma CalculateNominal(frequency: int, pairs: seq<Pair>)
    requires MinFrequency <= frequency <= MaxFrequency && CurveVoltage(frequency) <= CriticalVoltage
    ensures Calculate(frequency, pairs) == Ok((Estimate(CurveVoltage(frequency), CurveHashrate(frequency)), pairs))
  {
  }

  /** Over the limit: when no pair below the frequency is within the limit the call raises (and
      the table is left alone); otherwise the reported voltage is that of the first pair of
      greatest frequency among them, the hashrate is `2.15` times that frequency, and exactly the
      pairs at the requested frequency are removed. */
  lemma CalculateFallback(frequency: int, pairs: seq<Pair>)
    requires MinFrequency <= frequency <= MaxFrequency && CurveVoltage(frequency) > CriticalVoltage
    ensures (forall q :: q in pairs ==> !(q.voltage <= CriticalVoltage && q.frequency < frequency))
            <==> Calculate(frequency, pairs) == Err(NoSafeFrequency(frequency))
    ensures Calculate(frequency, pairs).Ok? ==>
      var (est, pairs') := Calculate(frequency, pairs).value;
      exists i :: 0 <= i < |pairs|
        && pairs[i].voltage <= CriticalVoltage && pairs[i].frequency < frequency
        && est == Estimate(pairs[i].voltage, CurveHashrate(pairs[i].frequency))
        && (forall q :: q in pairs && q.voltage <= CriticalVoltage && q.frequency < frequency ==> q.frequency <= pairs[i].frequency)
        && (forall j :: 0 <= j < i && pairs[j].voltage <= CriticalVoltage && pairs[j].frequency < frequency
              ==> pairs[j].frequency < pairs[i].frequency)
    ensures Calculate(frequency, pairs).Ok? ==> Calculate(frequency, pairs).value.1 == WithoutFrequency(pairs, frequency)
  {
    var safe := SafePairs(pairs, frequency);
    SafeMembers(pairs, frequency);
    if safe != [] {
      assert safe[0] in safe;
      var next := MaxByFrequency(safe);
      FirstInTable(pairs, frequency, next);
    }
  }

  /** The first pair of greatest frequency among the safe pairs is, in the table itself, a safe
      pair preceded by safe pairs of lower frequency only. */
  lemma {:induction false} FirstInTable(pairs: seq<Pair>, frequency: int, next: Pair)
    requires SafePairs(pairs, frequency) != [] && next == MaxByFrequency(SafePairs(pairs, frequency))
    ensures exists i :: (0 <= i < |pairs| && pairs[i] == next
      && (forall j :: 0 <= j < i && pairs[j].voltage <= CriticalVoltage && pairs[j].frequency < frequency
            ==> pairs[j].frequency < next.frequency))
  {
    var safe := SafePairs(pairs, frequency);
    var k :| 0 <= k < |safe| && safe[k] == next && forall j :: 0 <= j < k ==> safe[j].frequency < next.frequency;
    var i := FilterIndex(pairs, frequency, k);
    forall j | 0 <= j < i && pairs[j].voltage <= CriticalVoltage && pairs[j].frequency < frequency
      ensures pairs[j].frequency < next.frequency
    {
      var kj := FilterIndexBefore(pairs, frequency, j, i, k);
      assert safe[kj] == pairs[j];
    }
  }

  /** The safe pairs of a non-empty table: its first pair, if safe, then those of the rest. */
  lemma SafeUnfold(pairs: seq<Pair>, frequency: int)
    requires pairs != []
    ensures SafePairs(pairs, frequency)
      == (if pairs[0].voltage <= CriticalVoltage && pairs[0].frequency < frequency then [pairs[0]] else []) + SafePairs(pairs[1..], frequency)
  {
  }

  /** Element `k` of the safe pairs sits at some index `i` of the table. */
  lemma {:induction false} FilterIndex(pairs: seq<Pair>, frequency: int, k: nat) returns (i: nat)
    requires k < |SafePairs(pairs, frequency)|
    ensures i < |pairs| && pairs[i] == SafePairs(pairs, frequency)[k]
    ensures |SafePairs(pairs[..i], frequency)| == k
  {
    var head := pairs[0].voltage <= CriticalVoltage && pairs[0].frequency < frequency;
    SafeUnfold(pairs, frequency);
    if head && k == 0 {
      i := 0;
      assert pairs[..0] == [];
    } else {
      var k' := if head then k - 1 else k;
      var i' := FilterIndex(pairs[1..], frequency, k');
      i := i' + 1;
      var pre := pairs[..i];
      assert pre[0] == pairs[0] && pre[1..] == pairs[1..][..i'];
      SafeUnfold(pre, frequency);
    }
  }

  /** A safe pair before index `i` of the table comes before element `k` of the safe pairs, if
      `i` is where that element sits. */
  lemma {:induction false} FilterIndexBefore(pairs: seq<Pair>, frequency: int, j: nat, i: nat, k: nat) returns (kj: nat)
    requires j < i < |pairs| && |SafePairs(pairs[..i], frequency)| == k && k < |SafePairs(pairs, frequency)|
    requires pairs[j].voltage <= CriticalVoltage && pairs[j].frequency < frequency
    ensures kj < k && SafePairs(pairs, frequency)[kj] == pairs[j]
  {
    var pre := pairs[..i];
    assert pre[0] == pairs[0] && pre[1..] == pairs[1..][..i - 1];
    SafeUnfold(pairs, frequency);
    SafeUnfold(pre, frequency);
    var head := pairs[0].voltage <= CriticalVoltage && pairs[0].frequency < frequency;
    if j == 0 {
      kj := 0;
    } else {
      var k' := if head then k - 1 else k;
      var kj' := FilterIndexBefore(pairs[1..], frequency, j - 1, i - 1, k');
      kj := if head then kj' + 1 else kj';
    }
  }

  /** Whatever the table holds, a reported voltage never exceeds the limit. */
  lemma CalculateSafe(frequency: int, pairs: seq<Pair>)
    ensures Calculate(frequency, pairs).Ok? ==> Calculate(frequency, pairs).value.0.voltage <= CriticalVoltage
  {
    if MinFrequency <= frequency <= MaxFrequency && CurveVoltage(frequency) > CriticalVoltage {
      var safe := SafePairs(pairs, frequency);
      if safe != [] {
        SafeMembers(pairs, frequency);
        assert MaxByFrequency(safe) in safe;
      }
    }
  }

  /** `valid_pairs` as `calculate_voltage` changes it in place. */
  class PairTable {
    var pairs: seq<Pair>

    constructor (pairs: seq<Pair>)
      ensures this.pairs == pairs
    {
      this.pairs := pairs;
    }

    /** `calculate_voltage(frequency, valid_pairs)`: on success the estimate and the table
        after the slice assignment; on a `ValueError` the table unchanged. */
    method CalculateVoltage(frequency: int) returns (r: Result<Estimate, CalcError>)
      modifies this
      ensures Calculate(frequency, old(pairs)).Ok? ==>
                r == Ok(Calculate(frequency, old(pairs)).value.0) && pairs == Calculate(frequency, old(pairs)).value.1
      ensures Calculate(frequency, old(pairs)).Err? ==> r == Err(Calculate(frequency, old(pairs)).error) && pairs == old(pairs)
    {
      if MinFrequency <= frequency <= MaxFrequency {
        var voltage := 0.5829 * frequency as real + 716.65;
        var hashrate := 2.15 * frequency as real;
        if voltage > CriticalVoltage {
          var safe := SafePairs(pairs, frequency);
          if safe == [] {
            return Err(NoSafeFrequency(frequency));
          }
          var next := MaxByFrequency(safe);
          pairs := WithoutFrequency(pairs, frequency);
          return Ok(Estimate(next.voltage, 2.15 * next.frequency as real));
        }
        return Ok(Estimate(voltage, hashrate));
      } else {
        return Err(FrequencyOutOfRange);
      }
    }
  }

  /** `valid_pairs` as built: one pair per frequency, on the curve. */
  function BuildPairs(frequencies: seq<int>): (r: seq<Pair>)
    ensures |r| == |frequencies|
    ensures forall i :: 0 <= i < |r| ==> r[i] == Pair(frequencies[i], CurveVoltage(frequencies[i]))
  {
    seq(|frequencies|, i requires 0 <= i < |frequencies| => Pair(frequencies[i], CurveVoltage(frequencies[i])))
  }

  /** The table of `process_frequencies(start, end, step)` for a positive step: one pair per
      frequency of `range(start, end, step)`, first at `start`, strictly ascending and below `end`. */
  lemma TableOfRange(start: int, end: int, step: int)
    requires step > 0
    ensures var fs := Range(start, end, step); var t := BuildPairs(fs);
      && |t| == |fs| == (if start < end then (end - start - 1) / step + 1 else 0)
      && (forall i :: 0 <= i < |t| ==> t[i].frequency == start + i * step && start <= t[i].frequency < end)
      && (forall i, j :: 0 <= i < j < |t| ==> t[i].frequency < t[j].frequency)
      && (forall i :: 0 <= i < |t| ==> t[i].voltage == CurveVoltage(t[i].frequency))
  {
    var fs := Range(start, end, step);
    RangeLength(start, end, step);
    forall i | 0 <= i < |fs| ensures fs[i] == start + i * step && start <= fs[i] < end {
      RangeElement(start, end, step, i);
    }
    forall i, j | 0 <= i < j < |fs| ensures fs[i] < fs[j] {
      RangeAscending(start, end, step, i, j);
    }
  }

  /** One line of output: the frequency, and the voltage and hashrate reported for it. */
  datatype Row = Row(frequency: int, estimate: Estimate)

  /** Python's `int(x)`: truncation toward zero. */
  function Truncate(x: real): (n: int)
    ensures x >= 0.0 ==> n as real <= x < n as real + 1.0
    ensures x < 0.0 ==> n as real - 1.0 < x <= n as real
  {
    if x >= 0.0 then x.Floor else -((-x).Floor)
  }

  /** Truncation keeps a value at most a whole bound at most that bound. */
  lemma TruncateAtMost(x: real, bound: int)
    requires x <= bound as real
    ensures Truncate(x) <= bound
  {
  }

  /** The CSV record of a row: `[int(voltage_mv), freq]`. */
  function CsvRecord(row: Row): (int, int) {
    (Truncate(row.estimate.voltage), row.frequency)
  }

  /** What the loop of `process_frequencies` has produced: the rows printed, the table, and the
      `ValueError` that ended it, if any. */
  datatype Processed = Processed(rows: seq<Row>, pairs: seq<Pair>, error: Option<CalcError>)

  /** The loop over `frequencies` from the table `pairs`. What its rows are is proved by
      `ProcessRowsFollow`, `ProcessRowsSafe` and `ProcessRowsNominal`. */
  function ProcessSpec(frequencies: seq<int>, pairs: seq<Pair>): (r: Processed)
    ensures |r.rows| <= |frequencies|
    decreases |frequencies|
  {
    if frequencies == [] then Processed([], pairs, None)
    else
      match Calculate(frequencies[0], pairs)
      case Err(e) => Processed([], pairs, Some(e))
      case Ok((est, pairs')) =>
        var rest := ProcessSpec(frequencies[1..], pairs');
        Processed([Row(frequencies[0], est)] + rest.rows, rest.pairs, rest.error)
  }

  /** `process_frequencies(start, end, step)`: the rows printed before it finished or raised. */
  function ProcessAll(start: int, end: int, step: int): Processed {
    if step == 0 then Processed([], [], Some(ZeroStep))
    else
      var frequencies := Range(start, end, step);
      ProcessSpec(frequencies, BuildPairs(frequencies))
  }

  /** `process_frequencies(start, end, step)`: build the table, then call `calculate_voltage` for
      each frequency in turn; a `ValueError` ends the loop. */
  method ProcessFrequencies(start: int, end: int, step: int) returns (rows: seq<Row>, error: Option<CalcError>)
    ensures var r := ProcessAll(start, end, step); rows == r.rows && error == r.error
  {
    if step == 0 {
      return [], Some(ZeroStep);
    }
    var frequencies := Range(start, end, step);
    var table := new PairTable(BuildPairs(frequencies));
    rows := [];
    for i := 0 to |frequencies|
      invariant var rest := ProcessSpec(frequencies[i..], table.pairs);
        ProcessAll(start, end, step) == Processed(rows + rest.rows, rest.pairs, rest.error)
    {
      assert frequencies[i..][1..] == frequencies[i + 1..];
      var r := table.CalculateVoltage(frequencies[i]);
      if r.Err? {
        return rows, Some(r.error);
      }
      ghost var rest := ProcessSpec(frequencies[i + 1..], table.pairs);
      assert rows + ([Row(frequencies[i], r.value)] + rest.rows) == (rows + [Row(frequencies[i], r.value)]) + rest.rows;
      rows := rows + [Row(frequencies[i], r.value)];
    }
    assert frequencies[|frequencies|..] == [];
    return rows, None;
  }

  /** The rows follow the frequencies in order, one each until an error. */
  lemma {:induction false} ProcessRowsFollow(frequencies: seq<int>, pairs: seq<Pair>)
    ensures var r := ProcessSpec(frequencies, pairs);
      && (r.error.None? ==> |r.rows| == |frequencies|)
      && (forall i :: 0 <= i < |r.rows| ==> r.rows[i].frequency == frequencies[i])
    decreases |frequencies|
  {
    if frequencies != [] {
      match Calculate(frequencies[0], pairs)
      case Err(_) =>
      case Ok((est, pairs')) =>
        ProcessRowsFollow(frequencies[1..], pairs');
        var r := ProcessSpec(frequencies, pairs);
        forall i | 0 <= i < |r.rows| ensures r.rows[i].frequency == frequencies[i] {
          if i > 0 {
            assert frequencies[i] == frequencies[1..][i - 1];
          }
        }
    }
  }

  /** Every reported voltage is within the limit, and so is every voltage written to the CSV. */
  lemma {:induction false} ProcessRowsSafe(frequencies: seq<int>, pairs: seq<Pair>)
    ensures var r := ProcessSpec(frequencies, pairs);
      && (forall i :: 0 <= i < |r.rows| ==> r.rows[i].estimate.voltage <= CriticalVoltage)
      && (forall i :: 0 <= i < |r.rows| ==> CsvRecord(r.rows[i]).0 <= 1350)
    decreases |frequencies|
  {
    if frequencies != [] {
      CalculateSafe(frequencies[0], pairs);
      match Calculate(frequencies[0], pairs)
      case Err(_) =>
      case Ok((est, pairs')) =>
        ProcessRowsSafe(frequencies[1..], pairs');
        var r := ProcessSpec(frequencies, pairs);
        forall i | 0 <= i < |r.rows| ensures CsvRecord(r.rows[i]).0 <= 1350 {
          if i > 0 {
            assert r.rows[i] == ProcessSpec(frequencies[1..], pairs').rows[i - 1];
          }
          TruncateAtMost(r.rows[i].estimate.voltage, 1350);
        }
    }
  }

  /** A row reports the curve itself whenever the curve is within the limit at its frequency. */
  lemma {:induction false} ProcessRowsNominal(frequencies: seq<int>, pairs: seq<Pair>)
    ensures var r := ProcessSpec(frequencies, pairs);
      forall i :: 0 <= i < |r.rows| && CurveVoltage(frequencies[i]) <= CriticalVoltage
        ==> r.rows[i].estimate == Estimate(CurveVoltage(frequencies[i]), CurveHashrate(frequencies[i]))
    decreases |frequencies|
  {
    if frequencies != [] {
      var f := frequencies[0];
      match Calculate(f, pairs)
      case Err(_) =>
      case Ok((est, pairs')) =>
        ProcessRowsNominal(frequencies[1..], pairs');
        var r := ProcessSpec(frequencies, pairs);
        forall i | 0 <= i < |r.rows| && CurveVoltage(frequencies[i]) <= CriticalVoltage
          ensures r.rows[i].estimate == Estimate(CurveVoltage(frequencies[i]), CurveHashrate(frequencies[i]))
        {
          if i == 0 {
            CalculateNominal(f, pairs);
          } else {
            assert frequencies[i] == frequencies[1..][i - 1];
          }
        }
    }
  }

  /** A table on the curve (every pair at the curve's voltage for its frequency). */
  predicate OnCurve(pairs: seq<Pair>) {
    forall q :: q in pairs ==> q.voltage == CurveVoltage(q.frequency)
  }

  /** Pairs within the limit are never removed from a table on the curve: removal takes only
      the requested frequency, and that frequency is over the limit. */
  lemma {:induction false} ProcessKeepsSafePairs(frequencies: seq<int>, pairs: seq<Pair>)
    requires OnCurve(pairs)
    ensures var r := ProcessSpec(frequencies, pairs);
      OnCurve(r.pairs) && forall q :: q in pairs && q.voltage <= CriticalVoltage ==> q in r.pairs
    decreases |frequencies|
  {
    if frequencies != [] {
      var f := frequencies[0];
      match Calculate(f, pairs)
      case Err(_) =>
      case Ok((est, pairs')) =>
        forall q | q in pairs && q.voltage <= CriticalVoltage ensures q in pairs' {
          if pairs' != pairs {
            assert pairs' == WithoutFrequency(pairs, f) && CurveVoltage(f) > CriticalVoltage;
          }
        }
        ProcessKeepsSafePairs(frequencies[1..], pairs');
    }
  }

  /** The default invocation, 600 to 1000 MHz in steps of 5, never falls back: all 80 rows are
      the curve itself and the table is unchanged. */
  lemma {:induction false} NominalSweep(frequencies: seq<int>, pairs: seq<Pair>)
    requires forall i :: 0 <= i < |frequencies| ==> MinFrequency <= frequencies[i] <= 1086
    ensures ProcessSpec(frequencies, pairs).error.None? && ProcessSpec(frequencies, pairs).pairs == pairs
    decreases |frequencies|
  {
    if frequencies != [] {
      CriticalFrequency(frequencies[0]);
      CalculateNominal(frequencies[0], pairs);
      NominalSweep(frequencies[1..], pairs);
    }
  }

  /** A sweep whose frequencies all stay within the limit, such as the default 600 to 1000 MHz
      in steps of 5, never falls back: every row is the curve itself. */
  lemma NominalRange(start: int, end: int, step: int)
    requires step > 0 && MinFrequency <= start && end <= 1087
    ensures var r := ProcessAll(start, end, step);
      r.error.None? && |r.rows| == (if start < end then (end - start - 1) / step + 1 else 0)
      && forall i :: 0 <= i < |r.rows| ==> r.rows[i] == Row(start + step * i, Estimate(CurveVoltage(start + step * i), CurveHashrate(start + step * i)))
  {
    var fs := Range(start, end, step);
    TableOfRange(start, end, step);
    NominalSweep(fs, BuildPairs(fs));
    ProcessRowsFollow(fs, BuildPairs(fs));
    ProcessRowsNominal(fs, BuildPairs(fs));
    forall i | 0 <= i < |fs| ensures CurveVoltage(fs[i]) <= CriticalVoltage && fs[i] == start + step * i {
      RangeElement(start, end, step, i);
      CriticalFrequency(fs[i]);
    }
  }

  /** The default invocation, 600 to 1000 MHz in steps of 5: 80 rows on the curve. */
  lemma DefaultInvocation()
    ensures var r := ProcessAll(600, 1000, 5);
      r.error.None? && |r.rows| == 80
      && forall i :: 0 <= i < 80 ==> r.rows[i] == Row(600 + 5 * i, Estimate(CurveVoltage(600 + 5 * i), CurveHashrate(600 + 5 * i)))
  {
    NominalRange(600, 1000, 5);
  }

  /** A sweep across the limit, 1080 to 1095 MHz in steps of 5: 1090 MHz is over the limit and
      reports the pair at 1085 MHz, after which the table no longer holds 1090 MHz. */
  lemma FallbackScenario()
    ensures var p0 := BuildPairs([1080, 1085, 1090]);
      var r := ProcessSpec([1080, 1085, 1090], p0);
      && r.error.None?
      && r.rows[2] == Row(1090, Estimate(CurveVoltage(1085), CurveHashrate(1085)))
      && r.pairs == p0[..2]
  {
    var p0 := BuildPairs([1080, 1085, 1090]);
    CriticalFrequency(1080);
    CriticalFrequency(1085);
    CriticalFrequency(1090);
    CalculateNominal(1080, p0);
    CalculateNominal(1085, p0);
    var safe := SafePairs(p0, 1090);
    assert safe == p0[..2];
    assert MaxByFrequency(safe) == p0[1];
    assert WithoutFrequency(p0, 1090) == p0[..2];
  }
}
