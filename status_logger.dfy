/** The controller of bitaxe_status_logger.py as the program runs it: the module-level
    globals become the fields of `SessionState`, the per-run dictionaries those of `RunStats`,
    and each function that changes them a method. Every method is proved to compute the
    corresponding function of `RunModel`, so the properties proved there hold of it. The device,
    the clock and the operator are the inputs of `RunModel`. */
module StatusLogger {
  import opened Common
  import opened Telemetry
  import opened Settings
  import opened Safety
  import opened StallDetector
  import opened BestResult
  import opened Sweep
  import opened Arguments
  import opened RunModel

  /** The dictionary `m` has had the fields before position `i` (in `system_info` order)
      moved from `before` to `after`, and still holds `before` at all the others. */
  ghost predicate UpdatedUpTo<V>(m: map<Field, V>, before: map<Field, V>, after: map<Field, V>, i: nat) {
    forall k: Field {:trigger IndexOf(k)} :: k in m && k in before && k in after && m[k] == (if IndexOf(k) < i then after[k] else before[k])
  }

  /** The field at position `i` is next to be moved, so it still holds its old value. */
  lemma UpdatedNext<V>(m: map<Field, V>, before: map<Field, V>, after: map<Field, V>, i: nat)
    requires i < FieldCount && UpdatedUpTo(m, before, after, i)
    ensures FieldAt(i) in m && FieldAt(i) in before && FieldAt(i) in after && m[FieldAt(i)] == before[FieldAt(i)]
  {
    IndexOfFieldAt(i);
  }

  /** Moving the field at position `i` to its target value (`m'` is `m` with that field
      updated) extends the moved prefix by one. */
  lemma UpdatedStep<V>(m: map<Field, V>, m': map<Field, V>, before: map<Field, V>, after: map<Field, V>, i: nat)
    requires i < FieldCount && UpdatedUpTo(m, before, after, i)
    requires FieldAt(i) in after && m' == m[FieldAt(i) := after[FieldAt(i)]]
    ensures UpdatedUpTo(m', before, after, i + 1)
  {
    var k := FieldAt(i);
    IndexOfFieldAt(i);
    forall j: Field
      ensures j in m' && j in before && j in after && m'[j] == (if IndexOf(j) < i + 1 then after[j] else before[j])
    {
      if j != k {
        assert FieldAt(IndexOf(j)) == j;
        assert m'[j] == m[j];
      }
    }
  }

  /** A dictionary with every field moved is the target dictionary. */
  lemma UpdatedAll<V>(m: map<Field, V>, before: map<Field, V>, after: map<Field, V>)
    requires UpdatedUpTo(m, before, after, FieldCount)
    ensures m == after
  {
    forall k: Field ensures k in m && k in after && m[k] == after[k] {
      assert IndexOf(k) < FieldCount;
    }
    assert m.Keys == after.Keys;
  }

  /** The body of `for key in system_info` in `fetch_system_info`: every field of the reading
      moves the run's min, max, sum and count and the global min and max of that field. */
  method FoldReading(
    runMin: map<Field, Ext>, runMax: map<Field, Ext>, runSum: map<Field, real>, runCount: map<Field, nat>,
    gMin: map<Field, Ext>, gMax: map<Field, Ext>, s: Snapshot)
    returns (runMin': map<Field, Ext>, runMax': map<Field, Ext>, runSum': map<Field, real>,
             runCount': map<Field, nat>, gMin': map<Field, Ext>, gMax': map<Field, Ext>)
    requires forall k: Field :: k in runMin && k in runMax && k in runSum && k in runCount && k in gMin && k in gMax
    ensures runMin' == Lowered(runMin, s) && runMax' == Raised(runMax, s)
    ensures runSum' == Added(runSum, s) && runCount' == Counted(runCount)
    ensures gMin' == Lowered(gMin, s) && gMax' == Raised(gMax, s)
  {
    runMin', runMax', runSum', runCount', gMin', gMax' := runMin, runMax, runSum, runCount, gMin, gMax;
    for i := 0 to FieldCount
      invariant UpdatedUpTo(runMin', runMin, Lowered(runMin, s), i)
      invariant UpdatedUpTo(runMax', runMax, Raised(runMax, s), i)
      invariant UpdatedUpTo(runSum', runSum, Added(runSum, s), i)
      invariant UpdatedUpTo(runCount', runCount, Counted(runCount), i)
      invariant UpdatedUpTo(gMin', gMin, Lowered(gMin, s), i)
      invariant UpdatedUpTo(gMax', gMax, Raised(gMax, s), i)
    {
      var key := FieldAt(i);
      UpdatedNext(runMin', runMin, Lowered(runMin, s), i);
      UpdatedNext(runMax', runMax, Raised(runMax, s), i);
      UpdatedNext(runSum', runSum, Added(runSum, s), i);
      UpdatedNext(runCount', runCount, Counted(runCount), i);
      UpdatedNext(gMin', gMin, Lowered(gMin, s), i);
      UpdatedNext(gMax', gMax, Raised(gMax, s), i);
      var runMin'' := runMin'[key := MinWith(runMin'[key], s.Get(key))];
      UpdatedStep(runMin', runMin'', runMin, Lowered(runMin, s), i);
      var runMax'' := runMax'[key := MaxWith(runMax'[key], s.Get(key))];
      UpdatedStep(runMax', runMax'', runMax, Raised(runMax, s), i);
      var gMin'' := gMin'[key := MinWith(gMin'[key], s.Get(key))];
      UpdatedStep(gMin', gMin'', gMin, Lowered(gMin, s), i);
      var gMax'' := gMax'[key := MaxWith(gMax'[key], s.Get(key))];
      UpdatedStep(gMax', gMax'', gMax, Raised(gMax, s), i);
      var runSum'' := runSum'[key := runSum'[key] + s.Get(key)];
      UpdatedStep(runSum', runSum'', runSum, Added(runSum, s), i);
      var runCount'' := runCount'[key := runCount'[key] + 1];
      UpdatedStep(runCount', runCount'', runCount, Counted(runCount), i);
      runMin', runMax', runSum', runCount', gMin', gMax' := runMin'', runMax'', runSum'', runCount'', gMin'', gMax'';
    }
    UpdatedAll(runMin', runMin, Lowered(runMin, s));
    UpdatedAll(runMax', runMax, Raised(runMax, s));
    UpdatedAll(runSum', runSum, Added(runSum, s));
    UpdatedAll(runCount', runCount, Counted(runCount));
    UpdatedAll(gMin', gMin, Lowered(gMin, s));
    UpdatedAll(gMax', gMax, Raised(gMax, s));
  }

  /** `Accumulate` spelled out dictionary by dictionary. */
  lemma AccumulateParts(acc: RunAcc, s: Snapshot)
    requires acc.Total()
    ensures Accumulate(acc, s)
            == RunAcc(Extremes(Lowered(acc.ext.minV, s), Raised(acc.ext.maxV, s)), Added(acc.sumV, s),
                      Counted(acc.countV), acc.readings + [s.hashRate])
  {
  }

  /** The per-run dictionaries `run_min_values`, `run_max_values`, `run_sum_values`,
      `run_count_values` and the list `hashrate_readings`. */
  class RunStats {
    var minValues: map<Field, Ext>
    var maxValues: map<Field, Ext>
    var sumValues: map<Field, real>
    var countValues: map<Field, nat>
    var hashrateReadings: seq<real>

    function View(): RunAcc
      reads this
    {
      RunAcc(Extremes(minValues, maxValues), sumValues, countValues, hashrateReadings)
    }

    /** The dictionaries at the start of `run_test`. */
    constructor ()
      ensures View() == EmptyAcc()
    {
      minValues := ConstMap(PosInf);
      maxValues := ConstMap(NegInf);
      sumValues := ConstMap(0.0);
      countValues := ConstMap(0);
      hashrateReadings := [];
    }
  }

  /** The module-level state of the program. */
  class SessionState {
    var globalMin: map<Field, Ext>
    var globalMax: map<Field, Ext>
    var systemInfo: Option<Snapshot>
    var bestHashrate: real
    var bestFrequency: Option<int>
    var bestVoltage: Option<int>
    var criticalReached: bool
    var interrupted: bool
    /** The commands sent to the device so far. */
    var sent: seq<Command>

    function View(): Session
      reads this
    {
      Session(Extremes(globalMin, globalMax), systemInfo, Best(bestHashrate, bestFrequency, bestVoltage),
              criticalReached, interrupted, sent)
    }

    /** The globals as the program starts. */
    constructor ()
      ensures View() == InitialSession()
    {
      globalMin := ConstMap(PosInf);
      globalMax := ConstMap(NegInf);
      systemInfo := None;
      bestHashrate := 0.0;
      bestFrequency := None;
      bestVoltage := None;
      criticalReached := false;
      interrupted := false;
      sent := [];
    }

    /** The signal handler: SIGINT sets `is_interrupted`. */
    method Signal(sigint: bool)
      modifies this
      ensures View() == old(View()).(interrupted := old(interrupted) || sigint)
    {
      if sigint {
        interrupted := true;
      }
    }

    /** `fetch_system_info`: on a response, store the reading with its defaults and fold it,
        field by field, into the run's and the global dictionaries; on a failed request change
        nothing. */
    method FetchSystemInfo(run: RunStats, response: Option<RawInfo>) returns (ok: bool)
      requires View().globals.Total() && run.View().Total()
      modifies this, run
      ensures ok == response.Some?
      ensures response.None? ==> View() == old(View()) && run.View() == old(run.View())
      ensures response.Some? ==>
        var s := FromRaw(response.value);
        && View() == old(View()).(globals := Widen(old(View()).globals, s), info := Some(s))
        && run.View() == Accumulate(old(run.View()), s)
    {
      if response.None? {
        return false;
      }
      var s := FromRaw(response.value);
      ghost var acc0, glob0 := run.View(), View().globals;
      systemInfo := Some(s);
      var runMin, runMax, runSum, runCount, gMin, gMax :=
        FoldReading(run.minValues, run.maxValues, run.sumValues, run.countValues, globalMin, globalMax, s);
      run.minValues, run.maxValues, run.sumValues, run.countValues := runMin, runMax, runSum, runCount;
      run.hashrateReadings := run.hashrateReadings + [s.hashRate];
      globalMin, globalMax := gMin, gMax;
      assert run.View() == Accumulate(acc0, s) by {
        AccumulateParts(acc0, s);
      }
      assert View().globals == Widen(glob0, s);
      return true;
    }

    /** `set_system_settings`: the point raised to the minimums is sent; the call succeeds when
        the PATCH succeeded and the read-back matches the payload within one unit. */
    method SetSystemSettings(frequency: int, coreVoltage: int, reply: ApplyReply) returns (ok: bool)
      modifies this
      ensures (View(), ok) == SendSettings(old(View()), frequency, coreVoltage, reply)
    {
      var f := Max(MinFrequency, frequency);
      var v := Max(MinCoreVoltage, coreVoltage);
      sent := sent + [Patch(Point(f, v))];
      if !reply.patchOk {
        return false;
      }
      if reply.readback.None? {
        return false;
      }
      var actualFreq := reply.readback.value.frequency.GetOr(0.0);
      var actualVolt := reply.readback.value.coreVoltage.GetOr(0.0);
      if Abs(actualFreq - f as real) > 1.0 || Abs(actualVolt - v as real) > 1.0 {
        return false;
      }
      return true;
    }

    /** `reboot_bitaxe`: the restart request is sent; `rebootOk` is whether it succeeded. */
    method RebootBitaxe(rebootOk: bool) returns (ok: bool)
      modifies this
      ensures View() == old(View()).(sent := old(View()).sent + [Restart]) && ok == rebootOk
    {
      sent := sent + [Restart];
      return rebootOk;
    }

    /** The stall check of the `run_test` loop for the hashrate `current`, with the detector's
        `identical_hashrate_count` and `last_hashrate` passed in and returned. */
    method DetectStall(threshold: int, current: real, rebootOk: bool, count: nat, last: Option<real>)
      returns (count': nat, last': Option<real>)
      modifies this
      ensures (View(), StallState(count', last'))
              == Watch(Some(threshold), old(View()), StallState(count, last), current, rebootOk)
    {
      if last == Some(current) {
        count', last' := count + 1, last;
        if count' > threshold {
          var ok := RebootBitaxe(rebootOk);
          if ok {
            count', last' := 0, None;
          }
        }
      } else {
        count', last' := 1, Some(current);
      }
    }

    /** The best-result update of `run_test`: outside monitor mode, a run with readings whose
        average hashrate beats the stored best becomes the best. */
    method UpdateBest(p: RunParams, run: RunStats)
      requires run.View().Total()
      modifies this
      ensures View() == RecordBest(p, old(View()), run.View())
    {
      if !p.monitor && run.countValues[HashRate] > 0 {
        var avg := run.sumValues[HashRate] / run.countValues[HashRate] as real;
        if avg > bestHashrate {
          bestHashrate, bestFrequency, bestVoltage := avg, Some(p.frequency), Some(p.coreVoltage);
        }
      }
    }

    /** "Set best settings or revert to initial": the best point when `useBest` and one is
        known, falling back to `initial` when that fails; otherwise `initial`. */
    method SettleDevice(useBest: bool, initial: Point, replies: SettleReplies)
      modifies this
      ensures View() == Settle(old(View()), useBest, initial, replies)
    {
      if useBest && bestFrequency.Some? && bestVoltage.Some? {
        var ok := SetSystemSettings(bestFrequency.value, bestVoltage.value, replies.best);
        if !ok {
          ok := SetSystemSettings(initial.frequency, initial.coreVoltage, replies.initial);
        }
      } else {
        var _ := SetSystemSettings(initial.frequency, initial.coreVoltage, replies.initial);
      }
    }

    /** The critical branch of `run_test`: raise the flag, send the landing point, update the
        best outside monitor mode, then settle on the best or initial point. */
    method AbortTest(p: RunParams, run: RunStats, landing: ApplyReply, settle: SettleReplies)
      requires run.View().Total()
      modifies this
      ensures View() == Abort(p, old(View()), run.View(), landing, settle)
    {
      criticalReached := true;
      var newFrequency := Max(MinFrequency, p.frequency - LandingStep);
      var newCoreVoltage := Max(MinCoreVoltage, p.coreVoltage - LandingStep);
      var _ := SetSystemSettings(newFrequency, newCoreVoltage, landing);
      if !p.monitor {
        UpdateBest(p, run);
      }
      SettleDevice(!p.monitor, p.initial, settle);
    }

    /** One pass through the body of the `run_test` loop, entered with the loop condition true
        (the tick's SIGINT already seen): fetch, stall check, critical check. It reports whether
        the run was aborted. */
    method Iteration(p: RunParams, run: RunStats, t: Tick, landing: ApplyReply, settle: SettleReplies,
                     count: nat, last: Option<real>, readingCount: nat)
      returns (stopped: bool, outcome: RunOutcome, count': nat, last': Option<real>, readingCount': nat)
      requires View().globals.Total() && run.View().Total()
      requires (p.monitor || !t.elapsed) && !interrupted && !t.sigint
      modifies this, run
      ensures View().globals.Total() && run.View().Total()
      ensures var step := StepSpec(p, old(View()), RunLocal(old(run.View()), StallState(count, last), readingCount), t, landing, settle);
        && (stopped <==> step.Stop?)
        && (step.Continue? ==> step == Continue(View(), RunLocal(run.View(), StallState(count', last'), readingCount')))
        && (step.Stop? ==> View() == step.result.session && outcome == step.result.outcome && run.View() == step.result.local.acc)
    {
      count', last', readingCount' := count, last, readingCount;
      ghost var ses0, loc0 := View(), RunLocal(run.View(), StallState(count, last), readingCount);
      ghost var step := StepSpec(p, ses0, loc0, t, landing, settle);
      assert ses0.(interrupted := ses0.interrupted || t.sigint) == ses0;
      var got := FetchSystemInfo(run, t.response);
      if !got {
        assert step == Continue(ses0, loc0);
        return false, Ended, count', last', readingCount';
      }
      var s := systemInfo.value;
      assert step == Accept(p, ses0, loc0, s, t.rebootOk, landing, settle);
      ghost var (ses2, loc2) := Fetched(ses0, loc0, s);
      assert View() == ses2 && run.View() == loc2.acc;
      stopped, outcome, count', last', readingCount' := Inspect(p, run, s, t.rebootOk, landing, settle, count, last, readingCount);
      ghost var (ses3, stall3) := Watch(p.threshold, ses2, loc2.stall, s.hashRate, t.rebootOk);
      if stopped {
        assert step == Stop(RunResult(Abort(p, ses3, loc2.acc, landing, settle), outcome, loc2.(stall := stall3)));
      } else {
        assert step == Continue(ses3, loc2.(stall := stall3, readingCount := readingCount + 1));
      }
    }

    /** The body of the `run_test` loop after a reading `s` was fetched and folded in: the stall
        check, then the critical check, which aborts the run. */
    method Inspect(p: RunParams, run: RunStats, s: Snapshot, rebootOk: bool, landing: ApplyReply, settle: SettleReplies,
                   count: nat, last: Option<real>, readingCount: nat)
      returns (stopped: bool, outcome: RunOutcome, count': nat, last': Option<real>, readingCount': nat)
      requires View().globals.Total() && run.View().Total()
      modifies this
      ensures var (ses3, stall3) := Watch(p.threshold, old(View()), StallState(count, last), s.hashRate, rebootOk);
        && StallState(count', last') == stall3
        && (stopped <==> Classify(s).Some?)
        && (stopped ==> View() == Abort(p, ses3, run.View(), landing, settle) && outcome == Aborted(Classify(s).value))
        && (!stopped ==> View() == ses3 && readingCount' == readingCount + 1)
    {
      count', last', readingCount' := count, last, readingCount;
      if p.threshold.Some? {
        count', last' := DetectStall(p.threshold.value, s.hashRate, rebootOk, count', last');
      }
      var reason := Classify(s);
      if reason.Some? {
        AbortTest(p, run, landing, settle);
        return true, Aborted(reason.value), count', last', readingCount';
      }
      readingCount' := readingCount' + 1;
      return false, Ended, count', last', readingCount';
    }

    /** `run_test`: apply the run's point (skip the run if that fails), then read telemetry until
        the run duration elapses or SIGINT arrives, aborting on a critical reading. The
        accumulators of the run are returned with the outcome. */
    method RunTest(p: RunParams, inputs: RunInputs) returns (outcome: RunOutcome, run: RunStats)
      requires View().globals.Total() && Terminates(inputs, p.monitor)
      modifies this
      ensures fresh(run)
      ensures var r := RunSpec(p, old(View()), inputs);
        View() == r.session && outcome == r.outcome && run.View() == r.local.acc
    {
      var ok := SetSystemSettings(p.frequency, p.coreVoltage, inputs.start);
      run := new RunStats();
      if !ok {
        Signal(inputs.applySigint);
        return Skipped, run;
      }
      outcome := TelemetryLoop(p, run, inputs.ticks, inputs.landing, inputs.settle);
    }

    /** The `while` loop of `run_test` and the best-result update after it, from fresh run
        dictionaries and a fresh stall detector. */
    method TelemetryLoop(p: RunParams, run: RunStats, ticks: seq<Tick>, landing: ApplyReply, settle: SettleReplies)
      returns (outcome: RunOutcome)
      requires View().globals.Total() && run.View() == EmptyAcc()
      requires ticks != [] && Stops(ticks[|ticks| - 1], p.monitor)
      modifies this, run
      ensures var r := LoopSpec(p, old(View()), StartLocal(), ticks, landing, settle);
        View() == r.session && outcome == r.outcome && run.View() == r.local.acc
    {
      ghost var ses0 := View();
      ghost var target := LoopSpec(p, ses0, StartLocal(), ticks, landing, settle);
      var readingCount: nat := 0;
      var count: nat := 0;
      var last: Option<real> := None;
      var i := 0;
      EnterLoop(p, run, ticks, landing, settle, target);
      while (p.monitor || !ticks[i].elapsed) && !interrupted
        invariant Tracking(p, run, ticks, i, count, last, readingCount, landing, settle, target)
        decreases |ticks| - i
      {
        var stopped;
        stopped, outcome, count, last, readingCount := LoopTurn(p, run, ticks, i, landing, settle, count, last, readingCount, target);
        if stopped {
          return outcome;
        }
        i := i + 1;
      }
      outcome := EndLoop(p, run, ticks, i, landing, settle, count, last, readingCount, target);
    }

    /** The invariant of the `while` loop of `run_test` at tick `i`, the tick's SIGINT seen: the
        loop over the remaining ticks, from the current globals and run state, still leads to
        `target`. */
    ghost predicate Tracking(p: RunParams, run: RunStats, ticks: seq<Tick>, i: nat, count: nat, last: Option<real>,
                             readingCount: nat, landing: ApplyReply, settle: SettleReplies, target: RunResult)
      reads this, run
    {
      && i < |ticks| && (ticks[i].sigint ==> interrupted)
      && LoopReady(p, View(), RunLocal(run.View(), StallState(count, last), readingCount), ticks[i..])
      && LoopSpec(p, View(), RunLocal(run.View(), StallState(count, last), readingCount), ticks[i..], landing, settle) == target
    }

    /** The SIGINT that arrives before the loop condition is first evaluated. */
    method EnterLoop(p: RunParams, run: RunStats, ticks: seq<Tick>, landing: ApplyReply, settle: SettleReplies, ghost target: RunResult)
      requires View().globals.Total() && run.View() == EmptyAcc()
      requires ticks != [] && Stops(ticks[|ticks| - 1], p.monitor)
      requires target == LoopSpec(p, View(), StartLocal(), ticks, landing, settle)
      modifies this
      ensures Tracking(p, run, ticks, 0, 0, None, 0, landing, settle, target)
    {
      ghost var ses0 := View();
      SignalKeepsLoop(p, ses0, StartLocal(), ticks, landing, settle);
      Signal(ticks[0].sigint);
      assert View() == ses0.(interrupted := ses0.interrupted || ticks[0].sigint);
      assert RunLocal(run.View(), StallState(0, None), 0) == StartLocal();
      assert ticks[0..] == ticks;
    }

    /** The loop condition is false at tick `i`: the run ended, and its best-result update runs. */
    method EndLoop(p: RunParams, run: RunStats, ticks: seq<Tick>, i: nat, landing: ApplyReply, settle: SettleReplies,
                   count: nat, last: Option<real>, readingCount: nat, ghost target: RunResult)
      returns (outcome: RunOutcome)
      requires Tracking(p, run, ticks, i, count, last, readingCount, landing, settle, target)
      requires !((p.monitor || !ticks[i].elapsed) && !interrupted)
      modifies this
      ensures View() == target.session && outcome == target.outcome && run.View() == target.local.acc
    {
      assert ticks[i..][0] == ticks[i] && View().interrupted == interrupted;
      LoopExit(p, View(), RunLocal(run.View(), StallState(count, last), readingCount), ticks[i..], landing, settle);
      UpdateBest(p, run);
      return Ended;
    }

    /** One turn of the `while` loop at tick `i`, entered with the loop condition true: the
        body, then the SIGINT that arrives before the condition is evaluated again. Either the
        run ended with the loop's result, or the loop goes on at tick `i + 1` towards the same
        result. */
    method LoopTurn(p: RunParams, run: RunStats, ticks: seq<Tick>, i: nat, landing: ApplyReply, settle: SettleReplies,
                    count: nat, last: Option<real>, readingCount: nat, ghost target: RunResult)
      returns (stopped: bool, outcome: RunOutcome, count': nat, last': Option<real>, readingCount': nat)
      requires Tracking(p, run, ticks, i, count, last, readingCount, landing, settle, target)
      requires (p.monitor || !ticks[i].elapsed) && !interrupted
      modifies this, run
      ensures stopped ==> View() == target.session && outcome == target.outcome && run.View() == target.local.acc
      ensures !stopped ==> Tracking(p, run, ticks, i + 1, count', last', readingCount', landing, settle, target)
    {
      ghost var ses0, loc0 := View(), RunLocal(run.View(), StallState(count, last), readingCount);
      assert ticks[i..][0] == ticks[i];
      stopped, outcome, count', last', readingCount' := Iteration(p, run, ticks[i], landing, settle, count, last, readingCount);
      if stopped {
        StopReady(p, ses0, loc0, ticks[i..], landing, settle);
        return;
      }
      LoopAdvance(p, ses0, loc0, ticks, i, landing, settle);
      Signal(ticks[i + 1].sigint);
    }

    /** The `for` loop of `main` over the candidate frequencies `freqs`: one run each, leaving
        the loop after a run that saw SIGINT or a critical reading. It returns the number of
        runs started and the hashrate summary of each run that was not skipped. */
    method SweepTests(cfg: Config, freqs: seq<int>, runs: seq<RunInputs>) returns (executed: nat, summaries: seq<RunSummary>)
      requires View().globals.Total() && |runs| == |freqs| && AllTerminate(runs, false)
      modifies this
      ensures var r := SweepSpec(cfg, old(View()), freqs, runs);
        View() == r.session && executed == r.executed && summaries == r.summaries
    {
      executed, summaries := 0, [];
      for k := 0 to |freqs|
        invariant View().globals.Total() && AllTerminate(runs[k..], false) && executed == k
        invariant var rest := SweepSpec(cfg, View(), freqs[k..], runs[k..]);
          SweepSpec(cfg, old(View()), freqs, runs) == SweepResult(rest.session, executed + rest.executed, summaries + rest.summaries)
      {
        ghost var ses0 := View();
        SweepAt(cfg, ses0, freqs, runs, k);
        var p := SweepParams(cfg, freqs[k]);
        var outcome, run := RunTest(p, runs[k]);
        ghost var rr := RunSpec(p, ses0, runs[k]);
        executed := executed + 1;
        var contribution := if outcome.Skipped? then [] else [RunSummary(p.frequency, p.coreVoltage, run.sumValues[HashRate], run.countValues[HashRate])];
        assert contribution == Summary(p, rr);
        ghost var before := summaries;
        summaries := summaries + contribution;
        if interrupted || criticalReached {
          return;
        }
        ghost var rest := SweepSpec(cfg, View(), freqs[k + 1..], runs[k + 1..]);
        assert before + (contribution + rest.summaries) == summaries + rest.summaries;
      }
    }

    /** `main` after argument parsing, from the process's initial state: apply the start point
        (exit when that fails), then the single monitor run or the sweep, and finally, unless a
        critical reading already settled the device, the best or initial settings. */
    method Run(cfg: Config, inputs: SessionInputs) returns (outcome: SessionOutcome)
      requires View() == InitialSession() && ValidConfig(cfg) && InputsFit(cfg, inputs)
      modifies this
      ensures MainSpec(cfg, inputs) == MainResult(View(), outcome)
    {
      var startFrequency := if cfg.monitor then cfg.frequency else cfg.frequency - cfg.range;
      assert startFrequency == StartFrequency(cfg.frequency, cfg.range, cfg.monitor);
      var ok := SetSystemSettings(startFrequency, cfg.coreVoltage, inputs.setup);
      ghost var ses1 := View();
      assert (ses1, ok) == SendSettings(InitialSession(), startFrequency, cfg.coreVoltage, inputs.setup);
      if !ok {
        return SetupFailed;
      }
      assert ses1.globals == InitialSession().globals;
      if cfg.monitor {
        assert Terminates(inputs.runs[0], true);
        var _, _ := RunTest(MonitorParams(cfg), inputs.runs[0]);
        assert View() == RunSpec(MonitorParams(cfg), ses1, inputs.runs[0]).session;
        return Completed(1, []);
      }
      var freqs := Range(cfg.frequency - cfg.range, cfg.frequency + cfg.range + 1, cfg.step);
      assert freqs == Candidates(cfg.frequency, cfg.range, cfg.step);
      var executed, summaries := SweepTests(cfg, freqs, inputs.runs);
      ghost var sw := SweepSpec(cfg, ses1, freqs, inputs.runs);
      assert View() == sw.session && executed == sw.executed && summaries == sw.summaries;
      if !criticalReached {
        SettleDevice(true, InitialPoint(cfg), inputs.settle);
      }
      return Completed(executed, summaries);
    }

    /** The whole program: `parse_arguments` (a usage error or an invalid address ends it before
        anything is sent), then `main`. */
    method Launch(a: Args, inputs: SessionInputs) returns (r: Result<SessionOutcome, ArgError>)
      requires View() == InitialSession()
      requires ParseArguments(a).Ok? ==> InputsFit(ParseArguments(a).value, inputs)
      modifies this
      ensures ParseArguments(a).Err? ==> r == Err(ParseArguments(a).error) && View() == InitialSession()
      ensures ParseArguments(a).Ok? ==>
        var m := MainSpec(ParseArguments(a).value, inputs);
        r == Ok(m.outcome) && View() == m.session
    {
      var parsed := ParseArguments(a);
      if parsed.Err? {
        return Err(parsed.error);
      }
      var outcome := Run(parsed.value, inputs);
      return Ok(outcome);
    }
  }

  /** The sweep from candidate `k` on: run `k`, then stop or go on with the next candidate. */
  lemma SweepAt(cfg: Config, ses: Session, freqs: seq<int>, runs: seq<RunInputs>, k: nat)
    requires ses.globals.Total() && k < |freqs| && |runs| == |freqs| && AllTerminate(runs[k..], false)
    ensures Terminates(runs[k], false) && AllTerminate(runs[k + 1..], false)
    ensures var p := SweepParams(cfg, freqs[k]);
      var run := RunSpec(p, ses, runs[k]);
      SweepSpec(cfg, ses, freqs[k..], runs[k..])
      == if run.session.interrupted || run.session.critical then SweepResult(run.session, 1, Summary(p, run))
         else
           var rest := SweepSpec(cfg, run.session, freqs[k + 1..], runs[k + 1..]);
           SweepResult(rest.session, rest.executed + 1, Summary(p, run) + rest.summaries)
  {
    AllTerminateTail(runs[k..], false);
    assert freqs[k..][1..] == freqs[k + 1..] && runs[k..][1..] == runs[k + 1..];
  }

  /** `abs` on reals. */
  function Abs(x: real): real {
    if x < 0.0 then -x else x
  }

  /** A step that stops ends the loop with its result. */
  lemma StopReady(p: RunParams, ses: Session, loc: RunLocal, ticks: seq<Tick>, landing: ApplyReply, settle: SettleReplies)
    requires LoopReady(p, ses, loc, ticks)
    requires StepSpec(p, ses, loc, ticks[0], landing, settle).Stop?
    ensures LoopSpec(p, ses, loc, ticks, landing, settle) == StepSpec(p, ses, loc, ticks[0], landing, settle).result
  {
  }

  /** With the first tick's SIGINT seen and the loop condition false, the loop ends with the
      run's best-result update. */
  lemma LoopExit(p: RunParams, ses: Session, loc: RunLocal, ticks: seq<Tick>, landing: ApplyReply, settle: SettleReplies)
    requires LoopReady(p, ses, loc, ticks)
    requires ticks[0].sigint ==> ses.interrupted
    requires !((p.monitor || !ticks[0].elapsed) && !ses.interrupted)
    ensures LoopSpec(p, ses, loc, ticks, landing, settle) == Finish(p, ses, loc)
  {
    assert ses.(interrupted := ses.interrupted || ticks[0].sigint) == ses;
  }

  /** After a step at tick `i` that continues, the loop goes on from the new state with the
      next tick's SIGINT already seen, over the ticks after `i`. */
  lemma LoopAdvance(p: RunParams, ses: Session, loc: RunLocal, ticks: seq<Tick>, i: nat, landing: ApplyReply, settle: SettleReplies)
    requires i < |ticks| && LoopReady(p, ses, loc, ticks[i..])
    requires StepSpec(p, ses, loc, ticks[i], landing, settle).Continue?
    ensures i + 1 < |ticks|
    ensures var st := StepSpec(p, ses, loc, ticks[i], landing, settle);
      var ses' := st.session.(interrupted := st.session.interrupted || ticks[i + 1].sigint);
      && LoopReady(p, ses', st.local, ticks[i + 1..])
      && LoopSpec(p, ses', st.local, ticks[i + 1..], landing, settle) == LoopSpec(p, ses, loc, ticks[i..], landing, settle)
  {
    assert ticks[i..][0] == ticks[i] && ticks[i..][1..] == ticks[i + 1..];
    ContinueReady(p, ses, loc, ticks[i..], landing, settle);
    var st := StepSpec(p, ses, loc, ticks[i], landing, settle);
    SignalKeepsLoop(p, st.session, st.local, ticks[i + 1..], landing, settle);
  }

  /** Seeing the next tick's SIGINT before evaluating the loop condition changes nothing about
      the rest of the loop: the step applies the same signal itself. */
  lemma SignalKeepsLoop(p: RunParams, ses: Session, loc: RunLocal, ticks: seq<Tick>, landing: ApplyReply, settle: SettleReplies)
    requires LoopReady(p, ses, loc, ticks)
    ensures LoopSpec(p, ses.(interrupted := ses.interrupted || ticks[0].sigint), loc, ticks, landing, settle)
            == LoopSpec(p, ses, loc, ticks, landing, settle)
  {
    var ses' := ses.(interrupted := ses.interrupted || ticks[0].sigint);
    assert ses'.(interrupted := ses'.interrupted || ticks[0].sigint) == ses.(interrupted := ses.interrupted || ticks[0].sigint);
    assert StepSpec(p, ses', loc, ticks[0], landing, settle) == StepSpec(p, ses, loc, ticks[0], landing, settle);
  }
}
