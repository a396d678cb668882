/** The behaviour of one tuning session as pure functions of what the device and the operator
    do: `run_test` (one run at one operating point, its telemetry loop, the stall detector and
    the critical abort) and `main` (initial setup, the frequency sweep and the final settings)
    of bitaxe_status_logger.py. The methods of `StatusLogger` are proved to compute these. */
module RunModel {
  import opened Common
  import opened Telemetry
  import opened Settings
  import opened Safety
  import opened StallDetector
  import opened BestResult
  import opened Sweep
  import opened Arguments

  /** A state-changing request sent to the device: `PATCH /api/system` with a payload, or
      `POST /api/system/restart`. */
  datatype Command = Patch(point: Point) | Restart

  /** The process-wide state: the global min/max dictionaries, the last accepted reading
      (`system_info`), the best result, the two flags, and every command sent so far. */
  datatype Session = Session(
    globals: Extremes, info: Option<Snapshot>, best: Best,
    critical: bool, interrupted: bool, sent: seq<Command>)

  /** The state when the process starts. */
  function InitialSession(): (s: Session)
    ensures s.globals.Total() && s.globals == NoExtremes() && s.info.None?
    ensures s.best == NoBest && Valid(s.best) && !HasBest(s.best) && s.sent == []
    ensures !s.critical && !s.interrupted
  {
    Session(NoExtremes(), None, NoBest, false, false, [])
  }

  /** `set_system_settings(frequency, coreVoltage)`: the clamped payload is sent, and
      the call reports whether the device confirmed it. */
  function SendSettings(ses: Session, frequency: int, coreVoltage: int, reply: ApplyReply): (Session, bool) {
    (ses.(sent := ses.sent + [Patch(Clamp(frequency, coreVoltage))]), Applied(Clamp(frequency, coreVoltage), reply))
  }

  predicate HasBest(b: Best) {
    b.frequency.Some? && b.coreVoltage.Some?
  }

  function BestPoint(b: Best): Point
    requires HasBest(b)
  {
    Point(b.frequency.value, b.coreVoltage.value)
  }

  /** The device's answers to the calls of one settling step. */
  datatype SettleReplies = SettleReplies(best: ApplyReply, initial: ApplyReply)

  /** The PATCHes of one settling step: the best point alone when it is tried and confirmed,
      the best point then the initial point when it is tried and fails, and otherwise the
      initial point alone. */
  function SettlePatches(b: Best, useBest: bool, initial: Point, replies: SettleReplies): seq<Command> {
    if useBest && HasBest(b) then
      var best := Clamp(b.frequency.value, b.coreVoltage.value);
      if Applied(best, replies.best) then [Patch(best)]
      else [Patch(best), Patch(Clamp(initial.frequency, initial.coreVoltage))]
    else [Patch(Clamp(initial.frequency, initial.coreVoltage))]
  }

  /** "Best or initial settings": when `useBest` and a best point is known, it is applied,
      falling back to the initial point if that fails; otherwise the initial point is applied. */
  function Settle(ses: Session, useBest: bool, initial: Point, replies: SettleReplies): (r: Session)
    ensures r == ses.(sent := r.sent)
    ensures !(useBest && HasBest(ses.best)) ==> r.sent == ses.sent + [Patch(Clamp(initial.frequency, initial.coreVoltage))]
    ensures useBest && HasBest(ses.best) && !Applied(Clamp(ses.best.frequency.value, ses.best.coreVoltage.value), replies.best)
            ==> r.sent == ses.sent + [Patch(Clamp(ses.best.frequency.value, ses.best.coreVoltage.value)),
                                      Patch(Clamp(initial.frequency, initial.coreVoltage))]
    ensures r.sent == ses.sent + SettlePatches(ses.best, useBest, initial, replies)
    ensures ses.sent < r.sent && |r.sent| <= |ses.sent| + 2
    ensures forall i :: |ses.sent| <= i < |r.sent| ==> r.sent[i].Patch?
    ensures useBest && HasBest(ses.best) ==> r.sent[|ses.sent|] == Patch(Clamp(ses.best.frequency.value, ses.best.coreVoltage.value))
    ensures useBest && HasBest(ses.best) && Applied(Clamp(ses.best.frequency.value, ses.best.coreVoltage.value), replies.best)
            ==> r.sent == ses.sent + [Patch(Clamp(ses.best.frequency.value, ses.best.coreVoltage.value))]
    ensures !(useBest && HasBest(ses.best) && Applied(Clamp(ses.best.frequency.value, ses.best.coreVoltage.value), replies.best))
            ==> r.sent[|r.sent| - 1] == Patch(Clamp(initial.frequency, initial.coreVoltage))
  {
    if useBest && HasBest(ses.best) then
      var (s1, ok) := SendSettings(ses, ses.best.frequency.value, ses.best.coreVoltage.value, replies.best);
      if ok then s1 else SendSettings(s1, initial.frequency, initial.coreVoltage, replies.initial).0
    else
      SendSettings(ses, initial.frequency, initial.coreVoltage, replies.initial).0
  }

  /** One iteration of the run loop as the outside world presents it: whether SIGINT arrived
      since the last check, whether the run duration has elapsed, the telemetry response
      (`None` when the request failed), and whether a restart request would succeed. */
  datatype Tick = Tick(sigint: bool, elapsed: bool, response: Option<RawInfo>, rebootOk: bool)

  /** A tick at which the loop condition is certainly false. */
  predicate Stops(t: Tick, monitor: bool) {
    t.sigint || (!monitor && t.elapsed)
  }

  /** Everything one run receives from the device and the clock: the reply to its own
      settings, whether SIGINT arrives while those settings are being applied, the loop's
      ticks, and the replies to the calls of a critical abort. When the settings are
      confirmed, that SIGINT is seen by the loop's first condition check, so the first tick
      carries it; `applySigint` matters only for a skipped run. */
  datatype RunInputs = RunInputs(start: ApplyReply, applySigint: bool, ticks: seq<Tick>, landing: ApplyReply, settle: SettleReplies)

  /** The ticks end with one at which the loop stops (the run duration elapses, or SIGINT). */
  predicate Terminates(inputs: RunInputs, monitor: bool) {
    inputs.ticks != [] && Stops(inputs.ticks[|inputs.ticks| - 1], monitor)
  }

  /** The arguments of `run_test`, and the initial point it may revert to. */
  datatype RunParams = RunParams(frequency: int, coreVoltage: int, threshold: Option<int>, monitor: bool, initial: Point)

  /** How a run ends: its settings were not confirmed (it returns `None`), its loop ended, or a
      critical reading aborted it. */
  datatype RunOutcome = Skipped | Ended | Aborted(reason: Reason)

  /** The local state of `run_test`: accumulators, stall detector, and `reading_count`. */
  datatype RunLocal = RunLocal(acc: RunAcc, stall: StallState, readingCount: nat)

  function StartLocal(): (l: RunLocal)
    ensures l.acc == EmptyAcc() && l.stall == Fresh && l.readingCount == 0
  {
    RunLocal(EmptyAcc(), Fresh, 0)
  }

  datatype RunResult = RunResult(session: Session, outcome: RunOutcome, local: RunLocal)

  /** An accepted reading: it becomes `system_info`, widens the global extremes, and is
      accumulated into the run. */
  function Fetched(ses: Session, loc: RunLocal, s: Snapshot): (r: (Session, RunLocal))
    requires ses.globals.Total() && loc.acc.Total()
    ensures r.0.globals.Total() && r.1.acc.Total()
  {
    (ses.(globals := Widen(ses.globals, s), info := Some(s)), loc.(acc := Accumulate(loc.acc, s)))
  }

  /** The stall detector on an accepted hashrate, when a reboot threshold is configured; a
      requested restart is sent to the device. */
  function Watch(threshold: Option<int>, ses: Session, st: StallState, current: real, rebootOk: bool): (r: (Session, StallState))
    ensures r.0 == ses || r.0 == ses.(sent := ses.sent + [Restart])
    ensures threshold.None? ==> r == (ses, st)
    ensures threshold.Some? ==>
      && r.1 == Observe(st, current, threshold.value, rebootOk).next
      && (r.0 != ses <==> Observe(st, current, threshold.value, rebootOk).rebootAttempted)
  {
    match threshold
    case None => (ses, st)
    case Some(th) =>
      var o := Observe(st, current, th, rebootOk);
      (if o.rebootAttempted then ses.(sent := ses.sent + [Restart]) else ses, o.next)
  }

  /** The best-result update of a run at its own point (skipped in monitor mode). */
  function RecordBest(p: RunParams, ses: Session, acc: RunAcc): Session
    requires acc.Total()
  {
    ses.(best := RecordRun(ses.best, p.monitor, acc.sumV[HashRate], acc.countV[HashRate], p.frequency, p.coreVoltage))
  }

  /** The loop ended: the run's best-result update. */
  function Finish(p: RunParams, ses: Session, loc: RunLocal): (r: RunResult)
    requires loc.acc.Total()
    ensures r.session.globals == ses.globals && r.local == loc
    ensures r.session == ses.(best := r.session.best) && r.outcome == Ended
    ensures r.session.best == RecordRun(ses.best, p.monitor, loc.acc.sumV[HashRate], loc.acc.countV[HashRate], p.frequency, p.coreVoltage)
  {
    RunResult(RecordBest(p, ses, loc.acc), Ended, loc)
  }

  /** A critical reading: the flag is raised, the landing point is sent (its result ignored),
      the best-result update runs outside monitor mode, and the device is settled on the best
      or initial point (always the initial point in monitor mode). */
  function Abort(p: RunParams, ses: Session, acc: RunAcc, landing: ApplyReply, settle: SettleReplies): (r: Session)
    requires acc.Total()
    ensures r.globals == ses.globals && r.info == ses.info && r.interrupted == ses.interrupted && r.critical
  {
    var ses1 := ses.(critical := true);
    var lp := Landing(p.frequency, p.coreVoltage);
    var ses2 := SendSettings(ses1, lp.frequency, lp.coreVoltage, landing).0;
    var ses3 := RecordBest(p, ses2, acc);
    Settle(ses3, !p.monitor, p.initial, settle)
  }

  /** What one iteration of the loop leads to: another iteration from a new state, or the
      end of the run. */
  datatype Step = Continue(session: Session, local: RunLocal) | Stop(result: RunResult) {
    /** The shared state after the step, whether or not the loop goes on. */
    function After(): Session {
      if Continue? then session else result.session
    }

    /** The run's local state after the step. */
    function LocalAfter(): RunLocal {
      if Continue? then local else result.local
    }
  }

  /** The body of the loop for an accepted reading `s`: bookkeeping, stall detection, then the
      critical check. */
  function Accept(p: RunParams, ses: Session, loc: RunLocal, s: Snapshot, rebootOk: bool, landing: ApplyReply, settle: SettleReplies): (r: Step)
    requires ses.globals.Total() && loc.acc.Total()
    ensures r.After().globals.Total() && r.LocalAfter().acc.Total()
    ensures r.After().globals == Widen(ses.globals, s) && r.LocalAfter().acc == Accumulate(loc.acc, s)
  {
    var (ses2, loc2) := Fetched(ses, loc, s);
    var (ses3, stall3) := Watch(p.threshold, ses2, loc2.stall, s.hashRate, rebootOk);
    var loc3 := loc2.(stall := stall3);
    match Classify(s)
    case Some(reason) => Stop(RunResult(Abort(p, ses3, loc3.acc, landing, settle), Aborted(reason), loc3))
    case None => Continue(ses3, loc3.(readingCount := loc3.readingCount + 1))
  }

  /** One evaluation of the loop condition and, when it holds, one iteration of the body. */
  function StepSpec(p: RunParams, ses: Session, loc: RunLocal, t: Tick, landing: ApplyReply, settle: SettleReplies): (r: Step)
    requires ses.globals.Total() && loc.acc.Total()
    ensures r.Continue? ==> !Stops(t, p.monitor)
    ensures r.After().globals.Total() && r.LocalAfter().acc.Total()
  {
    var ses1 := ses.(interrupted := ses.interrupted || t.sigint);
    if !((p.monitor || !t.elapsed) && !ses1.interrupted) then
      Stop(Finish(p, ses1, loc))
    else
      match t.response
      case None => Continue(ses1, loc)
      case Some(raw) => Accept(p, ses1, loc, FromRaw(raw), t.rebootOk, landing, settle)
  }

  /** The `while` loop of `run_test` over the remaining ticks. */
  function LoopSpec(p: RunParams, ses: Session, loc: RunLocal, ticks: seq<Tick>, landing: ApplyReply, settle: SettleReplies): (r: RunResult)
    requires ses.globals.Total() && loc.acc.Total()
    requires ticks != [] && Stops(ticks[|ticks| - 1], p.monitor)
    ensures r.session.globals.Total() && r.local.acc.Total()
    decreases |ticks|
  {
    match StepSpec(p, ses, loc, ticks[0], landing, settle)
    case Stop(r) => r
    case Continue(ses', loc') => LoopSpec(p, ses', loc', ticks[1..], landing, settle)
  }

  /** `run_test`: the run's point is applied; if that is not confirmed the run is skipped,
      otherwise the loop runs from fresh local state. */
  function RunSpec(p: RunParams, ses: Session, inputs: RunInputs): (r: RunResult)
    requires ses.globals.Total() && Terminates(inputs, p.monitor)
    ensures r.session.globals.Total() && r.local.acc.Total()
  {
    var (ses1, ok) := SendSettings(ses, p.frequency, p.coreVoltage, inputs.start);
    if !ok then RunResult(ses1.(interrupted := ses1.interrupted || inputs.applySigint), Skipped, StartLocal())
    else LoopSpec(p, ses1, StartLocal(), inputs.ticks, inputs.landing, inputs.settle)
  }

  /** The initial point of a session: the configured frequency and voltage. */
  function InitialPoint(cfg: Config): Point {
    Point(cfg.frequency, cfg.coreVoltage)
  }

  /** The parameters of the sweep run at frequency `f`. */
  function SweepParams(cfg: Config, f: int): RunParams {
    RunParams(f, cfg.coreVoltage, cfg.rebootThreshold, false, InitialPoint(cfg))
  }

  /** The hashrate sum and count a run at `p` contributed to the best result (none if skipped). */
  function Summary(p: RunParams, r: RunResult): seq<RunSummary>
    requires r.local.acc.Total()
  {
    if r.outcome.Skipped? then []
    else [RunSummary(p.frequency, p.coreVoltage, r.local.acc.sumV[HashRate], r.local.acc.countV[HashRate])]
  }

  /** The sweep's state, the number of runs it started, and what they contributed to the best. */
  datatype SweepResult = SweepResult(session: Session, executed: nat, summaries: seq<RunSummary>)

  predicate AllTerminate(runs: seq<RunInputs>, monitor: bool) {
    forall i :: 0 <= i < |runs| ==> Terminates(runs[i], monitor)
  }

  /** The `for` loop of `main` over the remaining candidate frequencies, leaving it after a run
      that saw SIGINT or a critical reading. */
  function SweepSpec(cfg: Config, ses: Session, freqs: seq<int>, runs: seq<RunInputs>): (r: SweepResult)
    requires ses.globals.Total() && |runs| == |freqs| && AllTerminate(runs, false)
    ensures r.session.globals.Total()
    decreases |freqs|
  {
    if freqs == [] then SweepResult(ses, 0, [])
    else
      var p := SweepParams(cfg, freqs[0]);
      var run := RunSpec(p, ses, runs[0]);
      if run.session.interrupted || run.session.critical then SweepResult(run.session, 1, Summary(p, run))
      else
        var rest := SweepSpec(cfg, run.session, freqs[1..], runs[1..]);
        SweepResult(rest.session, rest.executed + 1, Summary(p, run) + rest.summaries)
  }

  /** Everything a session receives: the reply to the initial settings, one input set per run,
      and the replies to the final settling. */
  datatype SessionInputs = SessionInputs(setup: ApplyReply, runs: seq<RunInputs>, settle: SettleReplies)

  /** How `main` ends: `sys.exit(1)` because the initial settings failed, or after its runs. */
  datatype SessionOutcome = SetupFailed | Completed(executed: nat, summaries: seq<RunSummary>)

  datatype MainResult = MainResult(session: Session, outcome: SessionOutcome)

  /** One input set per run `main` may start, each ending with a stopping tick. */
  predicate InputsFit(cfg: Config, inputs: SessionInputs)
    requires ValidConfig(cfg)
  {
    && |inputs.runs| == (if cfg.monitor then 1 else |Candidates(cfg.frequency, cfg.range, cfg.step)|)
    && AllTerminate(inputs.runs, cfg.monitor)
  }

  /** The parameters of the single monitor-mode run. */
  function MonitorParams(cfg: Config): RunParams {
    RunParams(cfg.frequency, cfg.coreVoltage, cfg.rebootThreshold, true, InitialPoint(cfg))
  }

  /** `main` after argument parsing. */
  function MainSpec(cfg: Config, inputs: SessionInputs): MainResult
    requires ValidConfig(cfg) && InputsFit(cfg, inputs)
  {
    var start := StartFrequency(cfg.frequency, cfg.range, cfg.monitor);
    var (ses, ok) := SendSettings(InitialSession(), start, cfg.coreVoltage, inputs.setup);
    if !ok then MainResult(ses, SetupFailed)
    else if cfg.monitor then
      var run := RunSpec(MonitorParams(cfg), ses, inputs.runs[0]);
      MainResult(run.session, Completed(1, []))
    else
      var sw := SweepSpec(cfg, ses, Candidates(cfg.frequency, cfg.range, cfg.step), inputs.runs);
      var final := if !sw.session.critical then Settle(sw.session, true, InitialPoint(cfg), inputs.settle) else sw.session;
      MainResult(final, Completed(sw.executed, sw.summaries))
  }

  // ---------------------------------------------------------------------------------------
  // Properties of one run

  /** The precondition of every loop lemma. */
  predicate LoopReady(p: RunParams, ses: Session, loc: RunLocal, ticks: seq<Tick>) {
    ses.globals.Total() && loc.acc.Total() && ticks != [] && Stops(ticks[|ticks| - 1], p.monitor)
  }

  /** The rest of the ticks after a step that continues. */
  lemma ContinueReady(p: RunParams, ses: Session, loc: RunLocal, ticks: seq<Tick>, landing: ApplyReply, settle: SettleReplies)
    requires LoopReady(p, ses, loc, ticks)
    requires StepSpec(p, ses, loc, ticks[0], landing, settle).Continue?
    ensures var st := StepSpec(p, ses, loc, ticks[0], landing, settle);
      LoopReady(p, st.session, st.local, ticks[1..])
      && LoopSpec(p, ses, loc, ticks, landing, settle) == LoopSpec(p, st.session, st.local, ticks[1..], landing, settle)
  {
  }

  /** One step widens the global extremes and keeps them spanning the run's. */
  lemma StepExtremes(p: RunParams, ses: Session, loc: RunLocal, t: Tick, landing: ApplyReply, settle: SettleReplies)
    requires ses.globals.Total() && loc.acc.Total() && Covers(ses.globals, loc.acc.ext)
    ensures var st := StepSpec(p, ses, loc, t, landing, settle);
      Covers(st.After().globals, ses.globals) && Covers(st.After().globals, st.LocalAfter().acc.ext)
  {
    CoversReflexive(ses.globals);
    if (p.monitor || !t.elapsed) && !(ses.interrupted || t.sigint) && t.response.Some? {
      WidenKeepsCovers(ses.globals, loc.acc.ext, FromRaw(t.response.value));
    }
  }

  /** The global extremes only widen during a run, and always span the run's own extremes. */
  lemma {:induction false} LoopExtremes(p: RunParams, ses: Session, loc: RunLocal, ticks: seq<Tick>, landing: ApplyReply, settle: SettleReplies)
    requires LoopReady(p, ses, loc, ticks) && Covers(ses.globals, loc.acc.ext)
    ensures var r := LoopSpec(p, ses, loc, ticks, landing, settle);
      Covers(r.session.globals, ses.globals) && Covers(r.session.globals, r.local.acc.ext)
    decreases |ticks|
  {
    StepExtremes(p, ses, loc, ticks[0], landing, settle);
    var st := StepSpec(p, ses, loc, ticks[0], landing, settle);
    if st.Continue? {
      ContinueReady(p, ses, loc, ticks, landing, settle);
      LoopExtremes(p, st.session, st.local, ticks[1..], landing, settle);
      var r := LoopSpec(p, st.session, st.local, ticks[1..], landing, settle);
      CoversTransitive(r.session.globals, st.session.globals, ses.globals);
    }
  }

  /** An accepted reading is counted; unless it is critical, `reading_count` counts it too. */
  lemma AcceptAccumulators(p: RunParams, ses: Session, loc: RunLocal, s: Snapshot, rebootOk: bool, landing: ApplyReply, settle: SettleReplies)
    requires ses.globals.Total() && loc.acc.Total() && Consistent(loc.acc) && loc.readingCount == |loc.acc.readings|
    ensures var st := Accept(p, ses, loc, s, rebootOk, landing, settle);
      && Consistent(st.LocalAfter().acc)
      && (st.Continue? ==> st.LocalAfter().readingCount == |st.LocalAfter().acc.readings|)
      && (st.Stop? ==> st.result.outcome.Aborted? && st.LocalAfter().readingCount + 1 == |st.LocalAfter().acc.readings|)
  {
    AccumulateConsistent(loc.acc, s);
  }

  /** One step keeps the accumulators consistent; a continuing step counted every reading it
      accumulated, a stopping one all but a critical last one. */
  lemma StepAccumulators(p: RunParams, ses: Session, loc: RunLocal, t: Tick, landing: ApplyReply, settle: SettleReplies)
    requires ses.globals.Total() && loc.acc.Total() && Consistent(loc.acc) && loc.readingCount == |loc.acc.readings|
    ensures var st := StepSpec(p, ses, loc, t, landing, settle);
      && Consistent(st.LocalAfter().acc) && |loc.acc.readings| <= |st.LocalAfter().acc.readings|
      && (st.Continue? || st.result.outcome.Ended? ==> st.LocalAfter().readingCount == |st.LocalAfter().acc.readings|)
      && (st.Stop? && st.result.outcome.Aborted? ==> st.LocalAfter().readingCount + 1 == |st.LocalAfter().acc.readings|)
  {
    var ses1 := ses.(interrupted := ses.interrupted || t.sigint);
    var st := StepSpec(p, ses, loc, t, landing, settle);
    if !((p.monitor || !t.elapsed) && !ses1.interrupted) {
      assert st.LocalAfter() == loc && st.Stop? && st.result.outcome.Ended?;
    } else if t.response.None? {
      assert st == Continue(ses1, loc);
    } else {
      assert st == Accept(p, ses1, loc, FromRaw(t.response.value), t.rebootOk, landing, settle);
      AcceptAccumulators(p, ses1, loc, FromRaw(t.response.value), t.rebootOk, landing, settle);
    }
  }

  /** The accumulators stay consistent with the accepted readings; `reading_count` counts the
      accepted readings that were not critical. */
  lemma {:induction false} LoopAccumulators(p: RunParams, ses: Session, loc: RunLocal, ticks: seq<Tick>, landing: ApplyReply, settle: SettleReplies)
    requires LoopReady(p, ses, loc, ticks) && Consistent(loc.acc) && loc.readingCount == |loc.acc.readings|
    ensures var r := LoopSpec(p, ses, loc, ticks, landing, settle);
      && Consistent(r.local.acc)
      && |loc.acc.readings| <= |r.local.acc.readings|
      && (r.outcome.Ended? ==> r.local.readingCount == |r.local.acc.readings|)
      && (r.outcome.Aborted? ==> r.local.readingCount + 1 == |r.local.acc.readings|)
    decreases |ticks|
  {
    StepAccumulators(p, ses, loc, ticks[0], landing, settle);
    var st := StepSpec(p, ses, loc, ticks[0], landing, settle);
    if st.Continue? {
      ContinueReady(p, ses, loc, ticks, landing, settle);
      LoopAccumulators(p, st.session, st.local, ticks[1..], landing, settle);
    }
  }

  /** The best result changes only at the end of the run, by the run's own update. */
  lemma {:induction false} LoopBest(p: RunParams, ses: Session, loc: RunLocal, ticks: seq<Tick>, landing: ApplyReply, settle: SettleReplies)
    requires LoopReady(p, ses, loc, ticks)
    ensures var r := LoopSpec(p, ses, loc, ticks, landing, settle);
      r.session.best == RecordRun(ses.best, p.monitor, r.local.acc.sumV[HashRate], r.local.acc.countV[HashRate], p.frequency, p.coreVoltage)
    decreases |ticks|
  {
    var st := StepSpec(p, ses, loc, ticks[0], landing, settle);
    StepBest(p, ses, loc, ticks[0], landing, settle);
    if st.Continue? {
      ContinueReady(p, ses, loc, ticks, landing, settle);
      LoopBest(p, st.session, st.local, ticks[1..], landing, settle);
    } else {
      assert LoopSpec(p, ses, loc, ticks, landing, settle) == st.result;
    }
  }

  /** One step keeps the best result while the loop goes on, and records the run when it stops. */
  lemma StepBest(p: RunParams, ses: Session, loc: RunLocal, t: Tick, landing: ApplyReply, settle: SettleReplies)
    requires ses.globals.Total() && loc.acc.Total()
    ensures var st := StepSpec(p, ses, loc, t, landing, settle);
      if st.Continue? then st.session.best == ses.best
      else st.result.session.best == RecordRun(ses.best, p.monitor, st.result.local.acc.sumV[HashRate], st.result.local.acc.countV[HashRate], p.frequency, p.coreVoltage)
  {
    var ses1 := ses.(interrupted := ses.interrupted || t.sigint);
    if (p.monitor || !t.elapsed) && !ses1.interrupted && t.response.Some? {
      AcceptBest(p, ses1, loc, FromRaw(t.response.value), t.rebootOk, landing, settle);
    }
  }

  /** The body of the loop keeps the best result, or records the run when it aborts. */
  lemma AcceptBest(p: RunParams, ses: Session, loc: RunLocal, s: Snapshot, rebootOk: bool, landing: ApplyReply, settle: SettleReplies)
    requires ses.globals.Total() && loc.acc.Total()
    ensures var st := Accept(p, ses, loc, s, rebootOk, landing, settle);
      if st.Continue? then st.session.best == ses.best
      else st.result.session.best == RecordRun(ses.best, p.monitor, st.result.local.acc.sumV[HashRate], st.result.local.acc.countV[HashRate], p.frequency, p.coreVoltage)
  {
    var (ses2, loc2) := Fetched(ses, loc, s);
    var (ses3, stall3) := Watch(p.threshold, ses2, loc2.stall, s.hashRate, rebootOk);
    assert ses3.best == ses.best;
    var loc3 := loc2.(stall := stall3);
    if Classify(s).Some? {
      var lp := Landing(p.frequency, p.coreVoltage);
      var ses4 := SendSettings(ses3.(critical := true), lp.frequency, lp.coreVoltage, landing).0;
      assert ses4.best == ses.best;
      assert Abort(p, ses3, loc3.acc, landing, settle).best == RecordBest(p, ses4, loc3.acc).best;
    }
  }

  /** The flags after an accepted reading: the interrupt flag is untouched; the critical flag
      is raised exactly when the reading is critical, and the run then aborts for its reason. */
  lemma AcceptFlags(p: RunParams, ses: Session, loc: RunLocal, s: Snapshot, rebootOk: bool, landing: ApplyReply, settle: SettleReplies)
    requires ses.globals.Total() && loc.acc.Total()
    ensures var st := Accept(p, ses, loc, s, rebootOk, landing, settle);
      && st.After().interrupted == ses.interrupted
      && (st.Continue? ==> st.session.critical == ses.critical)
      && (st.Stop? ==>
            st.result.outcome == Aborted(Classify(s).value) && st.result.session.critical && st.result.session.info == Some(s))
  {
  }

  /** The flags after one step. */
  lemma StepFlags(p: RunParams, ses: Session, loc: RunLocal, t: Tick, landing: ApplyReply, settle: SettleReplies)
    requires ses.globals.Total() && loc.acc.Total()
    ensures var st := StepSpec(p, ses, loc, t, landing, settle);
      && (ses.interrupted ==> st.After().interrupted)
      && (st.Continue? ==> st.session.critical == ses.critical)
      && (st.Stop? ==>
            && !st.result.outcome.Skipped?
            && st.result.session.critical == (ses.critical || st.result.outcome.Aborted?)
            && (st.result.outcome.Aborted? ==>
                  st.result.session.info.Some? && Classify(st.result.session.info.value) == Some(st.result.outcome.reason))
            && (st.result.outcome.Ended? && p.monitor ==> st.result.session.interrupted))
  {
    var ses1 := ses.(interrupted := ses.interrupted || t.sigint);
    if (p.monitor || !t.elapsed) && !ses1.interrupted && t.response.Some? {
      AcceptFlags(p, ses1, loc, FromRaw(t.response.value), t.rebootOk, landing, settle);
    }
  }

  /** The flags are sticky; the critical flag is raised exactly by an abort, whose reason is the
      classification of the last accepted reading; and a monitor run only ends on SIGINT. */
  lemma {:induction false} LoopFlags(p: RunParams, ses: Session, loc: RunLocal, ticks: seq<Tick>, landing: ApplyReply, settle: SettleReplies)
    requires LoopReady(p, ses, loc, ticks)
    ensures var r := LoopSpec(p, ses, loc, ticks, landing, settle);
      && !r.outcome.Skipped?
      && (ses.interrupted ==> r.session.interrupted)
      && r.session.critical == (ses.critical || r.outcome.Aborted?)
      && (r.outcome.Aborted? ==> r.session.info.Some? && Classify(r.session.info.value) == Some(r.outcome.reason))
      && (r.outcome.Ended? && p.monitor ==> r.session.interrupted)
    decreases |ticks|
  {
    StepFlags(p, ses, loc, ticks[0], landing, settle);
    var st := StepSpec(p, ses, loc, ticks[0], landing, settle);
    if st.Continue? {
      ContinueReady(p, ses, loc, ticks, landing, settle);
      LoopFlags(p, st.session, st.local, ticks[1..], landing, settle);
    }
  }

  /** The last command is the settled point: the best point when it was tried and confirmed,
      the initial point otherwise. */
  predicate EndsSettled(ses: Session, useBest: bool, initial: Point, replies: SettleReplies) {
    && ses.sent != []
    && var last := ses.sent[|ses.sent| - 1];
       if useBest && HasBest(ses.best) && Applied(Clamp(ses.best.frequency.value, ses.best.coreVoltage.value), replies.best)
       then last == Patch(Clamp(ses.best.frequency.value, ses.best.coreVoltage.value))
       else last == Patch(Clamp(initial.frequency, initial.coreVoltage))
  }

  /** The commands of an abort that starts after `n` commands: restarts, then the landing
      point, then exactly the settling PATCHes `settle`. */
  predicate AbortCommands(sent: seq<Command>, n: nat, landing: Point, settle: seq<Command>) {
    && n + 1 + |settle| <= |sent|
    && sent[|sent| - |settle| - 1] == Patch(landing)
    && sent[|sent| - |settle|..] == settle
    && forall j :: n <= j < |sent| - |settle| - 1 ==> sent[j] == Restart
  }

  /** An abort sends the landing point and then settles: in monitor mode on the initial point
      alone, otherwise on the best point when it is confirmed, else the initial point. */
  lemma AbortSends(p: RunParams, ses: Session, acc: RunAcc, landing: ApplyReply, settle: SettleReplies)
    requires acc.Total()
    ensures var r := Abort(p, ses, acc, landing, settle);
      && r.critical
      && r.sent == ses.sent + [Patch(Landing(p.frequency, p.coreVoltage))] + SettlePatches(r.best, !p.monitor, p.initial, settle)
      && (p.monitor ==>
            r.sent == ses.sent + [Patch(Landing(p.frequency, p.coreVoltage)), Patch(Clamp(p.initial.frequency, p.initial.coreVoltage))])
      && EndsSettled(r, !p.monitor, p.initial, settle)
  {
    var lp := Landing(p.frequency, p.coreVoltage);
    LandingSentUnchanged(p.frequency, p.coreVoltage);
    var ses2 := SendSettings(ses.(critical := true), lp.frequency, lp.coreVoltage, landing).0;
    assert ses2.sent == ses.sent + [Patch(lp)];
    var ses3 := RecordBest(p, ses2, acc);
    var r := Settle(ses3, !p.monitor, p.initial, settle);
    assert r.best == ses3.best;
  }

  /** An accepted reading sends at most a restart and goes on, or aborts. */
  lemma AcceptCommands(p: RunParams, ses: Session, loc: RunLocal, s: Snapshot, rebootOk: bool, landing: ApplyReply, settle: SettleReplies)
    requires ses.globals.Total() && loc.acc.Total()
    ensures match Accept(p, ses, loc, s, rebootOk, landing, settle)
      case Continue(ses', _) => ses'.sent == ses.sent || ses'.sent == ses.sent + [Restart]
      case Stop(r) =>
        && r.outcome.Aborted? && ses.sent <= r.session.sent
        && EndsSettled(r.session, !p.monitor, p.initial, settle)
        && AbortCommands(r.session.sent, |ses.sent|, Landing(p.frequency, p.coreVoltage), SettlePatches(r.session.best, !p.monitor, p.initial, settle))
  {
    var (ses2, loc2) := Fetched(ses, loc, s);
    var (ses3, stall3) := Watch(p.threshold, ses2, loc2.stall, s.hashRate, rebootOk);
    assert ses3.sent == ses.sent || ses3.sent == ses.sent + [Restart];
    if Classify(s).Some? {
      AbortAfter(p, ses.sent, ses3, loc2.acc, landing, settle);
    }
  }

  /** An abort entered after at most one restart past `prefix`. */
  lemma AbortAfter(p: RunParams, prefix: seq<Command>, ses: Session, acc: RunAcc, landing: ApplyReply, settle: SettleReplies)
    requires acc.Total() && (ses.sent == prefix || ses.sent == prefix + [Restart])
    ensures var r := Abort(p, ses, acc, landing, settle);
      && prefix <= r.sent
      && EndsSettled(r, !p.monitor, p.initial, settle)
      && AbortCommands(r.sent, |prefix|, Landing(p.frequency, p.coreVoltage), SettlePatches(r.best, !p.monitor, p.initial, settle))
  {
    AbortSends(p, ses, acc, landing, settle);
    var r := Abort(p, ses, acc, landing, settle);
    RestartThenAbort(prefix, ses.sent, r.sent, Landing(p.frequency, p.coreVoltage), SettlePatches(r.best, !p.monitor, p.initial, settle));
  }

  /** Commands that extend `prefix` by at most a restart, then by the landing point and the
      settling PATCHes, form an abort after `prefix`. */
  lemma RestartThenAbort(prefix: seq<Command>, mid: seq<Command>, sent: seq<Command>, landing: Point, settle: seq<Command>)
    requires mid == prefix || mid == prefix + [Restart]
    requires sent == mid + [Patch(landing)] + settle
    ensures prefix <= sent && AbortCommands(sent, |prefix|, landing, settle)
  {
    assert forall j :: |prefix| <= j < |mid| ==> sent[j] == mid[j] == Restart;
    assert sent[|sent| - |settle|..] == settle;
  }

  /** One step: a continuing step sends at most a restart; an ending step sends nothing; an
      aborting step sends the landing and then settles. */
  lemma StepCommands(p: RunParams, ses: Session, loc: RunLocal, t: Tick, landing: ApplyReply, settle: SettleReplies)
    requires ses.globals.Total() && loc.acc.Total()
    ensures match StepSpec(p, ses, loc, t, landing, settle)
      case Continue(ses', _) => ses'.sent == ses.sent || ses'.sent == ses.sent + [Restart]
      case Stop(r) =>
        && ses.sent <= r.session.sent
        && (r.outcome.Ended? ==> r.session.sent == ses.sent)
        && (r.outcome.Aborted? ==>
              EndsSettled(r.session, !p.monitor, p.initial, settle)
              && AbortCommands(r.session.sent, |ses.sent|, Landing(p.frequency, p.coreVoltage), SettlePatches(r.session.best, !p.monitor, p.initial, settle)))
  {
    var ses1 := ses.(interrupted := ses.interrupted || t.sigint);
    if (p.monitor || !t.elapsed) && !ses1.interrupted && t.response.Some? {
      AcceptCommands(p, ses1, loc, FromRaw(t.response.value), t.rebootOk, landing, settle);
    }
  }

  /** Commands only accumulate. While the loop runs, the only commands are restarts; a
      critical abort then sends the landing point, and after it only the settling patches, the
      last of which is the best or the initial point. */
  lemma {:induction false} LoopCommands(p: RunParams, ses: Session, loc: RunLocal, ticks: seq<Tick>, landing: ApplyReply, settle: SettleReplies)
    requires LoopReady(p, ses, loc, ticks)
    ensures var r := LoopSpec(p, ses, loc, ticks, landing, settle);
      && ses.sent <= r.session.sent
      && (r.outcome.Ended? ==> forall j :: |ses.sent| <= j < |r.session.sent| ==> r.session.sent[j] == Restart)
      && (r.outcome.Aborted? ==>
            EndsSettled(r.session, !p.monitor, p.initial, settle)
            && AbortCommands(r.session.sent, |ses.sent|, Landing(p.frequency, p.coreVoltage), SettlePatches(r.session.best, !p.monitor, p.initial, settle)))
    decreases |ticks|
  {
    StepCommands(p, ses, loc, ticks[0], landing, settle);
    var st := StepSpec(p, ses, loc, ticks[0], landing, settle);
    if st.Continue? {
      ContinueReady(p, ses, loc, ticks, landing, settle);
      LoopCommands(p, st.session, st.local, ticks[1..], landing, settle);
      var r := LoopSpec(p, st.session, st.local, ticks[1..], landing, settle);
      RestartsPrefix(ses.sent, st.session.sent, r.session.sent, Landing(p.frequency, p.coreVoltage), SettlePatches(r.session.best, !p.monitor, p.initial, settle));
    } else {
      assert LoopSpec(p, ses, loc, ticks, landing, settle) == st.result;
    }
  }

  /** Commands after at most one more restart: only restarts, or an abort, after the longer
      prefix are so after the shorter one too. */
  lemma RestartsPrefix(prefix: seq<Command>, mid: seq<Command>, sent: seq<Command>, landing: Point, settle: seq<Command>)
    requires mid == prefix || mid == prefix + [Restart]
    requires mid <= sent
    ensures prefix <= sent
    ensures (forall j :: |mid| <= j < |sent| ==> sent[j] == Restart) ==> forall j :: |prefix| <= j < |sent| ==> sent[j] == Restart
    ensures AbortCommands(sent, |mid|, landing, settle) ==> AbortCommands(sent, |prefix|, landing, settle)
  {
    assert forall j :: |prefix| <= j < |mid| ==> sent[j] == mid[j] == Restart;
  }

  /** `run_test` and the extremes: the global extremes only widen and span the run's. */
  lemma RunExtremes(p: RunParams, ses: Session, inputs: RunInputs)
    requires ses.globals.Total() && Terminates(inputs, p.monitor)
    ensures var r := RunSpec(p, ses, inputs);
      Covers(r.session.globals, ses.globals) && Covers(r.session.globals, r.local.acc.ext)
  {
    var (ses1, ok) := SendSettings(ses, p.frequency, p.coreVoltage, inputs.start);
    CoversReflexive(ses.globals);
    if ok {
      LoopExtremes(p, ses1, StartLocal(), inputs.ticks, inputs.landing, inputs.settle);
    }
  }

  /** `run_test` and its accumulators: they are consistent with the accepted readings, and
      `reading_count` counts all of them but a critical last one. */
  lemma RunAccumulators(p: RunParams, ses: Session, inputs: RunInputs)
    requires ses.globals.Total() && Terminates(inputs, p.monitor)
    ensures var r := RunSpec(p, ses, inputs);
      && Consistent(r.local.acc)
      && (r.outcome.Ended? || r.outcome.Skipped? ==> r.local.readingCount == |r.local.acc.readings|)
      && (r.outcome.Aborted? ==> r.local.readingCount + 1 == |r.local.acc.readings|)
  {
    var (ses1, ok) := SendSettings(ses, p.frequency, p.coreVoltage, inputs.start);
    EmptyAccConsistent();
    if ok {
      LoopAccumulators(p, ses1, StartLocal(), inputs.ticks, inputs.landing, inputs.settle);
      LoopFlags(p, ses1, StartLocal(), inputs.ticks, inputs.landing, inputs.settle);
      assert RunSpec(p, ses, inputs) == LoopSpec(p, ses1, StartLocal(), inputs.ticks, inputs.landing, inputs.settle);
    } else {
      assert RunSpec(p, ses, inputs) == RunResult(ses1.(interrupted := ses1.interrupted || inputs.applySigint), Skipped, StartLocal());
    }
  }

  /** `run_test` and the best result: it is the run's own update (a skipped run has no
      readings, so it changes nothing), stays valid, never decreases, and is untouched in
      monitor mode. */
  lemma RunBest(p: RunParams, ses: Session, inputs: RunInputs)
    requires ses.globals.Total() && Terminates(inputs, p.monitor) && Valid(ses.best)
    ensures var r := RunSpec(p, ses, inputs);
      && r.session.best == RecordRun(ses.best, p.monitor, r.local.acc.sumV[HashRate], r.local.acc.countV[HashRate], p.frequency, p.coreVoltage)
      && Valid(r.session.best) && r.session.best.hashrate >= ses.best.hashrate
      && (p.monitor ==> r.session.best == ses.best)
  {
    var (ses1, ok) := SendSettings(ses, p.frequency, p.coreVoltage, inputs.start);
    if ok {
      LoopBest(p, ses1, StartLocal(), inputs.ticks, inputs.landing, inputs.settle);
    }
    var r := RunSpec(p, ses, inputs);
    RecordRunKeepsValid(ses.best, p.monitor, r.local.acc.sumV[HashRate], r.local.acc.countV[HashRate], p.frequency, p.coreVoltage);
  }

  /** `run_test` and the device: the run's own point is sent first; a skipped run sends nothing
      else and changes nothing else; an ended run then sends only restarts; an aborted run sends
      the landing point and settles, and raised the critical flag for a critical reading. The
      flags never reset. */
  lemma RunCommands(p: RunParams, ses: Session, inputs: RunInputs)
    requires ses.globals.Total() && Terminates(inputs, p.monitor)
    ensures var r := RunSpec(p, ses, inputs);
      && ses.sent < r.session.sent && r.session.sent[|ses.sent|] == Patch(Clamp(p.frequency, p.coreVoltage))
      && (r.outcome.Skipped? <==> !Applied(Clamp(p.frequency, p.coreVoltage), inputs.start))
      && (r.outcome.Skipped? ==>
            r.session == ses.(sent := ses.sent + [Patch(Clamp(p.frequency, p.coreVoltage))],
                              interrupted := ses.interrupted || inputs.applySigint))
      && (r.outcome.Ended? ==> forall j :: |ses.sent| < j < |r.session.sent| ==> r.session.sent[j] == Restart)
      && (r.outcome.Aborted? ==>
            EndsSettled(r.session, !p.monitor, p.initial, inputs.settle)
            && AbortCommands(r.session.sent, |ses.sent| + 1, Landing(p.frequency, p.coreVoltage), SettlePatches(r.session.best, !p.monitor, p.initial, inputs.settle)))
      && (ses.interrupted ==> r.session.interrupted)
      && r.session.critical == (ses.critical || r.outcome.Aborted?)
      && (r.outcome.Aborted? ==> r.session.info.Some? && Classify(r.session.info.value) == Some(r.outcome.reason))
      && (r.outcome.Ended? && p.monitor ==> r.session.interrupted)
  {
    var (ses1, ok) := SendSettings(ses, p.frequency, p.coreVoltage, inputs.start);
    if ok {
      LoopCommands(p, ses1, StartLocal(), inputs.ticks, inputs.landing, inputs.settle);
      LoopFlags(p, ses1, StartLocal(), inputs.ticks, inputs.landing, inputs.settle);
      var r := LoopSpec(p, ses1, StartLocal(), inputs.ticks, inputs.landing, inputs.settle);
      assert r.session.sent[|ses.sent|] == ses1.sent[|ses.sent|];
    }
  }

  // ---------------------------------------------------------------------------------------
  // Properties of the sweep and of the whole session

  /** Recording runs in two batches is recording them all in order. */
  lemma {:induction false} RecordAllAppend(b: Best, xs: seq<RunSummary>, ys: seq<RunSummary>)
    ensures RecordAll(b, xs + ys) == RecordAll(RecordAll(b, xs), ys)
    decreases |ys|
  {
    if ys == [] {
      assert xs + ys == xs;
    } else {
      var init := ys[..|ys| - 1];
      assert (xs + ys)[..|xs + ys| - 1] == xs + init;
      RecordAllAppend(b, xs, init);
    }
  }

  /** A skipped run leaves its local state fresh. */
  lemma RunSkippedUnchanged(p: RunParams, ses: Session, inputs: RunInputs)
    requires ses.globals.Total() && Terminates(inputs, p.monitor)
    ensures var r := RunSpec(p, ses, inputs);
      r.outcome.Skipped? ==> r.local == StartLocal() && r.local.acc.countV[HashRate] == 0
  {
    var (ses1, ok) := SendSettings(ses, p.frequency, p.coreVoltage, inputs.start);
    if ok {
      LoopFlags(p, ses1, StartLocal(), inputs.ticks, inputs.landing, inputs.settle);
    }
  }

  lemma RecordAllSingle(b: Best, x: RunSummary)
    ensures RecordAll(b, [x]) == RecordRun(b, false, x.sum, x.count, x.frequency, x.coreVoltage)
  {
    assert [x][..0] == [];
  }

  /** A run's best-result update, as a recorded summary. */
  lemma RunRecordsSummary(p: RunParams, ses: Session, inputs: RunInputs)
    requires ses.globals.Total() && Terminates(inputs, p.monitor) && Valid(ses.best) && !p.monitor
    ensures var r := RunSpec(p, ses, inputs);
      r.session.best == RecordAll(ses.best, Summary(p, r))
  {
    RunBest(p, ses, inputs);
    var r := RunSpec(p, ses, inputs);
    if !r.outcome.Skipped? {
      RecordAllSingle(ses.best, Summary(p, r)[0]);
    } else {
      RunSkippedUnchanged(p, ses, inputs);
    }
  }

  /** The last command is one of the two points the controller may leave the device on. */
  predicate LastIsSafe(ses: Session, initial: Point) {
    && ses.sent != []
    && var last := ses.sent[|ses.sent| - 1];
       || last == Patch(Clamp(initial.frequency, initial.coreVoltage))
       || (HasBest(ses.best) && last == Patch(Clamp(ses.best.frequency.value, ses.best.coreVoltage.value)))
  }

  /** The rest of a sweep's inputs after its first run. */
  lemma AllTerminateTail(runs: seq<RunInputs>, monitor: bool)
    requires runs != [] && AllTerminate(runs, monitor)
    ensures Terminates(runs[0], monitor) && AllTerminate(runs[1..], monitor)
  {
    forall i | 0 <= i < |runs[1..]| ensures Terminates(runs[1..][i], monitor) {
      assert runs[1..][i] == runs[i + 1];
    }
  }

  /** The sweep's best result is the in-order record of the runs it executed. */
  lemma {:induction false} SweepBest(cfg: Config, ses: Session, freqs: seq<int>, runs: seq<RunInputs>)
    requires ses.globals.Total() && |runs| == |freqs| && AllTerminate(runs, false) && Valid(ses.best)
    ensures var r := SweepSpec(cfg, ses, freqs, runs);
      r.session.best == RecordAll(ses.best, r.summaries) && Valid(r.session.best)
    decreases |freqs|
  {
    if freqs != [] {
      var p := SweepParams(cfg, freqs[0]);
      AllTerminateTail(runs, false);
      RunBest(p, ses, runs[0]);
      RunRecordsSummary(p, ses, runs[0]);
      var run := RunSpec(p, ses, runs[0]);
      if !(run.session.interrupted || run.session.critical) {
        SweepBest(cfg, run.session, freqs[1..], runs[1..]);
        var rest := SweepSpec(cfg, run.session, freqs[1..], runs[1..]);
        RecordAllAppend(ses.best, Summary(p, run), rest.summaries);
      }
    }
  }

  /** Each recorded run of the sweep ran at one of the candidate frequencies with the
      configured voltage. */
  lemma {:induction false} SweepSummaries(cfg: Config, ses: Session, freqs: seq<int>, runs: seq<RunInputs>)
    requires ses.globals.Total() && |runs| == |freqs| && AllTerminate(runs, false)
    ensures var r := SweepSpec(cfg, ses, freqs, runs);
      && |r.summaries| <= r.executed
      && forall i :: 0 <= i < |r.summaries| ==> r.summaries[i].frequency in freqs && r.summaries[i].coreVoltage == cfg.coreVoltage
    decreases |freqs|
  {
    if freqs != [] {
      var p := SweepParams(cfg, freqs[0]);
      AllTerminateTail(runs, false);
      var run := RunSpec(p, ses, runs[0]);
      var sum := Summary(p, run);
      if !(run.session.interrupted || run.session.critical) {
        SweepSummaries(cfg, run.session, freqs[1..], runs[1..]);
        var rest := SweepSpec(cfg, run.session, freqs[1..], runs[1..]);
        SummariesJoin(freqs, cfg.coreVoltage, sum, rest.summaries);
      } else {
        SummariesJoin(freqs, cfg.coreVoltage, sum, []);
      }
    }
  }

  /** The summary of the first run followed by those of the later ones all lie on the
      candidate frequencies. */
  lemma SummariesJoin(freqs: seq<int>, coreVoltage: int, first: seq<RunSummary>, rest: seq<RunSummary>)
    requires freqs != [] && |first| <= 1
    requires forall i :: 0 <= i < |first| ==> first[i].frequency == freqs[0] && first[i].coreVoltage == coreVoltage
    requires forall i :: 0 <= i < |rest| ==> rest[i].frequency in freqs[1..] && rest[i].coreVoltage == coreVoltage
    ensures forall i :: 0 <= i < |first + rest| ==> (first + rest)[i].frequency in freqs && (first + rest)[i].coreVoltage == coreVoltage
  {
    assert forall x :: x in freqs[1..] ==> x in freqs;
    forall i | 0 <= i < |first + rest| ensures (first + rest)[i].frequency in freqs {
      if i >= |first| {
        assert (first + rest)[i] == rest[i - |first|];
      }
    }
  }

  /** The sweep executes every candidate unless SIGINT or a critical reading ends it early;
      after a critical reading the device was settled by the aborting run on the best or the
      initial point, and the reading that caused it was critical. */
  lemma {:induction false} SweepExit(cfg: Config, ses: Session, freqs: seq<int>, runs: seq<RunInputs>)
    requires ses.globals.Total() && |runs| == |freqs| && AllTerminate(runs, false)
    requires !ses.critical && !ses.interrupted
    ensures var r := SweepSpec(cfg, ses, freqs, runs);
      && r.executed <= |freqs| && (freqs != [] ==> r.executed >= 1)
      && (r.executed < |freqs| ==> r.session.interrupted || r.session.critical)
      && (freqs != [] ==> ses.sent < r.session.sent)
      && (r.session.critical ==> LastIsSafe(r.session, InitialPoint(cfg)))
      && (r.session.critical ==> r.session.info.Some? && Classify(r.session.info.value).Some?)
    decreases |freqs|
  {
    if freqs != [] {
      var p := SweepParams(cfg, freqs[0]);
      AllTerminateTail(runs, false);
      RunCommands(p, ses, runs[0]);
      var run := RunSpec(p, ses, runs[0]);
      if !(run.session.interrupted || run.session.critical) {
        SweepExit(cfg, run.session, freqs[1..], runs[1..]);
      }
    }
  }

  /** The sweep only widens the global extremes. */
  lemma {:induction false} SweepExtremes(cfg: Config, ses: Session, freqs: seq<int>, runs: seq<RunInputs>)
    requires ses.globals.Total() && |runs| == |freqs| && AllTerminate(runs, false)
    ensures Covers(SweepSpec(cfg, ses, freqs, runs).session.globals, ses.globals)
    decreases |freqs|
  {
    CoversReflexive(ses.globals);
    if freqs != [] {
      var p := SweepParams(cfg, freqs[0]);
      AllTerminateTail(runs, false);
      RunExtremes(p, ses, runs[0]);
      var run := RunSpec(p, ses, runs[0]);
      if !(run.session.interrupted || run.session.critical) {
        SweepExtremes(cfg, run.session, freqs[1..], runs[1..]);
        CoversTransitive(SweepSpec(cfg, run.session, freqs[1..], runs[1..]).session.globals, run.session.globals, ses.globals);
      }
    }
  }

  /** `main` begins by sending the start point, and exits at once when it is not confirmed. */
  lemma MainSetup(cfg: Config, inputs: SessionInputs)
    requires ValidConfig(cfg) && InputsFit(cfg, inputs)
    ensures var r := MainSpec(cfg, inputs);
      var start := Clamp(StartFrequency(cfg.frequency, cfg.range, cfg.monitor), cfg.coreVoltage);
      && r.session.sent != [] && r.session.sent[0] == Patch(start)
      && (r.outcome.SetupFailed? <==> !Applied(start, inputs.setup))
      && (r.outcome.SetupFailed? ==> r.session == InitialSession().(sent := [Patch(start)]))
  {
    var start := StartFrequency(cfg.frequency, cfg.range, cfg.monitor);
    var (ses, ok) := SendSettings(InitialSession(), start, cfg.coreVoltage, inputs.setup);
    if ok {
      if cfg.monitor {
        RunCommands(MonitorParams(cfg), ses, inputs.runs[0]);
      } else {
        var freqs := Candidates(cfg.frequency, cfg.range, cfg.step);
        CandidatesCount(cfg.frequency, cfg.range, cfg.step);
        SweepExit(cfg, ses, freqs, inputs.runs);
        var sw := SweepSpec(cfg, ses, freqs, inputs.runs);
        assert sw.session.sent[0] == ses.sent[0];
      }
    }
  }

  /** The best result of a session: untouched in monitor mode; otherwise the maximum average
      over the recorded runs, at the first run that reached it, or nothing when no run averaged
      above zero. */
  lemma MainBest(cfg: Config, inputs: SessionInputs)
    requires ValidConfig(cfg) && InputsFit(cfg, inputs)
    ensures var r := MainSpec(cfg, inputs);
      && (cfg.monitor || r.outcome.SetupFailed? ==> r.session.best == NoBest)
      && (!cfg.monitor && r.outcome.Completed? ==>
            var b, runs := r.session.best, r.outcome.summaries;
            && b == RecordAll(NoBest, runs) && Valid(b)
            && (forall i :: 0 <= i < |runs| && runs[i].count > 0 ==> Average(runs[i]) <= b.hashrate)
            && (b.frequency.None? ==> b.hashrate == 0.0)
            && (b.frequency.Some? ==>
                  exists i :: 0 <= i < |runs| && runs[i].count > 0 && Average(runs[i]) == b.hashrate
                    && b.frequency == Some(runs[i].frequency) && b.coreVoltage == Some(runs[i].coreVoltage)
                    && forall j :: 0 <= j < i && runs[j].count > 0 ==> Average(runs[j]) < b.hashrate))
  {
    var start := StartFrequency(cfg.frequency, cfg.range, cfg.monitor);
    var (ses, ok) := SendSettings(InitialSession(), start, cfg.coreVoltage, inputs.setup);
    if ok {
      if cfg.monitor {
        RunBest(MonitorParams(cfg), ses, inputs.runs[0]);
      } else {
        var freqs := Candidates(cfg.frequency, cfg.range, cfg.step);
        SweepBest(cfg, ses, freqs, inputs.runs);
        var sw := SweepSpec(cfg, ses, freqs, inputs.runs);
        BestIsFirstMaximum(sw.summaries);
      }
    }
  }

  /** Where a session leaves the device: outside monitor mode the last command is the best
      point or the initial point; a monitor run stopped by a critical reading ends on the
      initial point; and a critical flag always comes from a critical reading. */
  lemma MainSettles(cfg: Config, inputs: SessionInputs)
    requires ValidConfig(cfg) && InputsFit(cfg, inputs)
    ensures var r := MainSpec(cfg, inputs);
      && (!cfg.monitor && r.outcome.Completed? ==> LastIsSafe(r.session, InitialPoint(cfg)))
      && (!cfg.monitor && r.outcome.Completed? && !r.session.critical ==>
            EndsSettled(r.session, true, InitialPoint(cfg), inputs.settle))
      && (cfg.monitor && r.session.critical ==>
            r.session.sent != [] && r.session.sent[|r.session.sent| - 1] == Patch(Clamp(cfg.frequency, cfg.coreVoltage)))
      && (r.session.critical ==> r.session.info.Some? && Classify(r.session.info.value).Some?)
  {
    var start := StartFrequency(cfg.frequency, cfg.range, cfg.monitor);
    var (ses, ok) := SendSettings(InitialSession(), start, cfg.coreVoltage, inputs.setup);
    if ok {
      if cfg.monitor {
        RunCommands(MonitorParams(cfg), ses, inputs.runs[0]);
      } else {
        var freqs := Candidates(cfg.frequency, cfg.range, cfg.step);
        SweepExit(cfg, ses, freqs, inputs.runs);
      }
    }
  }

  /** A SIGINT that arrives while a skipped run's settings fail to apply ends the sweep after
      that run: `main` tests the flag right after `run_test` returns. */
  lemma SkippedSigintEndsSweep(cfg: Config, ses: Session, freqs: seq<int>, runs: seq<RunInputs>)
    requires ses.globals.Total() && |runs| == |freqs| && AllTerminate(runs, false) && freqs != []
    requires !Applied(Clamp(freqs[0], cfg.coreVoltage), runs[0].start) && runs[0].applySigint
    ensures var r := SweepSpec(cfg, ses, freqs, runs);
      r.executed == 1 && r.session.interrupted && r.summaries == []
      && r.session.sent == ses.sent + [Patch(Clamp(freqs[0], cfg.coreVoltage))]
  {
    AllTerminateTail(runs, false);
    RunCommands(SweepParams(cfg, freqs[0]), ses, runs[0]);
  }

  /** How far a session gets: outside monitor mode it runs every candidate unless SIGINT or a
      critical reading ends the sweep early; the monitor run ends only on SIGINT or a critical
      reading, or is skipped when its settings are not confirmed. */
  lemma MainRuns(cfg: Config, inputs: SessionInputs)
    requires ValidConfig(cfg) && InputsFit(cfg, inputs)
    ensures var r := MainSpec(cfg, inputs);
      && (!cfg.monitor && r.outcome.Completed? ==>
            var n, total := r.outcome.executed, TotalTests(cfg.frequency, cfg.range, cfg.step, false);
            1 <= n <= total && (n < total ==> r.session.interrupted || r.session.critical))
      && (cfg.monitor && r.outcome.Completed? ==>
            r.session.interrupted || r.session.critical
            || !Applied(Clamp(cfg.frequency, cfg.coreVoltage), inputs.runs[0].start))
  {
    var start := StartFrequency(cfg.frequency, cfg.range, cfg.monitor);
    var (ses, ok) := SendSettings(InitialSession(), start, cfg.coreVoltage, inputs.setup);
    if ok {
      if cfg.monitor {
        RunCommands(MonitorParams(cfg), ses, inputs.runs[0]);
      } else {
        var freqs := Candidates(cfg.frequency, cfg.range, cfg.step);
        CandidatesCount(cfg.frequency, cfg.range, cfg.step);
        SweepExit(cfg, ses, freqs, inputs.runs);
      }
    }
  }
}
