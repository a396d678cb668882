# Bitaxe tuning controller in Dafny

This project models the decision logic of the Bitaxe tuning controller and proves properties
about it. It covers two files:

- `bitaxe_status_logger.py` sweeps a BM1370 miner across a frequency range at a fixed core
  voltage. For each point it runs a timed telemetry loop, detects stalled hashrates, aborts on
  critical temperature or power, and remembers the best average hashrate. Finally it leaves the
  device on the best point or on the initial one.
- `bm1370_voltage_calculator.py` estimates the core voltage and hashrate for a frequency from a
  linear curve. When the curve goes over 1350 mV it falls back to the highest safe pair below
  the requested frequency, and removes the critical frequency from the table.

The Dafny modules follow the program's structure:

| module | file | contents |
|---|---|---|
| `Common` | common.dfy | `Option`/`Result`, Python's `range` |
| `Telemetry` | telemetry.dfy | the ten telemetry fields, field defaults, `jth`, min/max with ±infinity, run accumulators |
| `Settings` | settings.dfy | clamping to 400 MHz / 1000 mV, the ±1 read-back tolerance |
| `Safety` | safety.dfy | critical classification, reason precedence, the −10/−10 landing |
| `StallDetector` | stall.dfy | the identical-hashrate counter and the restart request |
| `BestResult` | best.dfy | best-hashrate tracking with a strict `>` |
| `Sweep` | sweep.dfy | candidate frequencies, `total_tests`, the start frequency |
| `Arguments` | arguments.dfy | the IPv4 pattern of `validate_ip`, the guards of `parse_arguments` |
| `RunModel` | run_model.dfy | `run_test` and `main` as pure functions of what the device and the operator do |
| `StatusLogger` | status_logger.dfy | `SessionState` and `RunStats` classes whose methods change state, each proved to compute the `RunModel` function |
| `VoltageCalculator` | voltage_calculator.dfy | `calculate_voltage` over a `PairTable` class, and `process_frequencies` |

The device, the clock and the operator are inputs:

- An `ApplyReply` stands for one `set_system_settings` call. It carries whether the PATCH went
  through and the read-back (`None` when the verifying GET failed; a field missing from it
  defaults to 0).
- A `Tick` stands for one evaluation of the `run_test` loop condition. It carries whether SIGINT
  arrived, whether the run duration has elapsed, the telemetry reply (`None` when the request
  failed), and whether a restart request would succeed.
- The commands sent to the device (PATCH payloads and restarts) are recorded in order in
  `Session.sent`. This is the observable the proofs talk about.

Telemetry values are `real`. The curve coefficients 0.5829, 716.65 and 2.15 are exact decimals.

### Behaviour worth noting

- The stall detector compares hashrates with exact `==`. It requests a restart only when the
  counter is strictly greater than the threshold (`bitaxe_status_logger.py:344,346`).
- A critical reading ends the run in monitor mode too. The device is then set back to the
  initial point (`bitaxe_status_logger.py:385-393`).
- After a critical reading, the best-result update runs before the settling step. So the point
  the device is settled on can be the aborted run's own point, when that run's average was the
  best so far (`bitaxe_status_logger.py:373-389`).
- The program has no lookup-table mode; the sweep varies only the frequency
  (`bitaxe_status_logger.py:458`).
- `is_interrupted` is read at the loop condition (`bitaxe_status_logger.py:335`) and at the
  sweep's `break` test (`bitaxe_status_logger.py:462`). An interrupt therefore finishes the
  current iteration before the run ends. One that arrives while a run's settings fail to apply
  ends the sweep right after that skipped run (`RunInputs.applySigint`).
- A malformed IP address is reported only after all five integer guards have passed
  (`bitaxe_status_logger.py:131`).

## Model

| member | source | states |
|---|---|---|
| Common.RangeLength | bm1370_voltage_calculator.py:35 | `range(start, stop, step)` has `(stop - start - 1) / step + 1` elements when `start < stop`, otherwise none |
| Common.RangeElement | bitaxe_status_logger.py:458 | element `i` of a range is `start + i * step` and lies in `[start, stop)` |
| Common.RangeAscending | bitaxe_status_logger.py:458 | a range with a positive step is strictly ascending |
| Telemetry.Efficiency | bitaxe_status_logger.py:148 | `jth` times hashrate/1000 is the power when the hashrate is positive, otherwise `jth` is 0 |
| Telemetry.FromRaw | bitaxe_status_logger.py:139-148 | each of the nine reported fields is kept when present; a missing frequency becomes 550, a missing coreVoltage or coreVoltageActual 1250, and each other missing field 0; `jth` is `Efficiency` of the stored power and hashrate |
| Telemetry.MinWith | bitaxe_status_logger.py:152 | `min` with a reading is at most both arguments and is one of them |
| Telemetry.MaxWith | bitaxe_status_logger.py:153 | `max` with a reading is at least both arguments and is one of them |
| Telemetry.NoExtremes | bitaxe_status_logger.py:44-45 | the initial dictionaries map every field to +infinity (min) and −infinity (max) |
| Telemetry.Widen | bitaxe_status_logger.py:154-155 | after a reading, every field's min is at most and max at least that reading; the new extremes span the old |
| Telemetry.WidenKeepsCovers | bitaxe_status_logger.py:152-155 | extremes that span the run's keep spanning them after both take the same reading |
| Telemetry.EmptyAcc | bitaxe_status_logger.py:327-331 | a run starts with zero sums, zero counts and no hashrate readings |
| Telemetry.Accumulate | bitaxe_status_logger.py:151-160 | one reading raises every field's count by exactly 1 and its sum by the value, widens the run's min/max around it, and appends its hashrate to the readings |
| Telemetry.EmptyAccConsistent | bitaxe_status_logger.py:327-331 | the initial accumulators agree with an empty list of readings |
| Telemetry.AccumulateConsistent | bitaxe_status_logger.py:156-160 | accumulation keeps the hashrate count equal to the number of readings, the sum equal to their sum, and every reading inside the run's min/max |
| Settings.Clamp | bitaxe_status_logger.py:169-170 | the payload is `(max(400, f), max(1000, v))` by cases: at or above a minimum the request is kept, below it the minimum is sent |
| Settings.ClampIdempotent | bitaxe_status_logger.py:169-170 | clamping a clamped point changes nothing |
| Settings.ClampExample | bitaxe_status_logger.py:169-173 | `(300, 900)` is sent as `(400, 1000)` |
| Settings.Applied | bitaxe_status_logger.py:175-199 | a call succeeds iff the PATCH succeeded, the verifying GET answered, and both read-back values are within ±1 of the clamped request |
| Settings.ClampedRequestVerifies | bitaxe_status_logger.py:169-188 | a `(300, 900)` request read back as 400/1000 succeeds |
| Settings.ToleranceBothSides | bitaxe_status_logger.py:188 | every read-back within ±1 on both axes succeeds |
| Settings.FailuresNeverVerify | bitaxe_status_logger.py:192-199 | a failed PATCH or a failed read-back never succeeds, whatever the request |
| Safety.Classify | bitaxe_status_logger.py:359-367 | a reading is critical iff temp ≥ 67, vrTemp ≥ 90 or power ≥ 26; the reason is temperature first, then VR temperature, then power, each case as an iff |
| Safety.ClassifyIsFirstOver | bitaxe_status_logger.py:359-367 | the reason equals the first over-threshold check in precedence order, and a reason exists iff some field is over its threshold |
| Safety.Landing | bitaxe_status_logger.py:363-364 | the landing is `(max(400, f−10), max(1000, v−10))`; it is exactly 10 below wherever that stays above the minimum, and never above the start point or the minimum |
| Safety.LandingSentUnchanged | bitaxe_status_logger.py:363-370 | the landing point passes through `set_system_settings` unchanged |
| Safety.CriticalTemperatureScenario | bitaxe_status_logger.py:359-370 | temperature 68 is a critical temperature; 650/1200 lands at 640/1190; 400/1000 stays at 400/1000 |
| StallDetector.Observe | bitaxe_status_logger.py:342-357 | a different reading resets the counter to 1 and stores that reading; an equal one increments the counter; a restart is requested iff the incremented count exceeds the threshold; a successful restart clears the counter and the stored reading, a failed one changes neither |
| StallDetector.RebootsPeriodically | bitaxe_status_logger.py:344-352 | with successful restarts, `m` identical readings request `m / (n+1)` restarts and leave the counter at `m % (n+1)` |
| StallDetector.OneRebootAfterThresholdPlusOne | bitaxe_status_logger.py:346 | threshold `n` is reached by `n+1` identical readings (one restart); `n` readings request none |
| StallDetector.FailedRebootsRetry | bitaxe_status_logger.py:353-354 | with failing restarts the counter keeps climbing and every identical reading beyond the threshold requests another restart |
| BestResult.RecordRun | bitaxe_status_logger.py:405-410 | best changes only outside monitor mode, only with readings, and only for an average strictly greater than the stored one, which it then stores with the run's point; best never decreases |
| BestResult.RecordRunKeepsValid | bitaxe_status_logger.py:373-380 | the best point is either both unset with hashrate 0, or both set with a positive hashrate, before and after an update |
| BestResult.EqualAverageKeepsBest | bitaxe_status_logger.py:377 | an average equal to the stored best leaves the best unchanged |
| BestResult.BestIsFirstMaximum | bitaxe_status_logger.py:404-410 | over a sequence of runs the best is the maximum average among runs with readings, at the first run reaching it, or nothing when no run averaged above 0 |
| Sweep.CandidatesCount | bitaxe_status_logger.py:429 | `total_tests` equals the number of sweep candidates and is at least 1 |
| Sweep.CandidateAt | bitaxe_status_logger.py:437-458 | candidate `i` is `f0 − r + i·step`, within `[f0 − r, f0 + r]`, strictly ascending, the first being the start frequency |
| Sweep.SweepScenario | bitaxe_status_logger.py:429 | 650 ± 10 step 2 gives the 11 candidates 640, 642, …, 660 |
| Arguments.ScanCorrect | bitaxe_status_logger.py:66 | the character scanner accepts exactly four dot-separated groups of 1–3 ASCII digits |
| Arguments.MatchesIpPatternScan | bitaxe_status_logger.py:66-67 | `re.match` of the pattern succeeds iff the string is a dotted quad, optionally followed by a single final newline (Python's `$`) |
| Arguments.ValidateIp | bitaxe_status_logger.py:64-69 | success iff the pattern matches, with result `"http://" + ip`; otherwise the documented error message |
| Arguments.ValidateIpDocumented | bitaxe_status_logger.py:64-69 | `192.168.2.205` becomes `http://192.168.2.205` |
| Arguments.ValidateIpNoOctetRange | bitaxe_status_logger.py:66 | `999.999.999.999` is accepted: there is no 0–255 check |
| Arguments.ValidateIpTrailingNewline | bitaxe_status_logger.py:66-69 | an address followed by a newline is accepted and kept as given |
| Arguments.ValidateIpThreeGroups | bitaxe_status_logger.py:66-68 | `1.2.3` is rejected |
| Arguments.ParseArguments | bitaxe_status_logger.py:120-131 | success iff voltage ≥ 1000, frequency ≥ 400, range ≥ 0, step > 0, reboot absent or positive and the IP matches; each failing guard yields its own message, in source order; a malformed IP after the five guards yields the invalid-IP error |
| Arguments.AcceptedConfigSweeps | bitaxe_status_logger.py:424-437 | every accepted command line gives `total_tests` candidates, at least one, starting at the start frequency |
| RunModel.InitialSession | bitaxe_status_logger.py:32-55 | at start the extremes are ±infinity, no reading is stored, best is unset, no command was sent and both flags are clear |
| RunModel.Settle | bitaxe_status_logger.py:384-392 | settling appends exactly one of three PATCH lists and changes nothing else: the best point alone when it exists, is wanted and is confirmed; the best point then the initial point when it fails; the initial point alone otherwise |
| RunModel.Watch | bitaxe_status_logger.py:342-357 | without a threshold nothing changes; with one, the new stall state is `Observe`'s and a restart is sent exactly when `Observe` requests one; nothing else in the session changes |
| RunModel.Finish | bitaxe_status_logger.py:404-410 | the end of a loop changes only the best result, which becomes `RecordRun` of the run's hashrate sum and count; the outcome is `Ended` and the local state is kept |
| RunModel.Abort | bitaxe_status_logger.py:362-393 | an abort raises the critical flag and leaves the extremes, the last reading and the interrupt flag as they were |
| RunModel.Accept | bitaxe_status_logger.py:336-393 | an accepted reading widens the global extremes and is accumulated into the run exactly once, whether the loop goes on or aborts |
| RunModel.StepSpec | bitaxe_status_logger.py:335-402 | the loop only continues past a tick at which neither SIGINT nor (outside monitor mode) the elapsed duration stops it |
| RunModel.ContinueReady | bitaxe_status_logger.py:335-339 | after a continuing step the loop goes on from the new state over the remaining ticks |
| RunModel.StepExtremes | bitaxe_status_logger.py:152-155 | one loop step keeps the global extremes spanning the old ones and the run's |
| RunModel.LoopExtremes | bitaxe_status_logger.py:335-402 | during a run the global extremes only widen and always span the run's own extremes |
| RunModel.AcceptAccumulators | bitaxe_status_logger.py:336-395 | a non-critical accepted reading is also counted by `reading_count`; a critical one aborts before it is counted |
| RunModel.StepAccumulators | bitaxe_status_logger.py:336-395 | one step keeps the accumulators consistent with the readings, and `reading_count` counts all of them but a critical last one |
| RunModel.LoopAccumulators | bitaxe_status_logger.py:335-402 | the whole loop keeps the accumulators consistent; `reading_count` counts every accepted reading except the one that aborted the run |
| RunModel.LoopBest | bitaxe_status_logger.py:373-380 | the best result after the loop is the run's own update with its final sum and count, on the ending path as on the abort path |
| RunModel.AcceptFlags | bitaxe_status_logger.py:359-367 | the critical flag is raised exactly when the reading is critical, and the abort reports its classified reason |
| RunModel.StepFlags | bitaxe_status_logger.py:335-393 | flags stay set; the critical flag rises exactly with an abort whose reason classifies the stored reading; a monitor step ends only on SIGINT |
| RunModel.LoopFlags | bitaxe_status_logger.py:335-402 | the loop never skips; flags stay set; critical exactly on abort, with the abort's reason the classification of the last reading; a monitor loop ends only on SIGINT |
| RunModel.AbortSends | bitaxe_status_logger.py:370-392 | an abort appends exactly the landing point followed by the settling PATCHes of `Settle` for the updated best; in monitor mode exactly the landing point and then the initial point |
| RunModel.StepBest | bitaxe_status_logger.py:335-409 | a step that continues keeps the best result; a step that stops records the run's point with its sum and count |
| RunModel.AcceptBest | bitaxe_status_logger.py:341-393 | an accepted reading keeps the best result, or, when it aborts, records the run's point |
| RunModel.AcceptCommands | bitaxe_status_logger.py:342-393 | an accepted reading sends at most one restart and goes on, or aborts with the landing followed by exactly the settling PATCHes |
| RunModel.StepCommands | bitaxe_status_logger.py:335-402 | a step that ends the loop sends nothing; a continuing step at most a restart; an aborting step the landing and exactly the settling PATCHes |
| RunModel.LoopCommands | bitaxe_status_logger.py:335-402 | an ended loop sent only restarts; an aborted loop sent restarts, then the landing, then exactly the settling PATCHes for the final best |
| RunModel.RunExtremes | bitaxe_status_logger.py:315-415 | `run_test` only widens the global extremes, which span the run's |
| RunModel.RunAccumulators | bitaxe_status_logger.py:325-395 | after `run_test` the accumulators agree with the accepted readings and `reading_count` counts them but a critical last one |
| RunModel.RunBest | bitaxe_status_logger.py:373-410 | the best after `run_test` is the run's own update: it stays valid, never decreases and is untouched in monitor mode |
| RunModel.RunCommands | bitaxe_status_logger.py:315-415 | the run's point is sent first; the run is skipped iff it is not confirmed, and then nothing else changes but a SIGINT that arrived meanwhile; an ended run sends only restarts after it; an aborted run sends the landing and exactly the settling PATCHes; flags stay set; critical exactly on abort |
| RunModel.RunSkippedUnchanged | bitaxe_status_logger.py:318-320 | a skipped run leaves no readings and no local state |
| RunModel.RunRecordsSummary | bitaxe_status_logger.py:404-410 | outside monitor mode a run's best-result update is the recording of its summary |
| RunModel.SweepBest | bitaxe_status_logger.py:458-463 | the sweep's best is the in-order record of the runs it recorded, and is valid |
| RunModel.SweepSummaries | bitaxe_status_logger.py:458-459 | each recorded run of the sweep ran at a candidate frequency with the configured voltage |
| RunModel.SweepExit | bitaxe_status_logger.py:458-463 | the sweep runs at least one and at most all candidates, and stops early only after SIGINT or a critical reading; after a critical reading the device was left on the best or the initial point, and the stored reading is critical |
| RunModel.SkippedSigintEndsSweep | bitaxe_status_logger.py:459-463 | a SIGINT during a skipped run's failing settings ends the sweep after that run, with only its PATCH sent and nothing recorded |
| RunModel.SweepExtremes | bitaxe_status_logger.py:458-463 | the sweep only widens the global extremes |
| RunModel.MainSetup | bitaxe_status_logger.py:436-441 | `main` first sends the clamped start point, and exits with nothing else changed iff it is not confirmed |
| RunModel.MainBest | bitaxe_status_logger.py:404-410 | monitor mode records no best; otherwise the best is the maximum average over the recorded runs, at the first run reaching it, or nothing when none averaged above 0 |
| RunModel.MainSettles | bitaxe_status_logger.py:465-474 | outside monitor mode the session ends on the best or the initial point, and without a critical reading on the best point exactly when one exists and its PATCH is confirmed, otherwise the initial point; a critical monitor run ends on the initial point; a critical flag always comes from a critical reading |
| RunModel.MainRuns | bitaxe_status_logger.py:451-463 | outside monitor mode between 1 and `total_tests` runs execute, fewer only after SIGINT or a critical reading; the monitor run ends only on SIGINT or a critical reading, or is skipped |
| StatusLogger.FoldReading | bitaxe_status_logger.py:151-157 | the per-field `for` loop leaves each run and global dictionary updated by the reading for every field |
| StatusLogger.RunStats.constructor | bitaxe_status_logger.py:327-331 | a run's accumulators start empty |
| StatusLogger.SessionState.constructor | bitaxe_status_logger.py:32-55 | the session starts in its initial state |
| StatusLogger.SessionState.Signal | bitaxe_status_logger.py:57-59 | SIGINT sets the interrupt flag and changes nothing else |
| StatusLogger.SessionState.FetchSystemInfo | bitaxe_status_logger.py:133-165 | succeeds iff the device answered; a failed fetch changes nothing; a successful one stores the defaulted reading, widens the global extremes and accumulates the reading into the run |
| StatusLogger.SessionState.SetSystemSettings | bitaxe_status_logger.py:167-199 | sends the clamped payload and reports whether the ±1 read-back confirmed it |
| StatusLogger.SessionState.RebootBitaxe | bitaxe_status_logger.py:201-210 | sends one restart and reports whether it succeeded |
| StatusLogger.SessionState.DetectStall | bitaxe_status_logger.py:342-357 | the stall detector's new counter, stored reading and any restart sent agree with `RunModel.Watch` |
| StatusLogger.SessionState.UpdateBest | bitaxe_status_logger.py:373-380 | the best result becomes the run's update, as `RunModel.RecordBest` |
| StatusLogger.SessionState.SettleDevice | bitaxe_status_logger.py:384-392 | the commands sent agree with `RunModel.Settle` |
| StatusLogger.SessionState.AbortTest | bitaxe_status_logger.py:362-393 | the critical abort's new state agrees with `RunModel.Abort` |
| StatusLogger.SessionState.Iteration | bitaxe_status_logger.py:336-402 | one loop body agrees with `RunModel.StepSpec`: it stops exactly when the step stops, and the new session and local state are the step's |
| StatusLogger.SessionState.Inspect | bitaxe_status_logger.py:341-400 | after a fetched reading: the stall detector's new state and restart agree with `RunModel.Watch`; the run stops exactly on a critical reading, in the state `RunModel.Abort` gives; otherwise `reading_count` goes up by one |
| StatusLogger.SessionState.EnterLoop | bitaxe_status_logger.py:335 | with the first tick's SIGINT seen, the loop from fresh state still leads to the result of `RunModel.LoopSpec` |
| StatusLogger.SessionState.LoopTurn | bitaxe_status_logger.py:335-402 | one turn either ends the run in the loop's final state and outcome, or continues at the next tick towards the same final result |
| StatusLogger.SessionState.EndLoop | bitaxe_status_logger.py:403-409 | with the loop condition false, the run ends with its best-result update in the loop's final state |
| StatusLogger.SessionState.TelemetryLoop | bitaxe_status_logger.py:335-402 | the `while` loop ends in the state and outcome `RunModel.LoopSpec` gives |
| StatusLogger.SessionState.RunTest | bitaxe_status_logger.py:315-415 | `run_test` leaves the session, outcome and a fresh run's accumulators that `RunModel.RunSpec` gives |
| StatusLogger.SessionState.SweepTests | bitaxe_status_logger.py:458-463 | the sweep `for` loop with its `break` ends in the state, run count and summaries `RunModel.SweepSpec` gives |
| StatusLogger.SessionState.Run | bitaxe_status_logger.py:424-474 | `main` after parsing ends in the state and outcome `RunModel.MainSpec` gives |
| StatusLogger.SessionState.Launch | bitaxe_status_logger.py:417-441 | a rejected command line returns its error with nothing sent; an accepted one runs the session on the parsed configuration |
| VoltageCalculator.CriticalFrequency | bm1370_voltage_calculator.py:12-16 | the curve is over 1350 mV exactly from 1087 MHz on |
| VoltageCalculator.SafeMembers | bm1370_voltage_calculator.py:18 | the safe pairs are exactly the table's pairs within 1350 mV and below the frequency |
| VoltageCalculator.MaxIndex | bm1370_voltage_calculator.py:21 | the index of a pair of greatest frequency, every earlier pair having a strictly lower frequency |
| VoltageCalculator.MaxByFrequency | bm1370_voltage_calculator.py:21 | `max(..., key=frequency)` is in the list, has the greatest frequency, and is the first such pair |
| VoltageCalculator.WithoutFrequency | bm1370_voltage_calculator.py:23 | the new table contains exactly the pairs at other frequencies |
| VoltageCalculator.WithoutFrequencyKeepsOrder | bm1370_voltage_calculator.py:23 | removal distributes over concatenation, so the kept pairs stay in their original order, and removes nothing when the frequency is absent |
| VoltageCalculator.CalculateRange | bm1370_voltage_calculator.py:11-28 | the call raises the range error iff the frequency is outside [400, 1500] |
| VoltageCalculator.CalculateNominal | bm1370_voltage_calculator.py:12-16 | within the limit the result is the curve voltage and `2.15·f`, with the table unchanged |
| VoltageCalculator.CalculateFallback | bm1370_voltage_calculator.py:16-24 | over the limit: the call raises iff no pair is safe and below the frequency; otherwise the voltage is that of the first safe pair of greatest frequency, the hashrate is `2.15` times that frequency, and the table loses exactly the requested frequency |
| VoltageCalculator.CalculateSafe | bm1370_voltage_calculator.py:16-26 | every voltage returned is within 1350 mV |
| VoltageCalculator.PairTable.constructor | bm1370_voltage_calculator.py:36 | the table holds the given pairs |
| VoltageCalculator.PairTable.CalculateVoltage | bm1370_voltage_calculator.py:4-28 | the in-place call returns the estimate and leaves the table `Calculate` gives; on an error the table is untouched |
| VoltageCalculator.BuildPairs | bm1370_voltage_calculator.py:36 | one pair per frequency, in order, at the curve's voltage |
| VoltageCalculator.TableOfRange | bm1370_voltage_calculator.py:35-36 | the table of a range has one pair per frequency of `range(start, end, step)`, end excluded, strictly ascending and on the curve |
| VoltageCalculator.Truncate | bm1370_voltage_calculator.py:53 | `int(x)` truncates toward zero |
| VoltageCalculator.TruncateAtMost | bm1370_voltage_calculator.py:53 | truncating a value at most an integer bound stays at most the bound |
| VoltageCalculator.ProcessSpec | bm1370_voltage_calculator.py:45-46 | the loop prints at most one row per frequency |
| VoltageCalculator.ProcessFrequencies | bm1370_voltage_calculator.py:30-53 | the loop's rows and its error (including the error of a zero step) agree with `ProcessAll` |
| VoltageCalculator.ProcessRowsFollow | bm1370_voltage_calculator.py:45-47 | rows follow the frequencies one each, in order, and cover all of them when nothing raised |
| VoltageCalculator.ProcessRowsSafe | bm1370_voltage_calculator.py:45-53 | every printed voltage and every CSV voltage is at most 1350 |
| VoltageCalculator.ProcessRowsNominal | bm1370_voltage_calculator.py:45-47 | a row reports the curve itself wherever the curve is within the limit |
| VoltageCalculator.ProcessKeepsSafePairs | bm1370_voltage_calculator.py:23 | on a table built from the curve, no pair within the limit is ever removed |
| VoltageCalculator.NominalSweep | bm1370_voltage_calculator.py:45-46 | frequencies up to 1086 MHz never fall back and never change the table |
| VoltageCalculator.NominalRange | bm1370_voltage_calculator.py:35-47 | a positive-step range from 400 MHz up to at most 1087 MHz prints one row per frequency, each the curve itself, and nothing raises |
| VoltageCalculator.DefaultInvocation | bm1370_voltage_calculator.py:60-65 | the default 600–1000 MHz step 5 invocation prints 80 rows from the curve |
| VoltageCalculator.FallbackScenario | bm1370_voltage_calculator.py:16-24 | over 1080, 1085 and 1090 MHz, 1090 reports the 1085 MHz pair and the table loses its 1090 pair |

## Left out

- HTTP requests are not modelled: `requests.get`, `patch` and `post`, their timeouts and their exceptions. Their outcomes are inputs (`ApplyReply`, `Tick.response`, `Tick.rebootOk`).
- A reply that is not valid JSON is not modelled separately. With requests 2.27 or later, `Response.json()` raises `requests.exceptions.JSONDecodeError`, a `RequestException`, so the handlers at `bitaxe_status_logger.py:163,192` count it as a failed fetch or verification: the model's `Tick.response == None` and read-back `None`. Older requests versions raise a plain `ValueError`, which would end the program; that behaviour is not modelled.
- Non-numeric JSON values are not modelled. A present field is assumed to be a number.
- `time.sleep`, `time.time` and the run duration are clocks. Whether the duration has elapsed is an input of each tick.
- Only finite runs are modelled: a run's ticks end with one at which the loop stops (`RunModel.Terminates`). A monitor-mode run that sees neither SIGINT nor a critical reading loops forever (`bitaxe_status_logger.py:335`), and such a trace is not represented.
- The SIGINT handler runs asynchronously. The model reads the signal once per loop-condition evaluation, as a tick input, and once after a skipped run's failing settings, as `RunInputs.applySigint`; `SessionState.Signal` records it.
- Printing is I/O and is not modelled: `display_status`, `display_summary` and the coloured messages.
- File output is not modelled: `log_data`, the CSV readings and summaries files, their names and timestamps, and the `csv_files` list.
- The periodic logging of `run_test` (`log_interval`) only writes files, so it is not modelled.
- The return value of `run_test` (a CSV file name) is not modelled. `RunTest` returns the outcome instead: skipped, ended or aborted.
- `StatusLogger.SessionState.RunTest`: the stall counter and `reading_count` are local to the loop and are not returned. Their behaviour is stated on `RunModel.LoopSpec` through the loop lemmas.
- Floating point is not modelled: telemetry values and the voltage curve are exact reals. Rounding of `0.5829 * f + 716.65`, and of the averages and sums, is not captured.
- `Arguments.MatchesIpPattern`: `\d` is taken as the ASCII digits 0–9. Python's `str` pattern also matches other Unicode decimal digits.
- Argparse mechanics are not modelled: required flags, integer conversion, `--help` and the exit code of `parser.error` (only its message is kept).
- The ValueError raised by `validate_ip` is modelled as an error result, not as an uncaught exception.
- `sys.exit(1)` after failed initial settings is modelled as the outcome `SetupFailed`.
- `bm1370_voltage_hashrate_calculator.py` is not part of this model. It is a standalone piecewise curve fit with no state or selection logic.
- The argparse `main` of `bm1370_voltage_calculator.py` is presentation: `DefaultInvocation` states what its defaults produce.
- The CSV file writing of `process_frequencies` is presentation; `CsvRecord` states the record written.
- The exception raised by `calculate_voltage` ends `process_frequencies`. The model returns the rows printed so far together with the error.
