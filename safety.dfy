/** The safety evaluation in `run_test`: when a reading is critical, which reason is reported,
    and the protective landing point (bitaxe_status_logger.py). */
module Safety {
  import opened Common
  import opened Telemetry
  import opened Settings

  const MaxTempCritical: real := 67.0
  const MaxVrTempCritical: real := 90.0
  const MaxPowerCritical: real := 26.0
  /** The fixed decrement of the protective landing, for frequency (MHz) and voltage (mV). */
  const LandingStep: int := 10

  /** The reason reported for a critical reading: "critical temperature", "critical VR
      temperature" or "critical power". */
  datatype Reason = CriticalTemperature | CriticalVrTemperature | CriticalPower

  /** The field behind `reason` is at or above its critical threshold. */
  predicate Over(s: Snapshot, reason: Reason) {
    match reason
    case CriticalTemperature => s.temp >= MaxTempCritical
    case CriticalVrTemperature => s.vrTemp >= MaxVrTempCritical
    case CriticalPower => s.power >= MaxPowerCritical
  }

  /** The classification of one reading: no reason when nominal, otherwise the reported reason,
      with chip temperature taking precedence over VR temperature, and that over power. */
  function Classify(s: Snapshot): (r: Option<Reason>)
    ensures r.None? <==> s.temp < MaxTempCritical && s.vrTemp < MaxVrTempCritical && s.power < MaxPowerCritical
    ensures r == Some(CriticalTemperature) <==> s.temp >= MaxTempCritical
    ensures r == Some(CriticalVrTemperature) <==> s.temp < MaxTempCritical && s.vrTemp >= MaxVrTempCritical
    ensures r == Some(CriticalPower)
            <==> s.temp < MaxTempCritical && s.vrTemp < MaxVrTempCritical && s.power >= MaxPowerCritical
  {
    if s.temp >= MaxTempCritical || s.vrTemp >= MaxVrTempCritical || s.power >= MaxPowerCritical then
      Some(if s.temp >= MaxTempCritical then CriticalTemperature
           else if s.vrTemp >= MaxVrTempCritical then CriticalVrTemperature
           else CriticalPower)
    else None
  }

  /** The evaluation order of the three checks. */
  const Precedence: seq<Reason> := [CriticalTemperature, CriticalVrTemperature, CriticalPower]

  /** Reference definition: the first reason in `order` whose field is over its threshold. */
  function FirstOver(s: Snapshot, order: seq<Reason>): Option<Reason> {
    if order == [] then None
    else if Over(s, order[0]) then Some(order[0])
    else FirstOver(s, order[1..])
  }

  /** The reported reason is exactly the first over-threshold field in precedence order; in
      particular a reading is critical iff some field is over its threshold. */
  lemma ClassifyIsFirstOver(s: Snapshot)
    ensures Classify(s) == FirstOver(s, Precedence)
    ensures Classify(s).Some? <==> exists reason :: Over(s, reason)
  {
    var tail1, tail2 := [CriticalVrTemperature, CriticalPower], [CriticalPower];
    assert Precedence[1..] == tail1 && tail1[1..] == tail2 && tail2[1..] == [];
    assert FirstOver(s, tail2) == if Over(s, CriticalPower) then Some(CriticalPower) else None;
    assert FirstOver(s, tail1) == if Over(s, CriticalVrTemperature) then Some(CriticalVrTemperature) else FirstOver(s, tail2);
    if Classify(s).Some? {
      assert Over(s, Classify(s).value);
    } else {
      forall reason ensures !Over(s, reason) {
        match reason
        case CriticalTemperature =>
        case CriticalVrTemperature =>
        case CriticalPower =>
      }
    }
  }

  /** The protective landing after a critical reading: ten below the current point on both
      axes, but never below the minimums. */
  function Landing(frequency: int, coreVoltage: int): (p: Point)
    ensures p == Clamp(frequency - LandingStep, coreVoltage - LandingStep)
    ensures p.frequency <= Max(frequency, MinFrequency) && p.coreVoltage <= Max(coreVoltage, MinCoreVoltage)
    ensures frequency >= MinFrequency + LandingStep ==> p.frequency == frequency - LandingStep
    ensures coreVoltage >= MinCoreVoltage + LandingStep ==> p.coreVoltage == coreVoltage - LandingStep
  {
    Point(Max(MinFrequency, frequency - LandingStep), Max(MinCoreVoltage, coreVoltage - LandingStep))
  }

  /** Sending the landing point through `set_system_settings` sends it unchanged. */
  lemma LandingSentUnchanged(frequency: int, coreVoltage: int)
    ensures var p := Landing(frequency, coreVoltage); Clamp(p.frequency, p.coreVoltage) == p
  {
    ClampIdempotent(frequency - LandingStep, coreVoltage - LandingStep);
  }

  /** The documented scenario: chip temperature 68 with nominal VR temperature and power is a
      critical temperature, and a run at 650 MHz / 1200 mV lands at 640 MHz / 1190 mV; at the
      minimums the landing stays at 400 MHz / 1000 mV. */
  lemma CriticalTemperatureScenario(s: Snapshot)
    requires s.temp == 68.0 && s.vrTemp < MaxVrTempCritical && s.power < MaxPowerCritical
    ensures Classify(s) == Some(CriticalTemperature)
    ensures Landing(650, 1200) == Point(640, 1190)
    ensures Landing(400, 1000) == Point(400, 1000)
  {
  }
}
