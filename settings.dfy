/** Applying an operating point to the device (`set_system_settings`): the requested point is
    raised to the configured minimums, sent with `PATCH /api/system`, and verified by reading the
    settings back within one unit of tolerance (bitaxe_status_logger.py). */
module Settings {
  import opened Common

  const MinFrequency: int := 400
  const MinCoreVoltage: int := 1000

  /** An operating point: clock frequency in MHz and core voltage in mV. */
  datatype Point = Point(frequency: int, coreVoltage: int)

  function Max(a: int, b: int): int { if a >= b then a else b }

  /** The payload actually sent: each coordinate raised to its safety minimum. */
  function Clamp(frequency: int, coreVoltage: int): (p: Point)
    ensures p.frequency >= MinFrequency && p.coreVoltage >= MinCoreVoltage
    ensures frequency >= MinFrequency ==> p.frequency == frequency
    ensures frequency < MinFrequency ==> p.frequency == MinFrequency
    ensures coreVoltage >= MinCoreVoltage ==> p.coreVoltage == coreVoltage
    ensures coreVoltage < MinCoreVoltage ==> p.coreVoltage == MinCoreVoltage
  {
    Point(Max(MinFrequency, frequency), Max(MinCoreVoltage, coreVoltage))
  }

  /** Clamping an already clamped point changes nothing, so a point that is clamped once by its
      caller (as the protective landing is) is sent unchanged. */
  lemma ClampIdempotent(frequency: int, coreVoltage: int)
    ensures var p := Clamp(frequency, coreVoltage); Clamp(p.frequency, p.coreVoltage) == p
  {
  }

  /** The documented example: `(300, 900)` is sent as `{400, 1000}`. */
  lemma ClampExample()
    ensures Clamp(300, 900) == Point(400, 1000)
  {
  }

  /** The fields of the verification read-back; a missing field reads as 0. */
  datatype Readback = Readback(frequency: Option<real>, coreVoltage: Option<real>)

  /** What the device answers to one `set_system_settings` call: whether the PATCH succeeded,
      and the read-back, or `None` when that GET failed. */
  datatype ApplyReply = ApplyReply(patchOk: bool, readback: Option<Readback>)

  /** `abs(actual - requested) <= 1`. */
  predicate WithinTolerance(actual: real, requested: int) {
    -1.0 <= actual - requested as real <= 1.0
  }

  /** The read-back agrees with the point sent, field by field, within one unit. */
  predicate Matches(p: Point, rb: Readback) {
    && WithinTolerance(rb.frequency.GetOr(0.0), p.frequency)
    && WithinTolerance(rb.coreVoltage.GetOr(0.0), p.coreVoltage)
  }

  /** The value `set_system_settings` returns for the payload `p` sent. */
  function Applied(p: Point, reply: ApplyReply): (ok: bool)
    ensures ok <==> reply.patchOk && reply.readback.Some? && Matches(p, reply.readback.value)
  {
    if !reply.patchOk then false
    else match reply.readback
      case None => false
      case Some(rb) => Matches(p, rb)
  }

  /** Success is judged against the clamped payload, not the request: asking for `(300, 900)`
      and reading back exactly `{400, 1000}` succeeds. */
  lemma ClampedRequestVerifies()
    ensures Applied(Clamp(300, 900), ApplyReply(true, Some(Readback(Some(400.0), Some(1000.0)))))
  {
  }

  /** A read-back that reports each field of the payload within one unit succeeds, on either side. */
  lemma ToleranceBothSides(p: Point, df: real, dv: real)
    requires -1.0 <= df <= 1.0 && -1.0 <= dv <= 1.0
    ensures Applied(p, ApplyReply(true, Some(Readback(Some(p.frequency as real + df), Some(p.coreVoltage as real + dv)))))
  {
  }

  /** Any request error fails; and since every payload is at least 400 MHz / 1000 mV, a read-back
      that omits a field (read as 0) never verifies. */
  lemma {:induction false} FailuresNeverVerify(frequency: int, coreVoltage: int, reply: ApplyReply)
    requires !reply.patchOk || reply.readback.None?
             || reply.readback.value.frequency.None? || reply.readback.value.coreVoltage.None?
    ensures !Applied(Clamp(frequency, coreVoltage), reply)
  {
    var p := Clamp(frequency, coreVoltage);
    if reply.patchOk && reply.readback.Some? {
      var rb := reply.readback.value;
      assert rb.frequency.None? ==> !WithinTolerance(rb.frequency.GetOr(0.0), p.frequency);
      assert rb.coreVoltage.None? ==> !WithinTolerance(rb.coreVoltage.GetOr(0.0), p.coreVoltage);
    }
  }
}
