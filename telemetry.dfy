/** Telemetry read from the device (`GET /api/system/info`): the fixed set of fields, the
    defaults used for missing fields, the derived efficiency, and the per-run and process-wide
    accumulators that every accepted reading updates (bitaxe_status_logger.py). */
module Telemetry {
  import opened Common

  /** The keys of `system_info`, in the source's order. */
  datatype Field =
    | Frequency | Power | Voltage | Current | Temp | VrTemp
    | HashRate | CoreVoltage | CoreVoltageActual | Jth

  const FieldCount: nat := 10

  /** The field at position `i` of `system_info` (the loop order of `for key in system_info`). */
  function FieldAt(i: nat): Field
    requires i < FieldCount
  {
    if i == 0 then Frequency
    else if i == 1 then Power
    else if i == 2 then Voltage
    else if i == 3 then Current
    else if i == 4 then Temp
    else if i == 5 then VrTemp
    else if i == 6 then HashRate
    else if i == 7 then CoreVoltage
    else if i == 8 then CoreVoltageActual
    else Jth
  }

  /** The position of a field in `system_info`; inverse of `FieldAt`. */
  function IndexOf(k: Field): (i: nat)
    ensures i < FieldCount && FieldAt(i) == k
  {
    match k
    case Frequency => 0
    case Power => 1
    case Voltage => 2
    case Current => 3
    case Temp => 4
    case VrTemp => 5
    case HashRate => 6
    case CoreVoltage => 7
    case CoreVoltageActual => 8
    case Jth => 9
  }

  lemma IndexOfFieldAt(i: nat)
    requires i < FieldCount
    ensures IndexOf(FieldAt(i)) == i
  {
  }

  /** One accepted telemetry reading, after defaults were applied (the global `system_info`). */
  datatype Snapshot = Snapshot(
    frequency: real, power: real, voltage: real, current: real, temp: real, vrTemp: real,
    hashRate: real, coreVoltage: real, coreVoltageActual: real, jth: real)
  {
    function Get(k: Field): real {
      match k
      case Frequency => frequency
      case Power => power
      case Voltage => voltage
      case Current => current
      case Temp => temp
      case VrTemp => vrTemp
      case HashRate => hashRate
      case CoreVoltage => coreVoltage
      case CoreVoltageActual => coreVoltageActual
      case Jth => jth
    }
  }

  /** The JSON body of a telemetry response: every field may be missing. */
  datatype RawInfo = RawInfo(
    frequency: Option<real>, power: Option<real>, voltage: Option<real>, current: Option<real>,
    temp: Option<real>, vrTemp: Option<real>, hashRate: Option<real>,
    coreVoltage: Option<real>, coreVoltageActual: Option<real>)

  const DefaultFrequency: real := 550.0
  const DefaultCoreVoltage: real := 1250.0

  /** Efficiency in J/TH: power divided by the hashrate in TH/s, or 0 when nothing is hashing. */
  function Efficiency(power: real, hashRate: real): (jth: real)
    ensures hashRate > 0.0 ==> jth * (hashRate / 1000.0) == power
    ensures hashRate <= 0.0 ==> jth == 0.0
  {
    if hashRate > 0.0 then power / (hashRate / 1000.0) else 0.0
  }

  /** The reading `fetch_system_info` stores: each reported field as reported, each missing one
      at its default (frequency 550, both core voltages 1250, all others 0), and the derived
      efficiency. */
  function FromRaw(raw: RawInfo): (s: Snapshot)
    ensures raw.frequency.Some? ==> s.frequency == raw.frequency.value
    ensures raw.frequency.None? ==> s.frequency == DefaultFrequency
    ensures raw.power.Some? ==> s.power == raw.power.value
    ensures raw.power.None? ==> s.power == 0.0
    ensures raw.voltage.Some? ==> s.voltage == raw.voltage.value
    ensures raw.voltage.None? ==> s.voltage == 0.0
    ensures raw.current.Some? ==> s.current == raw.current.value
    ensures raw.current.None? ==> s.current == 0.0
    ensures raw.temp.Some? ==> s.temp == raw.temp.value
    ensures raw.temp.None? ==> s.temp == 0.0
    ensures raw.vrTemp.Some? ==> s.vrTemp == raw.vrTemp.value
    ensures raw.vrTemp.None? ==> s.vrTemp == 0.0
    ensures raw.hashRate.Some? ==> s.hashRate == raw.hashRate.value
    ensures raw.hashRate.None? ==> s.hashRate == 0.0 && s.jth == 0.0
    ensures raw.coreVoltage.Some? ==> s.coreVoltage == raw.coreVoltage.value
    ensures raw.coreVoltage.None? ==> s.coreVoltage == DefaultCoreVoltage
    ensures raw.coreVoltageActual.Some? ==> s.coreVoltageActual == raw.coreVoltageActual.value
    ensures raw.coreVoltageActual.None? ==> s.coreVoltageActual == DefaultCoreVoltage
    ensures s.jth == Efficiency(s.power, s.hashRate)
    ensures s.hashRate > 0.0 ==> s.jth * (s.hashRate / 1000.0) == s.power
  {
    var power := raw.power.GetOr(0.0);
    var hashRate := raw.hashRate.GetOr(0.0);
    Snapshot(
      raw.frequency.GetOr(DefaultFrequency), power, raw.voltage.GetOr(0.0), raw.current.GetOr(0.0),
      raw.temp.GetOr(0.0), raw.vrTemp.GetOr(0.0), hashRate,
      raw.coreVoltage.GetOr(DefaultCoreVoltage), raw.coreVoltageActual.GetOr(DefaultCoreVoltage),
      Efficiency(power, hashRate))
  }

  /** A real extended with Python's `float('-inf')` and `float('inf')`, the initial values of
      the min and max dictionaries. */
  datatype Ext = NegInf | Fin(r: real) | PosInf

  predicate Le(a: Ext, b: Ext) {
    match (a, b)
    case (NegInf, _) => true
    case (_, PosInf) => true
    case (Fin(x), Fin(y)) => x <= y
    case _ => false
  }

  lemma LeTransitive(a: Ext, b: Ext, c: Ext)
    requires Le(a, b) && Le(b, c)
    ensures Le(a, c)
  {
  }

  /** Python's `min(e, x)`: the lesser of the two. */
  function MinWith(e: Ext, x: real): (r: Ext)
    ensures Le(r, e) && Le(r, Fin(x))
    ensures r == e || r == Fin(x)
  {
    match e
    case NegInf => NegInf
    case Fin(y) => if x < y then Fin(x) else e
    case PosInf => Fin(x)
  }

  /** Python's `max(e, x)`: the greater of the two. */
  function MaxWith(e: Ext, x: real): (r: Ext)
    ensures Le(e, r) && Le(Fin(x), r)
    ensures r == e || r == Fin(x)
  {
    match e
    case NegInf => Fin(x)
    case Fin(y) => if x > y then Fin(x) else e
    case PosInf => PosInf
  }

  /** A pair of min/max dictionaries keyed by field (`run_min_values`/`run_max_values`, or
      `global_min_values`/`global_max_values`). */
  datatype Extremes = Extremes(minV: map<Field, Ext>, maxV: map<Field, Ext>) {
    predicate Total() {
      forall k: Field :: k in minV && k in maxV
    }
  }

  /** A dictionary holding `v` under every field. */
  function ConstMap<V>(v: V): (m: map<Field, V>)
    ensures forall k: Field :: k in m && m[k] == v
  {
    ConstMapTotal(v);
    FieldMap(v)
  }

  function FieldMap<V>(v: V): map<Field, V> {
    map[Frequency := v, Power := v, Voltage := v, Current := v, Temp := v, VrTemp := v,
        HashRate := v, CoreVoltage := v, CoreVoltageActual := v, Jth := v]
  }

  lemma ConstMapTotal<V>(v: V)
    ensures forall k: Field :: k in FieldMap(v) && FieldMap(v)[k] == v
  {
    forall k: Field ensures k in FieldMap(v) && FieldMap(v)[k] == v {
      match k
      case Frequency =>
      case Power =>
      case Voltage =>
      case Current =>
      case Temp =>
      case VrTemp =>
      case HashRate =>
      case CoreVoltage =>
      case CoreVoltageActual =>
      case Jth =>
    }
  }

  /** No reading seen yet: every min at +inf, every max at -inf. */
  function NoExtremes(): (e: Extremes)
    ensures e.Total()
    ensures forall k: Field :: e.minV[k] == PosInf && e.maxV[k] == NegInf
  {
    Extremes(ConstMap(PosInf), ConstMap(NegInf))
  }

  /** `outer` spans at least the range of `inner` on every field. */
  predicate Covers(outer: Extremes, inner: Extremes)
    requires outer.Total() && inner.Total()
  {
    forall k: Field :: Le(outer.minV[k], inner.minV[k]) && Le(inner.maxV[k], outer.maxV[k])
  }

  /** The min/max dictionaries after one reading: each min and max moved to include it. */
  function Widen(e: Extremes, s: Snapshot): (r: Extremes)
    requires e.Total()
    ensures r.Total()
    ensures forall k: Field :: Le(r.minV[k], Fin(s.Get(k))) && Le(Fin(s.Get(k)), r.maxV[k])
    ensures Covers(r, e)
    ensures forall k: Field :: r.minV[k] in {e.minV[k], Fin(s.Get(k))} && r.maxV[k] in {e.maxV[k], Fin(s.Get(k))}
  {
    Extremes(Lowered(e.minV, s), Raised(e.maxV, s))
  }

  /** A min dictionary after one reading. */
  function Lowered(m: map<Field, Ext>, s: Snapshot): map<Field, Ext> {
    map k | k in m :: MinWith(m[k], s.Get(k))
  }

  /** A max dictionary after one reading. */
  function Raised(m: map<Field, Ext>, s: Snapshot): map<Field, Ext> {
    map k | k in m :: MaxWith(m[k], s.Get(k))
  }

  lemma CoversReflexive(e: Extremes)
    requires e.Total()
    ensures Covers(e, e)
  {
  }

  lemma CoversTransitive(a: Extremes, b: Extremes, c: Extremes)
    requires a.Total() && b.Total() && c.Total()
    requires Covers(a, b) && Covers(b, c)
    ensures Covers(a, c)
  {
    forall k: Field ensures Le(a.minV[k], c.minV[k]) && Le(c.maxV[k], a.maxV[k]) {
      LeTransitive(a.minV[k], b.minV[k], c.minV[k]);
      LeTransitive(c.maxV[k], b.maxV[k], a.maxV[k]);
    }
  }

  /** Widening two dictionaries with the same reading keeps the wider one wider: this is why the
      process-wide extremes always span the current run's extremes. */
  lemma {:induction false} WidenKeepsCovers(outer: Extremes, inner: Extremes, s: Snapshot)
    requires outer.Total() && inner.Total() && Covers(outer, inner)
    ensures Covers(Widen(outer, s), Widen(inner, s))
  {
    var o, i := Widen(outer, s), Widen(inner, s);
    forall k: Field ensures Le(o.minV[k], i.minV[k]) && Le(i.maxV[k], o.maxV[k]) {
      assert o.minV[k] == MinWith(outer.minV[k], s.Get(k));
      assert i.minV[k] == MinWith(inner.minV[k], s.Get(k));
      assert o.maxV[k] == MaxWith(outer.maxV[k], s.Get(k));
      assert i.maxV[k] == MaxWith(inner.maxV[k], s.Get(k));
    }
  }

  /** Sum of a list of readings (Python's left-to-right `+=`). */
  function Sum(xs: seq<real>): real {
    if xs == [] then 0.0 else Sum(xs[..|xs| - 1]) + xs[|xs| - 1]
  }

  /** A sum dictionary after one reading. */
  function Added(m: map<Field, real>, s: Snapshot): map<Field, real> {
    map k | k in m :: m[k] + s.Get(k)
  }

  /** A count dictionary after one reading. */
  function Counted(m: map<Field, nat>): map<Field, nat> {
    map k | k in m :: m[k] + 1
  }

  /** The per-run accumulators of `run_test`: min/max, sum and count per field, and the list of
      hashrate readings. */
  datatype RunAcc = RunAcc(
    ext: Extremes, sumV: map<Field, real>, countV: map<Field, nat>, readings: seq<real>)
  {
    predicate Total() {
      ext.Total() && forall k: Field :: k in sumV && k in countV
    }
  }

  /** The accumulators at the start of a run. */
  function EmptyAcc(): (a: RunAcc)
    ensures a.Total() && a.readings == []
    ensures forall k: Field :: a.sumV[k] == 0.0 && a.countV[k] == 0
  {
    RunAcc(NoExtremes(), ConstMap(0.0), ConstMap(0), [])
  }

  /** The accumulators after one accepted reading. */
  function Accumulate(acc: RunAcc, s: Snapshot): (r: RunAcc)
    requires acc.Total()
    ensures r.Total()
    ensures forall k: Field :: r.countV[k] == acc.countV[k] + 1 && r.sumV[k] == acc.sumV[k] + s.Get(k)
    ensures forall k: Field :: Le(r.ext.minV[k], Fin(s.Get(k))) && Le(Fin(s.Get(k)), r.ext.maxV[k])
    ensures r.ext == Widen(acc.ext, s) && Covers(r.ext, acc.ext)
    ensures r.readings == acc.readings + [s.hashRate]
  {
    RunAcc(
      Widen(acc.ext, s),
      Added(acc.sumV, s),
      Counted(acc.countV),
      acc.readings + [s.hashRate])
  }

  /** What the accumulators mean: every field was counted once per accepted reading, the hashrate
      sum is the sum of the recorded readings, and the hashrate min/max bound every reading. */
  ghost predicate Consistent(acc: RunAcc) {
    && acc.Total()
    && (forall k: Field :: acc.countV[k] == |acc.readings|)
    && acc.sumV[HashRate] == Sum(acc.readings)
    && (forall i :: 0 <= i < |acc.readings| ==>
          Le(acc.ext.minV[HashRate], Fin(acc.readings[i])) && Le(Fin(acc.readings[i]), acc.ext.maxV[HashRate]))
  }

  lemma EmptyAccConsistent()
    ensures Consistent(EmptyAcc())
  {
  }

  /** Accepting a reading keeps the accumulators consistent; so `sum / count` of the hashrate is
      exactly the mean of the accepted readings, and failed fetches are never counted. */
  lemma {:induction false} AccumulateConsistent(acc: RunAcc, s: Snapshot)
    requires Consistent(acc)
    ensures Consistent(Accumulate(acc, s))
  {
    var r := Accumulate(acc, s);
    assert r.readings[..|r.readings| - 1] == acc.readings;
    forall i | 0 <= i < |r.readings|
      ensures Le(r.ext.minV[HashRate], Fin(r.readings[i])) && Le(Fin(r.readings[i]), r.ext.maxV[HashRate])
    {
      if i < |acc.readings| {
        assert r.readings[i] == acc.readings[i];
        LeTransitive(r.ext.minV[HashRate], acc.ext.minV[HashRate], Fin(r.readings[i]));
        LeTransitive(Fin(r.readings[i]), acc.ext.maxV[HashRate], r.ext.maxV[HashRate]);
      }
    }
  }
}
