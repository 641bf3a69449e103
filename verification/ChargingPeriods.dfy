/**
 OCPI ChargingPeriods of a session (SessionMapper.getChargingPeriods; section 10.4.6 of
 OCPI 2.2.1): consecutive readings, completed by synthetic readings at the session's start
 and end, give periods with rounded ENERGY, ENERGY_IMPORT and TIME volumes.
 */
module ChargingPeriods {
  import opened Numbers
  import opened MeterReadings

  const ENERGY_TOLERANCE_KWH: real := 0.000001

  datatype SessionStart = SessionStart(timestamp: int, energyKwh: Option<Number>)

  datatype SessionEnd = SessionEnd(timestamp: int, totalKwh: Option<real>)

  datatype DimensionType = CURRENT | ENERGY | ENERGY_EXPORT | ENERGY_IMPORT | POWER | STATE_OF_CHARGE | TIME

  datatype CdrDimension = CdrDimension(kind: DimensionType, volume: Number)

  datatype ChargingPeriod = ChargingPeriod(startDateTime: int, dimensions: seq<CdrDimension>, tariffId: string)

  // ------------------------------------------------------------------- dimensions

  function RoundNumber(n: Number): Number {
    match n
    case Finite(v) => Finite(RoundOcpi(v))
    case NonFinite => NonFinite
  }

  function EnergyDimensions(current: Option<real>, previous: Option<real>, startKwh: Option<real>): seq<CdrDimension> {
    if current.None? then []
    else
      (if startKwh.Some? then [CdrDimension(ENERGY_IMPORT, Finite(RoundOcpi(current.value - startKwh.value)))] else [])
      + (if previous.Some?
         then [CdrDimension(ENERGY, Finite(RoundOcpi(RoundOcpi(current.value) - RoundOcpi(previous.value))))]
         else [])
  }

  function SampleDimension(sample: SampledValue): seq<CdrDimension> {
    if sample.measurand == Some(CURRENT_IMPORT) then
      if sample.phase == Some("N") then [CdrDimension(CURRENT, RoundNumber(sample.value))] else []
    else if sample.measurand == Some(SOC) then [CdrDimension(STATE_OF_CHARGE, RoundNumber(sample.value))]
    else []
  }

  function SampleDimensions(samples: seq<SampledValue>): seq<CdrDimension> {
    if samples == [] then []
    else SampleDimensions(samples[..|samples| - 1]) + SampleDimension(samples[|samples| - 1])
  }

  /** getTimeElapsedForMeterValue: the difference of two rounded instants, in hours. */
  function TimeElapsed(reading: MeterValue, previous: MeterValue): real {
    RoundOcpi(RoundedHours(reading.timestamp) - RoundedHours(previous.timestamp))
  }

  function Dimensions(reading: MeterValue, previous: MeterValue, startKwh: Option<real>): seq<CdrDimension> {
    EnergyDimensions(EnergyKwh(reading), EnergyKwh(previous), startKwh)
    + SampleDimensions(reading.sampledValue)
    + [CdrDimension(TIME, Finite(TimeElapsed(reading, previous)))]
  }

  /** getCdrDimensions, which pushes onto one list. */
  method GetCdrDimensions(reading: MeterValue, previous: MeterValue, startKwh: Option<real>)
    returns (cdrDimensions: seq<CdrDimension>)
    ensures cdrDimensions == Dimensions(reading, previous, startKwh)
  {
    cdrDimensions := [];
    var energyKwh := EnergyKwh(reading);
    var previousKwh := EnergyKwh(previous);
    if energyKwh.Some? {
      if startKwh.Some? {
        cdrDimensions := cdrDimensions
          + [CdrDimension(ENERGY_IMPORT, Finite(RoundOcpi(energyKwh.value - startKwh.value)))];
      }
      if previousKwh.Some? {
        cdrDimensions := cdrDimensions
          + [CdrDimension(ENERGY, Finite(RoundOcpi(RoundOcpi(energyKwh.value) - RoundOcpi(previousKwh.value))))];
      }
    }
    ghost var energy := cdrDimensions;
    assert energy == EnergyDimensions(energyKwh, previousKwh, startKwh);
    cdrDimensions := PushSampleDimensions(cdrDimensions, reading.sampledValue);
    cdrDimensions := cdrDimensions + [CdrDimension(TIME, Finite(TimeElapsed(reading, previous)))];
  }

  method PushSampleDimensions(pushed: seq<CdrDimension>,
                              samples: seq<SampledValue>) returns (cdrDimensions: seq<CdrDimension>)
    ensures cdrDimensions == pushed + SampleDimensions(samples)
  {
    cdrDimensions := pushed;
    for k := 0 to |samples|
      invariant cdrDimensions == pushed + SampleDimensions(samples[..k])
    {
      assert samples[..k + 1][..k] == samples[..k];
      var sample := samples[k];
      if sample.measurand == Some(CURRENT_IMPORT) {
        if sample.phase == Some("N") {
          cdrDimensions := cdrDimensions + [CdrDimension(CURRENT, RoundNumber(sample.value))];
        }
      } else if sample.measurand == Some(SOC) {
        cdrDimensions := cdrDimensions + [CdrDimension(STATE_OF_CHARGE, RoundNumber(sample.value))];
      }
    }
    assert samples[..|samples|] == samples;
  }

  /** What a period may report: the rise of the register since meterStart, the rise since the
      reading before, both rounded; the time between them; and of the reading's samples the
      current on the neutral and the state of charge. */
  ghost predicate Reports(d: CdrDimension, reading: MeterValue, previous: MeterValue, startKwh: Option<real>) {
    var current, before := EnergyKwh(reading), EnergyKwh(previous);
    match d.kind
    case ENERGY_IMPORT =>
      current.Some? && startKwh.Some? && d.volume == Finite(RoundOcpi(current.value - startKwh.value))
    case ENERGY =>
      current.Some? && before.Some? && d.volume == Finite(RoundOcpi(current.value) - RoundOcpi(before.value))
    case TIME => d.volume == Finite(RoundedHours(reading.timestamp) - RoundedHours(previous.timestamp))
    case CURRENT =>
      exists s :: s in reading.sampledValue && s.measurand == Some("Current.Import") && s.phase == Some("N")
                  && Rounds(s.value, d.volume)
    case STATE_OF_CHARGE =>
      exists s :: s in reading.sampledValue && s.measurand == Some("SoC") && Rounds(s.value, d.volume)
    case _ => false
  }

  predicate Rounds(n: Number, m: Number) {
    if n.Finite? then m == Finite(RoundOcpi(n.value)) else m.NonFinite?
  }

  ghost predicate SampleReports(d: CdrDimension, s: SampledValue) {
    && Rounds(s.value, d.volume)
    && ((d.kind == CURRENT && s.measurand == Some("Current.Import") && s.phase == Some("N"))
        || (d.kind == STATE_OF_CHARGE && s.measurand == Some("SoC")))
  }

  lemma {:induction false} SamplesReport(samples: seq<SampledValue>, d: CdrDimension)
    ensures d in SampleDimensions(samples) <==> exists s :: s in samples && SampleReports(d, s)
  {
    if samples != [] {
      var before, last := samples[..|samples| - 1], samples[|samples| - 1];
      SamplesReport(before, d);
      assert samples == before + [last];
      assert d in SampleDimension(last) <==> SampleReports(d, last);
    }
  }

  /** Exactly what a period reports. */
  lemma ReportsExactly(reading: MeterValue, previous: MeterValue, startKwh: Option<real>, d: CdrDimension)
    ensures d in Dimensions(reading, previous, startKwh) <==> Reports(d, reading, previous, startKwh)
  {
    var energy := EnergyDimensions(EnergyKwh(reading), EnergyKwh(previous), startKwh);
    var time := CdrDimension(TIME, Finite(TimeElapsed(reading, previous)));
    SamplesReport(reading.sampledValue, d);
    RoundDifference(reading.timestamp as real / 3600000.0, previous.timestamp as real / 3600000.0);
    EnergyReports(EnergyKwh(reading), EnergyKwh(previous), startKwh, d);
    assert d in Dimensions(reading, previous, startKwh)
           <==> d in energy || d in SampleDimensions(reading.sampledValue) || d == time;
  }

  lemma EnergyReports(current: Option<real>, before: Option<real>, startKwh: Option<real>, d: CdrDimension)
    ensures d in EnergyDimensions(current, before, startKwh)
       <==> || (d.kind == ENERGY_IMPORT && current.Some? && startKwh.Some?
                && d.volume == Finite(RoundOcpi(current.value - startKwh.value)))
            || (d.kind == ENERGY && current.Some? && before.Some?
                && d.volume == Finite(RoundOcpi(current.value) - RoundOcpi(before.value)))
  {
    if current.Some? && before.Some? {
      RoundDifference(current.value, before.value);
    }
  }

  // ----------------------------------------------------------- boundary readings

  /** The register of the first reading that has one. */
  function FirstEnergy(readings: seq<MeterValue>): Option<real> {
    if readings == [] then None
    else if EnergyKwh(readings[0]).Some? then EnergyKwh(readings[0])
    else FirstEnergy(readings[1..])
  }

  /** getTrustedStartKwh: a finite, non-negative start energy that is not above the first
      energy reading. */
  function TrustedStartKwh(readings: seq<MeterValue>, start: Option<SessionStart>): Option<real> {
    match start
    case Some(SessionStart(_, Some(Finite(startKwh)))) =>
      if startKwh < 0.0 then None
      else
        var firstKwh := FirstEnergy(readings);
        if firstKwh.Some? && startKwh > firstKwh.value + ENERGY_TOLERANCE_KWH then None
        else Some(startKwh)
    case _ => None
  }

  /** Reading k is the first one with a register. */
  ghost predicate FirstRegister(readings: seq<MeterValue>, k: int) {
    && 0 <= k < |readings| && EnergyKwh(readings[k]).Some?
    && forall i :: 0 <= i < k ==> EnergyKwh(readings[i]).None?
  }

  lemma {:induction false} FirstEnergyIs(readings: seq<MeterValue>, k: int)
    requires FirstRegister(readings, k)
    ensures FirstEnergy(readings) == EnergyKwh(readings[k])
  {
    if k > 0 {
      assert EnergyKwh(readings[0]).None?;
      assert FirstRegister(readings[1..], k - 1);
      FirstEnergyIs(readings[1..], k - 1);
    }
  }

  lemma {:induction false} FirstEnergyThere(readings: seq<MeterValue>)
    requires FirstEnergy(readings).Some?
    ensures exists k :: FirstRegister(readings, k)
  {
    if EnergyKwh(readings[0]).Some? {
      assert FirstRegister(readings, 0);
    } else {
      FirstEnergyThere(readings[1..]);
      var k :| FirstRegister(readings[1..], k);
      assert forall i :: 0 < i <= k + 1 ==> readings[i] == readings[1..][i - 1];
      assert FirstRegister(readings, k + 1);
    }
  }

  /** A meterStart to be trusted: a number, not negative, and at most 0.000001 kWh above the first
      register there is, if there is one. */
  ghost predicate MeterStart(readings: seq<MeterValue>, start: Option<SessionStart>, kwh: real) {
    && start.Some? && start.value.energyKwh == Some(Finite(kwh)) && kwh >= 0.0
    && forall k :: FirstRegister(readings, k) ==> kwh <= EnergyKwh(readings[k]).value + 0.000001
  }

  /** Exactly which meterStart is trusted; it is taken as it is. */
  lemma StartTrustedExactly(readings: seq<MeterValue>, start: Option<SessionStart>, kwh: real)
    ensures TrustedStartKwh(readings, start) == Some(kwh) <==> MeterStart(readings, start, kwh)
  {
    if FirstEnergy(readings).Some? {
      FirstEnergyThere(readings);
      var k :| FirstRegister(readings, k);
      FirstEnergyIs(readings, k);
    }
    forall k | FirstRegister(readings, k) ensures FirstEnergy(readings) == EnergyKwh(readings[k]) {
      FirstEnergyIs(readings, k);
    }
  }

  /** toBoundaryReading. */
  function BoundaryReading(timestamp: int, energyKwh: Option<real>): MeterValue {
    MeterValue(timestamp,
      match energyKwh
      case None => []
      case Some(kwh) =>
        [SampledValue(Finite(kwh), Some(ENERGY_REGISTER), None, None, Some(UnitOfMeasure(Some("kWh"), Some(0))))])
  }

  /** The synthetic reading carries exactly the register it was given. */
  lemma BoundaryEnergy(timestamp: int, energyKwh: Option<real>)
    ensures EnergyKwh(BoundaryReading(timestamp, energyKwh)) == energyKwh
  {
    assert UpperCase("kWh") == "KWH";
    assert PowerOfTen(0) == 1.0;
    if energyKwh.Some? {
      EnergyKwhPrefersTotal(BoundaryReading(timestamp, energyKwh), 0);
    }
  }

  predicate StartsBefore(start: Option<SessionStart>, readings: seq<MeterValue>) {
    start.Some? && (readings == [] || start.value.timestamp < readings[0].timestamp)
  }

  function WithStart(readings: seq<MeterValue>, start: Option<SessionStart>, startKwh: Option<real>): seq<MeterValue> {
    if StartsBefore(start, readings) then [BoundaryReading(start.value.timestamp, startKwh)] + readings
    else readings
  }

  /** The register at the session's end: start energy plus the session's total, unless it
      lies below the last reading. */
  function EndEnergy(lastKwh: Option<real>, startKwh: Option<real>, totalKwh: Option<real>): Option<real> {
    if startKwh.Some? && totalKwh.Some? then
      var endKwh := startKwh.value + totalKwh.value;
      if lastKwh.None? then Some(endKwh)
      else if endKwh >= lastKwh.value - ENERGY_TOLERANCE_KWH then
        Some(if endKwh >= lastKwh.value then endKwh else lastKwh.value)
      else None
    else None
  }

  predicate EndsAfter(end: Option<SessionEnd>, readings: seq<MeterValue>) {
    end.Some? && readings != [] && end.value.timestamp > readings[|readings| - 1].timestamp
  }

  function WithEnd(readings: seq<MeterValue>, end: Option<SessionEnd>, startKwh: Option<real>): seq<MeterValue> {
    if EndsAfter(end, readings) then
      readings + [BoundaryReading(end.value.timestamp,
                    EndEnergy(EnergyKwh(readings[|readings| - 1]), startKwh, end.value.totalKwh))]
    else readings
  }

  /** What a session that ends after all its readings has in its last instant: meterStart and the
      total, exactly if meterStart is trusted and they are at most 0.000001 kWh below the register
      of the last reading; and that register if they are below it. */
  lemma EndRegisterExactly(readings: seq<MeterValue>, start: Option<SessionStart>, end: SessionEnd, kwh: real)
    requires readings == [] ==> start.Some?
    requires end.timestamp > if readings == [] then start.value.timestamp else readings[|readings| - 1].timestamp
    ensures var k := TrustedStartKwh(readings, start);
            var instants := WithEnd(WithStart(readings, start, k), Some(end), k);
            && |instants| == |WithStart(readings, start, k)| + 1
            && instants[|instants| - 1].timestamp == end.timestamp
            && (EnergyKwh(instants[|instants| - 1]) == Some(kwh)
                <==> exists s :: MeterStart(readings, start, s) && end.totalKwh.Some?
                       && EndsWith(if readings == [] then Some(s) else EnergyKwh(readings[|readings| - 1]),
                                   s + end.totalKwh.value, kwh))
  {
    var k := TrustedStartKwh(readings, start);
    var last := if readings == [] then k else EnergyKwh(readings[|readings| - 1]);
    LastInstant(readings, start, end, k);
    if k.Some? {
      StartTrustedExactly(readings, start, k.value);
    }
    forall s | MeterStart(readings, start, s) ensures k == Some(s) {
      StartTrustedExactly(readings, start, s);
    }
    EndEnergyIs(last, k, end.totalKwh, kwh);
  }

  lemma LastInstant(readings: seq<MeterValue>, start: Option<SessionStart>, end: SessionEnd, k: Option<real>)
    requires readings == [] ==> start.Some?
    requires end.timestamp > if readings == [] then start.value.timestamp else readings[|readings| - 1].timestamp
    ensures var instants := WithEnd(WithStart(readings, start, k), Some(end), k);
            && |instants| == |WithStart(readings, start, k)| + 1
            && instants[|instants| - 1].timestamp == end.timestamp
            && EnergyKwh(instants[|instants| - 1])
               == EndEnergy(if readings == [] then k else EnergyKwh(readings[|readings| - 1]), k, end.totalKwh)
  {
    var last := if readings == [] then k else EnergyKwh(readings[|readings| - 1]);
    if readings == [] {
      BoundaryEnergy(start.value.timestamp, k);
    }
    BoundaryEnergy(end.timestamp, EndEnergy(last, k, end.totalKwh));
  }

  lemma EndEnergyIs(last: Option<real>, start: Option<real>, total: Option<real>, kwh: real)
    ensures EndEnergy(last, start, total) == Some(kwh)
       <==> start.Some? && total.Some? && EndsWith(last, start.value + total.value, kwh)
  {
  }

  predicate EndsWith(last: Option<real>, sum: real, kwh: real) {
    (last.Some? ==> sum >= last.value - 0.000001) && kwh == if last.Some? && last.value > sum then last.value else sum
  }

  /** And in its first, when it starts before all of them: meterStart, exactly if that is trusted. */
  lemma StartRegisterExactly(readings: seq<MeterValue>, start: Option<SessionStart>, end: Option<SessionEnd>,
                             kwh: real)
    requires start.Some? && (readings == [] || start.value.timestamp < readings[0].timestamp)
    ensures var k := TrustedStartKwh(readings, start);
            var instants := WithEnd(WithStart(readings, start, k), end, k);
            && instants != [] && instants[0].timestamp == start.value.timestamp
            && (EnergyKwh(instants[0]) == Some(kwh) <==> MeterStart(readings, start, kwh))
  {
    BoundaryEnergy(start.value.timestamp, TrustedStartKwh(readings, start));
    StartTrustedExactly(readings, start, kwh);
  }

  /** The readings between which the periods run. */
  function Instants(meterValues: seq<MeterValue>, start: Option<SessionStart>,
                    end: Option<SessionEnd>): seq<MeterValue> {
    var readings := Readings(meterValues);
    var startKwh := TrustedStartKwh(readings, start);
    WithEnd(WithStart(readings, start, startKwh), end, startKwh)
  }

  function PeriodFrom(previous: MeterValue, reading: MeterValue, tariffId: string,
                      startKwh: Option<real>): ChargingPeriod {
    ChargingPeriod(previous.timestamp, Dimensions(reading, previous, startKwh), tariffId)
  }

  function PeriodsBetween(instants: seq<MeterValue>, tariffId: string, startKwh: Option<real>): seq<ChargingPeriod> {
    if instants == [] then []
    else
      seq(|instants| - 1, i requires 0 <= i < |instants| - 1 =>
        PeriodFrom(instants[i], instants[i + 1], tariffId, startKwh))
  }

  lemma PeriodAt(instants: seq<MeterValue>, tariffId: string, startKwh: Option<real>, i: nat)
    requires i + 1 < |instants|
    ensures |PeriodsBetween(instants, tariffId, startKwh)| == |instants| - 1
    ensures PeriodsBetween(instants, tariffId, startKwh)[i]
         == PeriodFrom(instants[i], instants[i + 1], tariffId, startKwh)
  {
  }

  function Periods(meterValues: seq<MeterValue>, tariffId: string, start: Option<SessionStart>, end: Option<SessionEnd>)
    : seq<ChargingPeriod>
  {
    PeriodsBetween(Instants(meterValues, start, end), tariffId, TrustedStartKwh(Readings(meterValues), start))
  }

  /** getChargingPeriods, which unshifts and pushes the boundary readings onto one list. */
  method GetChargingPeriods(meterValues: seq<MeterValue>, tariffId: string, start: Option<SessionStart>,
                            end: Option<SessionEnd>)
    returns (periods: seq<ChargingPeriod>)
    ensures periods == Periods(meterValues, tariffId, start, end)
  {
    var readings := MergeMeterValuesByTimestamp(meterValues);
    var startKwh := TrustedStartKwh(readings, start);
    readings := AddBoundaryReadings(readings, start, end, startKwh);
    return PeriodsBetween(readings, tariffId, startKwh);
  }

  method AddBoundaryReadings(merged: seq<MeterValue>, start: Option<SessionStart>, end: Option<SessionEnd>,
                             startKwh: Option<real>)
    returns (readings: seq<MeterValue>)
    ensures readings == WithEnd(WithStart(merged, start, startKwh), end, startKwh)
  {
    readings := merged;
    if start.Some? && (|readings| == 0 || start.value.timestamp < readings[0].timestamp) {
      readings := [BoundaryReading(start.value.timestamp, startKwh)] + readings;
    }
    if |readings| == 0 {
      return;
    }
    var lastReading := readings[|readings| - 1];
    if end.Some? && end.value.timestamp > lastReading.timestamp {
      var endKwh := EndEnergy(EnergyKwh(lastReading), startKwh, end.value.totalKwh);
      readings := readings + [BoundaryReading(end.value.timestamp, endKwh)];
    }
  }

  lemma StartedLength(readings: seq<MeterValue>, start: Option<SessionStart>, k: Option<real>)
    requires readings != []
    ensures var started := WithStart(readings, start, k);
            && |started| == |readings| + (if StartsBefore(start, readings) then 1 else 0)
            && started[|started| - 1] == readings[|readings| - 1]
  {
  }

  lemma InstantsOf(readings: seq<MeterValue>, start: Option<SessionStart>, end: Option<SessionEnd>, k: Option<real>)
    requires readings != []
    ensures |WithEnd(WithStart(readings, start, k), end, k)|
         == |readings| + (if StartsBefore(start, readings) then 1 else 0) + if EndsAfter(end, readings) then 1 else 0
  {
    StartedLength(readings, start, k);
  }

  // ------------------------------------------------------------- time order

  /** Periods run between strictly increasing instants: no period is empty or overlaps. */
  lemma InstantsAscend(meterValues: seq<MeterValue>, start: Option<SessionStart>, end: Option<SessionEnd>)
    ensures TimesAscend(Instants(meterValues, start, end))
  {
    ReadingsTimes(meterValues);
    var readings := Readings(meterValues);
    var startKwh := TrustedStartKwh(readings, start);
    var started := WithStart(readings, start, startKwh);
    assert TimesAscend(started);
    WithEndAscends(started, end, startKwh);
  }

  lemma WithEndAscends(readings: seq<MeterValue>, end: Option<SessionEnd>, startKwh: Option<real>)
    requires TimesAscend(readings)
    ensures TimesAscend(WithEnd(readings, end, startKwh))
  {
  }

  lemma PeriodsAscend(meterValues: seq<MeterValue>, tariffId: string, start: Option<SessionStart>,
                      end: Option<SessionEnd>)
    ensures var periods := Periods(meterValues, tariffId, start, end);
            forall i, j :: 0 <= i < j < |periods| ==> periods[i].startDateTime < periods[j].startDateTime
  {
    InstantsAscend(meterValues, start, end);
    PeriodStarts(Instants(meterValues, start, end), tariffId, TrustedStartKwh(Readings(meterValues), start));
  }

  lemma PeriodStarts(instants: seq<MeterValue>, tariffId: string, startKwh: Option<real>)
    ensures var periods := PeriodsBetween(instants, tariffId, startKwh);
            && (instants != [] ==> |periods| == |instants| - 1) && (instants == [] ==> periods == [])
            && forall i :: 0 <= i < |periods| ==> periods[i].startDateTime == instants[i].timestamp
  {
  }

  /** Re-sending readings the session already has changes no period. */
  lemma PeriodsIgnoreRepeats(meterValues: seq<MeterValue>, repeats: seq<MeterValue>, tariffId: string,
                             start: Option<SessionStart>, end: Option<SessionEnd>)
    requires forall r :: r in repeats ==> r in meterValues
    ensures Periods(meterValues + repeats, tariffId, start, end) == Periods(meterValues, tariffId, start, end)
  {
    ReadingsIgnoreRepeats(meterValues, repeats);
  }

  /** Nor does the order in which unambiguous readings arrive. */
  lemma PeriodsIgnoreArrivalOrder(a: seq<MeterValue>, b: seq<MeterValue>, tariffId: string,
                                  start: Option<SessionStart>, end: Option<SessionEnd>)
    requires Unambiguous(a)
    requires forall v :: v in a <==> v in b
    ensures Periods(a, tariffId, start, end) == Periods(b, tariffId, start, end)
  {
    ReadingsIgnoreArrivalOrder(a, b);
  }
}
