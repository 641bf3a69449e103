/**
 The totals of a CDR (CdrMapper, BaseTransactionMapper) against the charging periods it
 carries (SessionMapper): the mappers compute the two separately, each with its own rounding.
 */
module CdrTotals {
  import opened Numbers
  import opened MeterReadings
  import opened ChargingPeriods

  datatype Transaction = Transaction(
    meterValues: seq<MeterValue>,
    startTime: Option<int>,
    createdAt: int,
    endTime: Option<int>,
    isActive: Option<bool>,
    meterStart: Option<Number>,
    totalKwh: Option<real>)

  datatype PriceComponent = PriceComponent(kind: string, price: Option<real>)

  /** The price components of each tariff element. */
  datatype Tariff = Tariff(ocpiTariffId: string, elements: seq<seq<PriceComponent>>)

  datatype Session = Session(
    startDateTime: int,
    endDateTime: Option<int>,
    kwh: real,
    chargingPeriods: seq<ChargingPeriod>)

  datatype Cdr = Cdr(chargingPeriods: seq<ChargingPeriod>, totalCost: real, totalEnergy: real, totalTime: real)

  // ---------------------------------------------------------------------- mapping

  function StartOf(t: Transaction): Option<SessionStart> {
    if t.startTime.None? then None else Some(SessionStart(t.startTime.value, t.meterStart))
  }

  /** The end closes the last period only when the transaction is explicitly inactive. */
  function EndOf(t: Transaction): Option<SessionEnd> {
    if t.isActive != Some(false) || t.endTime.None? then None
    else Some(SessionEnd(t.endTime.value, t.totalKwh))
  }

  function TotalKwh(t: Transaction): real {
    if t.totalKwh.Some? then t.totalKwh.value else 0.0
  }

  function MapToSession(t: Transaction, tariff: Tariff): Session {
    Session(
      if t.startTime.Some? then t.startTime.value else t.createdAt,
      t.endTime,
      RoundOcpi(TotalKwh(t)),
      Periods(t.meterValues, tariff.ocpiTariffId, StartOf(t), EndOf(t)))
  }

  function EnergyPrice(components: seq<PriceComponent>): real {
    if components == [] then 0.0
    else if components[0].kind == "ENERGY" then
      (if components[0].price.Some? then components[0].price.value else 0.0)
    else EnergyPrice(components[1..])
  }

  /** Component k is the first one of kind ENERGY. */
  ghost predicate EnergyComponent(components: seq<PriceComponent>, k: int) {
    0 <= k < |components| && components[k].kind == "ENERGY"
    && forall i :: 0 <= i < k ==> components[i].kind != "ENERGY"
  }

  /** The tariff has a price for energy: that of the first ENERGY component of its first element. */
  ghost predicate HasPrice(tariff: Tariff, price: real) {
    tariff.elements != []
    && exists k :: EnergyComponent(tariff.elements[0], k) && tariff.elements[0][k].price == Some(price)
  }

  lemma {:induction false} EnergyPriceIs(components: seq<PriceComponent>)
    ensures forall k :: EnergyComponent(components, k) ==>
              EnergyPrice(components) == if components[k].price.Some? then components[k].price.value else 0.0
    ensures EnergyPrice(components) != 0.0 ==> exists k :: EnergyComponent(components, k)
  {
    if components != [] {
      EnergyPriceIs(components[1..]);
      forall k | EnergyComponent(components, k)
        ensures EnergyPrice(components) == if components[k].price.Some? then components[k].price.value else 0.0
      {
        if k > 0 {
          assert components[0].kind != "ENERGY" && EnergyComponent(components[1..], k - 1);
        }
      }
      if components[0].kind == "ENERGY" {
        assert EnergyComponent(components, 0);
      } else if EnergyPrice(components) != 0.0 {
        var k :| EnergyComponent(components[1..], k);
        assert forall i :: 0 < i <= k + 1 ==> components[i] == components[1..][i - 1];
        assert EnergyComponent(components, k + 1);
      }
    }
  }

  lemma PriceOf(tariff: Tariff, price: real)
    requires HasPrice(tariff, price)
    ensures EnergyPrice(tariff.elements[0]) == price
  {
    EnergyPriceIs(tariff.elements[0]);
  }

  /** calculateTotalCost, excluding VAT. */
  function TotalCost(totalKwh: real, tariff: Tariff): real {
    if tariff.elements == [] then 0.0
    else
      var pricePerKwh := EnergyPrice(tariff.elements[0]);
      if pricePerKwh > 0.0 || totalKwh == 0.0
      then CostAt(totalKwh, pricePerKwh)
      else 0.0
  }

  function CostAt(totalKwh: real, pricePerKwh: real): real {
    Cents(JsRound(totalKwh * pricePerKwh * 100.0))
  }

  function Cents(n: int): real {
    n as real / 100.0
  }

  predicate SessionOnly(kind: DimensionType) {
    kind in {CURRENT, ENERGY_EXPORT, ENERGY_IMPORT, POWER, STATE_OF_CHARGE}
  }

  function CdrDimensions(dimensions: seq<CdrDimension>): seq<CdrDimension> {
    if dimensions == [] then []
    else
      CdrDimensions(dimensions[..|dimensions| - 1])
      + (if SessionOnly(dimensions[|dimensions| - 1].kind) then [] else [dimensions[|dimensions| - 1]])
  }

  /** formatChargingPeriodsCdr: session-only dimensions go, and a period left without any
      dimension goes too. */
  function CdrPeriods(periods: seq<ChargingPeriod>): seq<ChargingPeriod> {
    if periods == [] then []
    else
      var last := periods[|periods| - 1];
      var dimensions := CdrDimensions(last.dimensions);
      CdrPeriods(periods[..|periods| - 1])
      + if dimensions == [] then [] else [last.(dimensions := dimensions)]
  }

  function TotalTime(session: Session): real {
    if session.endDateTime.Some?
    then RoundOcpi(RoundedHours(session.endDateTime.value) - RoundedHours(session.startDateTime))
    else 0.0
  }

  function MapToCdr(session: Session, tariff: Tariff): Cdr {
    Cdr(CdrPeriods(session.chargingPeriods), TotalCost(session.kwh, tariff), session.kwh, TotalTime(session))
  }

  function CdrOf(t: Transaction, tariff: Tariff): Cdr {
    MapToCdr(MapToSession(t, tariff), tariff)
  }

  // ------------------------------------------------------------------- summing up

  function VolumeOf(d: CdrDimension, kind: DimensionType): real {
    if d.kind == kind && d.volume.Finite? then d.volume.value else 0.0
  }

  function SumDimensions(dimensions: seq<CdrDimension>, kind: DimensionType): real {
    if dimensions == [] then 0.0
    else SumDimensions(dimensions[..|dimensions| - 1], kind) + VolumeOf(dimensions[|dimensions| - 1], kind)
  }

  /** The volumes of one kind, summed over all periods. */
  function SumPeriods(periods: seq<ChargingPeriod>, kind: DimensionType): real {
    if periods == [] then 0.0
    else SumPeriods(periods[..|periods| - 1], kind) + SumDimensions(periods[|periods| - 1].dimensions, kind)
  }

  lemma {:induction false} SumConcat(a: seq<CdrDimension>, b: seq<CdrDimension>, kind: DimensionType)
    ensures SumDimensions(a + b, kind) == SumDimensions(a, kind) + SumDimensions(b, kind)
  {
    if b == [] {
      assert a + b == a;
    } else {
      assert (a + b)[..|a + b| - 1] == a + b[..|b| - 1];
      SumConcat(a, b[..|b| - 1], kind);
    }
  }

  lemma {:induction false} SamplesCarryNoEnergyOrTime(samples: seq<SampledValue>)
    ensures forall d :: d in SampleDimensions(samples) ==> d.kind == CURRENT || d.kind == STATE_OF_CHARGE
    ensures SumDimensions(SampleDimensions(samples), ENERGY) == 0.0
    ensures SumDimensions(SampleDimensions(samples), TIME) == 0.0
  {
    if samples != [] {
      var before, last := SampleDimensions(samples[..|samples| - 1]), SampleDimension(samples[|samples| - 1]);
      SamplesCarryNoEnergyOrTime(samples[..|samples| - 1]);
      SumConcat(before, last, ENERGY);
      SumConcat(before, last, TIME);
      assert last == [] || last == [last[0]];
    }
  }

  function EnergyBetween(current: Option<real>, previous: Option<real>): real {
    if current.Some? && previous.Some? then RoundOcpi(current.value) - RoundOcpi(previous.value) else 0.0
  }

  lemma EnergyDimensionsSum(current: Option<real>, previous: Option<real>, startKwh: Option<real>)
    ensures SumDimensions(EnergyDimensions(current, previous, startKwh), ENERGY) == EnergyBetween(current, previous)
    ensures SumDimensions(EnergyDimensions(current, previous, startKwh), TIME) == 0.0
  {
    if current.Some? {
      var start := if startKwh.Some? then startKwh.value else 0.0;
      var imported := CdrDimension(ENERGY_IMPORT, Finite(RoundOcpi(current.value - start)));
      var prefix := if startKwh.Some? then [imported] else [];
      SumOfOne(imported, ENERGY);
      SumOfOne(imported, TIME);
      if previous.Some? {
        var energy := CdrDimension(ENERGY, Finite(RoundOcpi(RoundOcpi(current.value) - RoundOcpi(previous.value))));
        assert EnergyDimensions(current, previous, startKwh) == prefix + [energy];
        SumConcat(prefix, [energy], ENERGY);
        SumConcat(prefix, [energy], TIME);
        SumOfOne(energy, ENERGY);
        SumOfOne(energy, TIME);
        RoundDifference(current.value, previous.value);
      } else {
        assert EnergyDimensions(current, previous, startKwh) == prefix;
      }
    }
  }

  lemma DimensionsSplit(reading: MeterValue, previous: MeterValue, startKwh: Option<real>, kind: DimensionType)
    requires kind == ENERGY || kind == TIME
    ensures SumDimensions(Dimensions(reading, previous, startKwh), kind)
         == SumDimensions(EnergyDimensions(EnergyKwh(reading), EnergyKwh(previous), startKwh), kind)
            + if kind == TIME then TimeElapsed(reading, previous) else 0.0
  {
    var energy := EnergyDimensions(EnergyKwh(reading), EnergyKwh(previous), startKwh);
    var samples := SampleDimensions(reading.sampledValue);
    var time := CdrDimension(TIME, Finite(TimeElapsed(reading, previous)));
    SamplesCarryNoEnergyOrTime(reading.sampledValue);
    SumConcat(energy, samples, kind);
    SumConcat(energy + samples, [time], kind);
    SumOfOne(time, kind);
  }

  lemma SumOfOne(d: CdrDimension, kind: DimensionType)
    ensures SumDimensions([d], kind) == VolumeOf(d, kind)
  {
    assert [d][..0] == [];
  }

  /** What one period contributes: rounding the difference of rounded values takes nothing
      away. */
  lemma DimensionsSum(reading: MeterValue, previous: MeterValue, startKwh: Option<real>)
    ensures SumDimensions(Dimensions(reading, previous, startKwh), TIME)
         == RoundedHours(reading.timestamp) - RoundedHours(previous.timestamp)
    ensures SumDimensions(Dimensions(reading, previous, startKwh), ENERGY)
         == EnergyBetween(EnergyKwh(reading), EnergyKwh(previous))
  {
    EnergyDimensionsSum(EnergyKwh(reading), EnergyKwh(previous), startKwh);
    DimensionsSplit(reading, previous, startKwh, ENERGY);
    DimensionsSplit(reading, previous, startKwh, TIME);
    RoundDifference(reading.timestamp as real / 3600000.0, previous.timestamp as real / 3600000.0);
  }

  lemma PeriodsBetweenLast(instants: seq<MeterValue>, tariffId: string, startKwh: Option<real>)
    requires |instants| >= 2
    ensures var n := |instants|;
            var periods := PeriodsBetween(instants, tariffId, startKwh);
            periods[..n - 2] == PeriodsBetween(instants[..n - 1], tariffId, startKwh)
            && periods[n - 2].dimensions == Dimensions(instants[n - 1], instants[n - 2], startKwh)
  {
    var n := |instants|;
    var periods, before := PeriodsBetween(instants, tariffId, startKwh),
                           PeriodsBetween(instants[..n - 1], tariffId, startKwh);
    PeriodAt(instants, tariffId, startKwh, n - 2);
    forall i | 0 <= i < n - 2 ensures periods[i] == before[i] {
      PeriodAt(instants, tariffId, startKwh, i);
      PeriodAt(instants[..n - 1], tariffId, startKwh, i);
    }
  }

  /** TIME volumes telescope. */
  lemma {:induction false} TimeTelescopes(instants: seq<MeterValue>, tariffId: string, startKwh: Option<real>)
    requires instants != []
    ensures SumPeriods(PeriodsBetween(instants, tariffId, startKwh), TIME)
         == RoundedHours(instants[|instants| - 1].timestamp) - RoundedHours(instants[0].timestamp)
  {
    var n := |instants|;
    if n >= 2 {
      PeriodsBetweenLast(instants, tariffId, startKwh);
      TimeTelescopes(instants[..n - 1], tariffId, startKwh);
      DimensionsSum(instants[n - 1], instants[n - 2], startKwh);
    }
  }

  /** ENERGY volumes telescope when every reading has a register. */
  lemma {:induction false} EnergyTelescopes(instants: seq<MeterValue>, tariffId: string, startKwh: Option<real>)
    requires instants != []
    requires forall r :: r in instants ==> EnergyKwh(r).Some?
    ensures SumPeriods(PeriodsBetween(instants, tariffId, startKwh), ENERGY)
         == RoundOcpi(EnergyKwh(instants[|instants| - 1]).value) - RoundOcpi(EnergyKwh(instants[0]).value)
  {
    var n := |instants|;
    assert instants[0] in instants && instants[n - 1] in instants;
    if n >= 2 {
      assert instants[n - 2] in instants;
      PeriodsBetweenLast(instants, tariffId, startKwh);
      assert forall r :: r in instants[..n - 1] ==> r in instants;
      EnergyTelescopes(instants[..n - 1], tariffId, startKwh);
      DimensionsSum(instants[n - 1], instants[n - 2], startKwh);
    }
  }

  // ---------------------------------------------------------- what the CDR filter keeps

  lemma {:induction false} CdrDimensionsKeep(dimensions: seq<CdrDimension>, kind: DimensionType)
    requires !SessionOnly(kind)
    ensures SumDimensions(CdrDimensions(dimensions), kind) == SumDimensions(dimensions, kind)
    ensures forall d :: d in CdrDimensions(dimensions) <==> d in dimensions && !SessionOnly(d.kind)
  {
    if dimensions != [] {
      var before, last := dimensions[..|dimensions| - 1], dimensions[|dimensions| - 1];
      CdrDimensionsKeep(before, kind);
      assert dimensions == before + [last];
      SumConcat(before, [last], kind);
      SumOfOne(last, kind);
      SumConcat(CdrDimensions(before), if SessionOnly(last.kind) then [] else [last], kind);
    }
  }

  ghost predicate Timed(period: ChargingPeriod) {
    exists d :: d in period.dimensions && d.kind == TIME
  }

  ghost predicate EveryPeriodTimed(periods: seq<ChargingPeriod>) {
    forall p :: p in periods ==> Timed(p)
  }

  lemma MapperPeriodsTimed(instants: seq<MeterValue>, tariffId: string, startKwh: Option<real>)
    ensures EveryPeriodTimed(PeriodsBetween(instants, tariffId, startKwh))
  {
    var periods := PeriodsBetween(instants, tariffId, startKwh);
    forall i | 0 <= i < |periods| ensures Timed(periods[i]) {
      var ds := periods[i].dimensions;
      assert ds[|ds| - 1] in ds && ds[|ds| - 1].kind == TIME;
    }
  }

  /** The CDR keeps every period that carries TIME, with its ENERGY and TIME volumes. */
  lemma {:induction false} CdrPeriodsKeep(periods: seq<ChargingPeriod>, kind: DimensionType)
    requires EveryPeriodTimed(periods) && !SessionOnly(kind)
    ensures |CdrPeriods(periods)| == |periods|
    ensures SumPeriods(CdrPeriods(periods), kind) == SumPeriods(periods, kind)
  {
    if periods != [] {
      var before, last := periods[..|periods| - 1], periods[|periods| - 1];
      assert forall p :: p in before ==> p in periods;
      CdrPeriodsKeep(before, kind);
      assert Timed(last);
      CdrPeriodKept(periods, kind);
    }
  }

  lemma CdrPeriodKept(periods: seq<ChargingPeriod>, kind: DimensionType)
    requires periods != [] && Timed(periods[|periods| - 1]) && !SessionOnly(kind)
    ensures |CdrPeriods(periods)| == |CdrPeriods(periods[..|periods| - 1])| + 1
    ensures SumPeriods(CdrPeriods(periods), kind)
         == SumPeriods(CdrPeriods(periods[..|periods| - 1]), kind)
            + SumDimensions(periods[|periods| - 1].dimensions, kind)
  {
    var before, last := CdrPeriods(periods[..|periods| - 1]), periods[|periods| - 1];
    CdrPeriodAppended(periods);
    CdrDimensionsKeep(last.dimensions, kind);
    AppendPeriod(before, last.(dimensions := CdrDimensions(last.dimensions)), kind);
  }

  lemma AppendPeriod(periods: seq<ChargingPeriod>, last: ChargingPeriod, kind: DimensionType)
    ensures SumPeriods(periods + [last], kind) == SumPeriods(periods, kind) + SumDimensions(last.dimensions, kind)
  {
    assert (periods + [last])[..|periods + [last]| - 1] == periods;
  }

  lemma {:induction false} CdrPeriodsAt(periods: seq<ChargingPeriod>)
    requires EveryPeriodTimed(periods)
    ensures |CdrPeriods(periods)| == |periods|
    ensures forall i :: 0 <= i < |periods| ==>
                          CdrPeriods(periods)[i] == periods[i].(dimensions := CdrDimensions(periods[i].dimensions))
  {
    if periods != [] {
      var before, last := periods[..|periods| - 1], periods[|periods| - 1];
      assert forall p :: p in before ==> p in periods;
      CdrPeriodsAt(before);
      assert Timed(last);
      CdrPeriodAppended(periods);
    }
  }

  lemma CdrPeriodAppended(periods: seq<ChargingPeriod>)
    requires periods != [] && Timed(periods[|periods| - 1])
    ensures var last := periods[|periods| - 1];
            CdrPeriods(periods)
            == CdrPeriods(periods[..|periods| - 1]) + [last.(dimensions := CdrDimensions(last.dimensions))]
  {
    var last := periods[|periods| - 1];
    var d :| d in last.dimensions && d.kind == TIME;
    CdrDimensionsKeep(last.dimensions, TIME);
    assert d in CdrDimensions(last.dimensions);
  }

  /** The CDR has the periods of the session, of which it carries the energies and the times, as
      they are, and nothing else. */
  lemma CdrPeriodsExactly(t: Transaction, tariff: Tariff, i: nat, d: CdrDimension)
    requires i < |MapToSession(t, tariff).chargingPeriods|
    ensures var session, cdr := MapToSession(t, tariff).chargingPeriods, CdrOf(t, tariff).chargingPeriods;
            && |cdr| == |session|
            && cdr[i].startDateTime == session[i].startDateTime && cdr[i].tariffId == session[i].tariffId
            && (d in cdr[i].dimensions <==> d in session[i].dimensions && (d.kind == ENERGY || d.kind == TIME))
  {
    var instants := Instants(t.meterValues, StartOf(t), EndOf(t));
    var k := TrustedStartKwh(Readings(t.meterValues), StartOf(t));
    MapperPeriodsTimed(instants, tariff.ocpiTariffId, k);
    CdrPeriodAt(MapToSession(t, tariff).chargingPeriods, i, d);
  }

  lemma CdrPeriodAt(periods: seq<ChargingPeriod>, i: nat, d: CdrDimension)
    requires EveryPeriodTimed(periods) && i < |periods|
    ensures var kept := CdrPeriods(periods);
            && |kept| == |periods|
            && kept[i].startDateTime == periods[i].startDateTime && kept[i].tariffId == periods[i].tariffId
            && (d in kept[i].dimensions <==> d in periods[i].dimensions && (d.kind == ENERGY || d.kind == TIME))
  {
    CdrPeriodsAt(periods);
    CdrDimensionsKeep(periods[i].dimensions, TIME);
  }

  /** The CDR's periods sum to what the session's periods sum to. */
  lemma CdrKeepsSums(t: Transaction, tariff: Tariff, kind: DimensionType)
    requires kind == ENERGY || kind == TIME
    ensures |CdrOf(t, tariff).chargingPeriods| == |MapToSession(t, tariff).chargingPeriods|
    ensures SumPeriods(CdrOf(t, tariff).chargingPeriods, kind)
         == SumPeriods(PeriodsBetween(Instants(t.meterValues, StartOf(t), EndOf(t)), tariff.ocpiTariffId,
                                      TrustedStartKwh(Readings(t.meterValues), StartOf(t))), kind)
  {
    var instants := Instants(t.meterValues, StartOf(t), EndOf(t));
    var startKwh := TrustedStartKwh(Readings(t.meterValues), StartOf(t));
    MapperPeriodsTimed(instants, tariff.ocpiTariffId, startKwh);
    CdrPeriodsKeep(PeriodsBetween(instants, tariff.ocpiTariffId, startKwh), kind);
  }

  // ------------------------------------------------------------- time conservation

  lemma RoundedHoursMonotone(a: int, b: int)
    requires a <= b
    ensures RoundedHours(a) <= RoundedHours(b)
  {
    RoundMonotone(a as real / 3600000.0, b as real / 3600000.0);
  }

  lemma TotalTimeIsDifference(start: int, end: int)
    ensures RoundOcpi(RoundedHours(end) - RoundedHours(start)) == RoundedHours(end) - RoundedHours(start)
  {
    RoundDifference(end as real / 3600000.0, start as real / 3600000.0);
  }

  /** What the bounds of a finished session do to its first and last instant. */
  ghost predicate Bounded(readings: seq<MeterValue>, start: int, end: int, first: int, last: int) {
    && first <= start && end <= last
    && (first == start || (readings != [] && first == readings[0].timestamp))
    && (last == end || (if readings == [] then last == start else last == readings[|readings| - 1].timestamp))
    && (readings == [] ==> first == start <= last)
    && (forall r :: r in readings ==> first <= r.timestamp <= last)
  }

  lemma BoundedInstants(readings: seq<MeterValue>, start: SessionStart, end: SessionEnd, k: Option<real>)
    requires TimesAscend(readings)
    ensures WithEnd(WithStart(readings, Some(start), k), Some(end), k) != []
    ensures Bounded(readings, start.timestamp, end.timestamp,
                    WithEnd(WithStart(readings, Some(start), k), Some(end), k)[0].timestamp,
                    WithEnd(WithStart(readings, Some(start), k), Some(end), k)
                      [|WithEnd(WithStart(readings, Some(start), k), Some(end), k)| - 1].timestamp)
  {
    var started := WithStart(readings, Some(start), k);
    var instants := WithEnd(started, Some(end), k);
    forall r | r in readings ensures instants[0].timestamp <= r.timestamp <= instants[|instants| - 1].timestamp {
      var i :| 0 <= i < |readings| && readings[i] == r;
      assert i > 0 ==> readings[0].timestamp < readings[i].timestamp;
      assert i < |readings| - 1 ==> readings[i].timestamp < readings[|readings| - 1].timestamp;
    }
  }

  ghost predicate Within(readings: seq<MeterValue>, start: int, end: int) {
    && RoundedHours(start) <= RoundedHours(end)
    && forall r :: r in readings ==> RoundedHours(start) <= RoundedHours(r.timestamp) <= RoundedHours(end)
  }

  lemma WithinExactly(readings: seq<MeterValue>, start: int, end: int, first: int, last: int)
    requires Bounded(readings, start, end, first, last)
    ensures RoundedHours(last) - RoundedHours(first) >= RoundedHours(end) - RoundedHours(start)
    ensures RoundedHours(last) - RoundedHours(first) == RoundedHours(end) - RoundedHours(start)
       <==> Within(readings, start, end)
  {
    RoundedHoursMonotone(first, start);
    RoundedHoursMonotone(end, last);
    if readings == [] {
      RoundedHoursMonotone(start, last);
    } else {
      assert readings[0] in readings && readings[|readings| - 1] in readings;
    }
    forall r | r in readings ensures RoundedHours(first) <= RoundedHours(r.timestamp) <= RoundedHours(last) {
      RoundedHoursMonotone(first, r.timestamp);
      RoundedHoursMonotone(r.timestamp, last);
    }
  }

  lemma WithinReadings(meterValues: seq<MeterValue>, start: int, end: int)
    ensures Within(meterValues, start, end) <==> Within(Readings(meterValues), start, end)
  {
    ReadingsTimes(meterValues);
    var readings := Readings(meterValues);
    forall v | v in meterValues ensures exists r :: r in readings && r.timestamp == v.timestamp {
      assert HasTime(meterValues, v.timestamp) && HasTime(readings, v.timestamp);
    }
    forall r | r in readings ensures exists v :: v in meterValues && v.timestamp == r.timestamp {
      assert HasTime(readings, r.timestamp) && HasTime(meterValues, r.timestamp);
    }
  }

  lemma SessionTime(meterValues: seq<MeterValue>, tariffId: string, start: SessionStart, end: SessionEnd,
                    startKwh: Option<real>)
    requires startKwh == TrustedStartKwh(Readings(meterValues), Some(start))
    ensures var instants := Instants(meterValues, Some(start), Some(end));
            var sum := SumPeriods(PeriodsBetween(instants, tariffId, startKwh), TIME);
            var total := RoundedHours(end.timestamp) - RoundedHours(start.timestamp);
            sum >= total && (sum == total <==> Within(meterValues, start.timestamp, end.timestamp))
  {
    ReadingsTimes(meterValues);
    BoundedTime(Readings(meterValues), tariffId, start, end, startKwh);
    WithinReadings(meterValues, start.timestamp, end.timestamp);
  }

  lemma BoundedTime(readings: seq<MeterValue>, tariffId: string, start: SessionStart, end: SessionEnd,
                    startKwh: Option<real>)
    requires TimesAscend(readings)
    ensures var instants := WithEnd(WithStart(readings, Some(start), startKwh), Some(end), startKwh);
            var sum := SumPeriods(PeriodsBetween(instants, tariffId, startKwh), TIME);
            var total := RoundedHours(end.timestamp) - RoundedHours(start.timestamp);
            sum >= total && (sum == total <==> Within(readings, start.timestamp, end.timestamp))
  {
    var instants := WithEnd(WithStart(readings, Some(start), startKwh), Some(end), startKwh);
    BoundedInstants(readings, start, end, startKwh);
    TimeTelescopes(instants, tariffId, startKwh);
    WithinExactly(readings, start.timestamp, end.timestamp, instants[0].timestamp, instants[|instants| - 1].timestamp);
  }

  /** For every finished session the TIME volumes of the CDR's periods sum to at least
      total_time, and to exactly total_time if and only if, on the four-decimal hour grid,
      the session does not end before it starts and has no reading outside its bounds. The
      CDR drops no period. */
  lemma TimeConserved(t: Transaction, tariff: Tariff)
    requires t.startTime.Some? && t.endTime.Some? && t.isActive == Some(false)
    ensures SumPeriods(CdrOf(t, tariff).chargingPeriods, TIME) >= CdrOf(t, tariff).totalTime
    ensures SumPeriods(CdrOf(t, tariff).chargingPeriods, TIME) == CdrOf(t, tariff).totalTime
       <==> Within(t.meterValues, t.startTime.value, t.endTime.value)
    ensures |CdrOf(t, tariff).chargingPeriods| == |MapToSession(t, tariff).chargingPeriods|
  {
    var startKwh := TrustedStartKwh(Readings(t.meterValues), StartOf(t));
    CdrKeepsSums(t, tariff, TIME);
    SessionTime(t.meterValues, tariff.ocpiTariffId, StartOf(t).value, EndOf(t).value, startKwh);
    CdrTotalTime(t, tariff);
  }

  lemma CdrTotalTime(t: Transaction, tariff: Tariff)
    requires t.startTime.Some? && t.endTime.Some?
    ensures CdrOf(t, tariff).totalTime == RoundedHours(t.endTime.value) - RoundedHours(t.startTime.value)
  {
    TotalTimeIsDifference(t.startTime.value, t.endTime.value);
  }

  /** The totals of every CDR: the total energy rounded, none counting as zero; the time from the
      start, or else the creation, of the transaction to its end, zero while there is none. */
  lemma CdrTotalsExactly(t: Transaction, tariff: Tariff)
    ensures var cdr := CdrOf(t, tariff);
            && cdr.totalEnergy == RoundOcpi(if t.totalKwh.Some? then t.totalKwh.value else 0.0)
            && cdr.totalTime
               == if t.endTime.None? then 0.0
                  else
                    RoundedHours(t.endTime.value)
                    - RoundedHours(if t.startTime.Some? then t.startTime.value else t.createdAt)
  {
    if t.endTime.Some? {
      TotalTimeIsDifference(if t.startTime.Some? then t.startTime.value else t.createdAt, t.endTime.value);
    }
  }

  /** The total time is the duration in hours, less than one unit of 0.0001 off. */
  lemma TotalTimeIsDuration(t: Transaction, tariff: Tariff)
    requires t.startTime.Some? && t.endTime.Some?
    ensures -0.0001 < CdrOf(t, tariff).totalTime - (t.endTime.value - t.startTime.value) as real / 3600000.0 < 0.0001
  {
    CdrTotalsExactly(t, tariff);
    RoundError(t.startTime.value as real / 3600000.0);
    RoundError(t.endTime.value as real / 3600000.0);
  }

  /** The last reading of a transaction that is not known to be inactive, or has no end, closes its
      last period; the end does, if it comes later, otherwise. */
  lemma ClosedWhenInactive(t: Transaction, tariff: Tariff)
    requires t.meterValues != []
    ensures var readings, periods := Readings(t.meterValues), MapToSession(t, tariff).chargingPeriods;
            readings != []
            && |periods| == |readings| - 1
                            + (if t.startTime.Some? && t.startTime.value < readings[0].timestamp then 1 else 0)
                            + (if t.isActive == Some(false) && t.endTime.Some?
                                  && t.endTime.value > readings[|readings| - 1].timestamp then 1 else 0)
  {
    ReadingsTimes(t.meterValues);
    assert HasTime(t.meterValues, t.meterValues[0].timestamp);
    assert HasTime(Readings(t.meterValues), t.meterValues[0].timestamp);
    var k := TrustedStartKwh(Readings(t.meterValues), StartOf(t));
    InstantsOf(Readings(t.meterValues), StartOf(t), EndOf(t), k);
    PeriodStarts(Instants(t.meterValues, StartOf(t), EndOf(t)), tariff.ocpiTariffId, k);
  }

  // ----------------------------------------------------------- energy conservation

  /** The first and the last register of a session, meterStart where there is no reading. */
  function FirstKwh(readings: seq<MeterValue>, meterStart: real): real
    requires readings != [] ==> EnergyKwh(readings[0]).Some?
  {
    if readings == [] then meterStart else EnergyKwh(readings[0]).value
  }

  function LastKwh(readings: seq<MeterValue>, meterStart: real): real
    requires readings != [] ==> EnergyKwh(readings[|readings| - 1]).Some?
  {
    if readings == [] then meterStart else EnergyKwh(readings[|readings| - 1]).value
  }

  /** A finished session metered from end to end: every reading carries a register, the start
      lies strictly before and the end strictly after all readings, meterStart is at most the
      tolerance above the first register, and meterStart with the total at most the tolerance
      below the last. */
  ghost predicate FullyMetered(t: Transaction) {
    var readings := Readings(t.meterValues);
    && t.startTime.Some? && t.endTime.Some? && t.isActive == Some(false)
    && t.startTime.value < t.endTime.value
    && (forall r :: r in readings ==> EnergyKwh(r).Some? && t.startTime.value < r.timestamp < t.endTime.value)
    && t.meterStart.Some? && t.meterStart.value.Finite? && t.totalKwh.Some?
    && var start, total := t.meterStart.value.value, t.totalKwh.value;
       0.0 <= start <= FirstKwh(readings, start) + 0.000001 && start + total >= LastKwh(readings, start) - 0.000001
  }

  /** The register at the session's end: meterStart and the total, or the last register if that is
      above them. */
  ghost function EndKwh(t: Transaction): real
    requires FullyMetered(t)
  {
    var start := t.meterStart.value.value;
    var last := LastKwh(Readings(t.meterValues), start);
    if start + t.totalKwh.value >= last then start + t.totalKwh.value else last
  }

  lemma FullyMeteredInstants(readings: seq<MeterValue>, start: SessionStart, end: SessionEnd, k: Option<real>)
    requires start.timestamp < end.timestamp && k.Some?
    requires forall r :: r in readings ==> EnergyKwh(r).Some? && start.timestamp < r.timestamp < end.timestamp
    requires EndEnergy(if readings == [] then k else EnergyKwh(readings[|readings| - 1]), k, end.totalKwh).Some?
    ensures var instants := WithEnd(WithStart(readings, Some(start), k), Some(end), k);
            instants != []
            && (forall r :: r in instants ==> EnergyKwh(r).Some?)
            && EnergyKwh(instants[0]) == k
            && EnergyKwh(instants[|instants| - 1])
                 == EndEnergy(if readings == [] then k else EnergyKwh(readings[|readings| - 1]), k, end.totalKwh)
  {
    if readings != [] {
      assert readings[0] in readings && readings[|readings| - 1] in readings;
    }
    var started := WithStart(readings, Some(start), k);
    assert started == [BoundaryReading(start.timestamp, k)] + readings;
    BoundaryEnergy(start.timestamp, k);
    var endKwh := EndEnergy(EnergyKwh(started[|started| - 1]), k, end.totalKwh);
    BoundaryEnergy(end.timestamp, endKwh);
    assert WithEnd(started, Some(end), k) == started + [BoundaryReading(end.timestamp, endKwh)];
  }

  /** meterStart is trusted, and the register at the end accepted. */
  lemma StartAccepted(t: Transaction)
    requires FullyMetered(t)
    ensures TrustedStartKwh(Readings(t.meterValues), StartOf(t)) == Some(t.meterStart.value.value)
  {
    var readings, start := Readings(t.meterValues), t.meterStart.value.value;
    StartTrustedExactly(readings, StartOf(t), start);
    forall k | FirstRegister(readings, k) ensures k == 0 {
      assert readings[0] in readings;
    }
  }

  lemma EndAccepted(t: Transaction)
    requires FullyMetered(t)
    ensures var readings, start := Readings(t.meterValues), t.meterStart.value.value;
            var last := if readings == [] then Some(start) else EnergyKwh(readings[|readings| - 1]);
            EndEnergy(last, Some(start), t.totalKwh) == Some(EndKwh(t))
  {
  }

  /** Their ENERGY volumes sum to the register at the end minus meterStart, both rounded. */
  lemma EnergyIsRegisterDifference(t: Transaction, tariff: Tariff)
    requires FullyMetered(t)
    ensures SumPeriods(CdrOf(t, tariff).chargingPeriods, ENERGY)
         == RoundOcpi(EndKwh(t)) - RoundOcpi(t.meterStart.value.value)
  {
    var readings := Readings(t.meterValues);
    var start, end := StartOf(t).value, EndOf(t).value;
    var k := TrustedStartKwh(readings, Some(start));
    StartAccepted(t);
    EndAccepted(t);
    FullyMeteredInstants(readings, start, end, k);
    var instants := Instants(t.meterValues, Some(start), Some(end));
    EnergyTelescopes(instants, tariff.ocpiTariffId, k);
    CdrKeepsSums(t, tariff, ENERGY);
  }

  /** How far the end register lies above the rounded start plus the rounded total. */
  ghost function RoundingSpill(t: Transaction): real
    requires FullyMetered(t)
  {
    EndKwh(t) - RoundOcpi(t.meterStart.value.value) - RoundOcpi(t.totalKwh.value)
  }

  /** The ENERGY volumes of a fully metered session sum to total_energy up to one unit of
      0.0001 kWh, and exactly if and only if the residuals of meterStart and of the total
      (with what the tolerance adds) stay within half a unit. */
  lemma EnergyConserved(t: Transaction, tariff: Tariff)
    requires FullyMetered(t)
    ensures -0.0001 <= SumPeriods(CdrOf(t, tariff).chargingPeriods, ENERGY) - CdrOf(t, tariff).totalEnergy <= 0.0001
    ensures SumPeriods(CdrOf(t, tariff).chargingPeriods, ENERGY) == CdrOf(t, tariff).totalEnergy
       <==> -0.00005 <= RoundingSpill(t) < 0.00005
  {
    EnergyIsRegisterDifference(t, tariff);
    ThreeRoundings(t.meterStart.value.value, t.totalKwh.value, EndKwh(t));
  }

  lemma ThreeRoundings(start: real, total: real, end: real)
    requires 0.0 <= end - (start + total) <= ENERGY_TOLERANCE_KWH
    ensures -0.0001 <= RoundOcpi(end) - RoundOcpi(start) - RoundOcpi(total) <= 0.0001
    ensures RoundOcpi(end) - RoundOcpi(start) == RoundOcpi(total)
       <==> -0.00005 <= end - RoundOcpi(start) - RoundOcpi(total) < 0.00005
  {
    RoundError(end);
    RoundError(start);
    RoundError(total);
    var m, n := JsRound(start * 10000.0), JsRound(total * 10000.0);
    RoundCharacterised(end, m + n);
    assert Grid(m + n) == RoundOcpi(start) + RoundOcpi(total);
    GridGap(RoundOcpi(end), Grid(m + n));
  }

  /** With a meterStart of at most four decimals and no adjustment at the end, nothing is
      lost. */
  lemma EnergyExactFromGridStart(t: Transaction, tariff: Tariff)
    requires FullyMetered(t)
    requires OnGrid(t.meterStart.value.value)
    requires var start := t.meterStart.value.value;
             start + t.totalKwh.value >= LastKwh(Readings(t.meterValues), start)
    ensures SumPeriods(CdrOf(t, tariff).chargingPeriods, ENERGY) == CdrOf(t, tariff).totalEnergy
  {
    EnergyConserved(t, tariff);
    RoundOnGrid(t.meterStart.value.value);
    RoundError(t.totalKwh.value);
  }

  /** The periods do not always add up to the total: a session from 0.00005 kWh over
      0.00005 kWh reports 0.0001 kWh in total and 0.0000 kWh in its period. */
  lemma EnergyCanBeOneUnitOff(tariff: Tariff)
    ensures exists t: Transaction :: FullyMetered(t)
              && SumPeriods(CdrOf(t, tariff).chargingPeriods, ENERGY) == CdrOf(t, tariff).totalEnergy - 0.0001
  {
    var t := Transaction([], Some(0), 0, Some(3600000), Some(false), Some(Finite(0.00005)), Some(0.00005));
    assert Readings([]) == [];
    assert FullyMetered(t);
    EnergyIsRegisterDifference(t, tariff);
    RoundCharacterised(0.00005, 1);
    RoundCharacterised(0.0001, 1);
  }

  // ----------------------------------------------------------------------- the bill

  lemma JsRoundError(x: real)
    ensures -0.5 <= x - JsRound(x) as real < 0.5
  {
  }

  lemma ScaleNonNegative(p: real, d: real)
    requires p > 0.0 && d >= 0.0
    ensures p * d >= 0.0
  {
  }

  /** The total cost is the price of the total energy, in whole cents: the nearest number of
      them, half a cent counting up. */
  lemma CostIsPriceOfEnergy(totalKwh: real, tariff: Tariff, price: real)
    requires HasPrice(tariff, price) && price > 0.0
    ensures -0.005 <= price * totalKwh - TotalCost(totalKwh, tariff) < 0.005
    ensures exists n: int :: TotalCost(totalKwh, tariff) == Cents(n)
  {
    PriceOf(tariff, price);
    JsRoundError(totalKwh * price * 100.0);
    assert TotalCost(totalKwh, tariff) == CostAt(totalKwh, price) == Cents(JsRound(totalKwh * price * 100.0));
    assert totalKwh * price == price * totalKwh;
  }

  lemma PriceWithin(p: real, sum: real, kwh: real, cost: real)
    requires p > 0.0 && -0.0001 <= sum - kwh <= 0.0001 && -0.005 <= p * kwh - cost <= 0.005
    ensures -(0.005 + p * 0.0001) <= cost - p * sum <= 0.005 + p * 0.0001
  {
    var above, below := 0.0001 - (kwh - sum), 0.0001 + (kwh - sum);
    ScaleNonNegative(p, above);
    ScaleNonNegative(p, below);
    assert p * above == p * 0.0001 - p * kwh + p * sum;
    assert p * below == p * 0.0001 + p * kwh - p * sum;
  }

  /** The cost lies within half a cent, and the price of one unit of rounding, of the price of
      the energy in the periods. */
  ghost predicate BillsPeriods(cdr: Cdr, price: real) {
    -(0.005 + price * 0.0001)
    <= cdr.totalCost - price * SumPeriods(cdr.chargingPeriods, ENERGY)
    <= 0.005 + price * 0.0001
  }

  lemma BillOfCdr(cdr: Cdr, tariff: Tariff, price: real)
    requires HasPrice(tariff, price) && price > 0.0
    requires cdr.totalCost == TotalCost(cdr.totalEnergy, tariff)
    requires -0.0001 <= SumPeriods(cdr.chargingPeriods, ENERGY) - cdr.totalEnergy <= 0.0001
    ensures BillsPeriods(cdr, price)
  {
    CostIsPriceOfEnergy(cdr.totalEnergy, tariff, price);
    PriceWithin(price, SumPeriods(cdr.chargingPeriods, ENERGY), cdr.totalEnergy, cdr.totalCost);
  }

  /** The bill and the periods tell the same story for a fully metered session at a positive
      energy price. */
  lemma BillAgreesWithPeriods(t: Transaction, tariff: Tariff, price: real)
    requires FullyMetered(t) && HasPrice(tariff, price) && price > 0.0
    ensures BillsPeriods(CdrOf(t, tariff), price)
  {
    EnergyConserved(t, tariff);
    BillOfCdr(CdrOf(t, tariff), tariff, price);
  }

  /** No energy price above zero: nothing is billed whatever was charged. */
  lemma NothingBilledWithoutPrice(totalKwh: real, tariff: Tariff)
    requires forall price :: HasPrice(tariff, price) ==> price <= 0.0
    ensures TotalCost(totalKwh, tariff) == 0.0
  {
    if tariff.elements != [] {
      var components := tariff.elements[0];
      EnergyPriceIs(components);
      if EnergyPrice(components) > 0.0 {
        var k :| EnergyComponent(components, k);
        assert HasPrice(tariff, EnergyPrice(components));
      }
      if totalKwh == 0.0 {
        assert totalKwh * EnergyPrice(components) * 100.0 == 0.0;
        assert CostAt(totalKwh, EnergyPrice(components)) == 0.0;
      }
    }
  }

  // ------------------------------------------------------------------ sign of volumes

  /** Registers never go down, whichever readings carry one. */
  ghost predicate RegistersRise(readings: seq<MeterValue>) {
    forall i, j :: 0 <= i < j < |readings| && EnergyKwh(readings[i]).Some? && EnergyKwh(readings[j]).Some? ==>
                     EnergyKwh(readings[i]).value <= EnergyKwh(readings[j]).value
  }

  /** The volumes a period may carry: TIME never negative, ENERGY at least the bound. */
  ghost predicate VolumesAtLeast(dimensions: seq<CdrDimension>, energyBound: real) {
    forall d :: d in dimensions ==>
                  (d.kind == TIME ==> d.volume.Finite? && d.volume.value >= 0.0)
                  && (d.kind == ENERGY ==> d.volume.Finite? && d.volume.value >= energyBound)
  }

  lemma EnergyDimensionsAtLeast(current: Option<real>, previous: Option<real>, startKwh: Option<real>,
                                energyBound: real)
    requires current.Some? && previous.Some? ==> RoundOcpi(current.value) - RoundOcpi(previous.value) >= energyBound
    ensures VolumesAtLeast(EnergyDimensions(current, previous, startKwh), energyBound)
  {
    if current.Some? && previous.Some? {
      RoundDifference(current.value, previous.value);
    }
  }

  lemma DimensionsAtLeast(reading: MeterValue, previous: MeterValue, startKwh: Option<real>, energyBound: real)
    requires previous.timestamp <= reading.timestamp
    requires EnergyKwh(reading).Some? && EnergyKwh(previous).Some? ==>
               RoundOcpi(EnergyKwh(reading).value) - RoundOcpi(EnergyKwh(previous).value) >= energyBound
    ensures VolumesAtLeast(Dimensions(reading, previous, startKwh), energyBound)
  {
    RoundedHoursMonotone(previous.timestamp, reading.timestamp);
    TotalTimeIsDifference(previous.timestamp, reading.timestamp);
    var time := CdrDimension(TIME, Finite(TimeElapsed(reading, previous)));
    assert VolumesAtLeast([time], energyBound);
    SamplesCarryNoEnergyOrTime(reading.sampledValue);
    var samples := SampleDimensions(reading.sampledValue);
    EnergyDimensionsAtLeast(EnergyKwh(reading), EnergyKwh(previous), startKwh, energyBound);
    VolumesConcat(EnergyDimensions(EnergyKwh(reading), EnergyKwh(previous), startKwh), samples, energyBound);
    VolumesConcat(EnergyDimensions(EnergyKwh(reading), EnergyKwh(previous), startKwh) + samples, [time], energyBound);
  }

  lemma VolumesConcat(a: seq<CdrDimension>, b: seq<CdrDimension>, energyBound: real)
    requires VolumesAtLeast(a, energyBound) && VolumesAtLeast(b, energyBound)
    ensures VolumesAtLeast(a + b, energyBound)
  {
  }

  /** The rounded registers of two instants of a session: never falling, except that the
      first reading may lie below meterStart by the tolerance. */
  lemma InstantRegisters(readings: seq<MeterValue>, start: Option<SessionStart>, end: Option<SessionEnd>,
                         k: Option<real>, i: nat)
    requires k == TrustedStartKwh(readings, start)
    requires RegistersRise(readings)
    requires i + 1 < |WithEnd(WithStart(readings, start, k), end, k)|
    ensures var instants := WithEnd(WithStart(readings, start, k), end, k);
            EnergyKwh(instants[i]).Some? && EnergyKwh(instants[i + 1]).Some? ==>
              RoundOcpi(EnergyKwh(instants[i + 1]).value) - RoundOcpi(EnergyKwh(instants[i]).value)
              >= (if i == 0 then -0.0001 else 0.0)
  {
    var started := WithStart(readings, start, k);
    var instants := WithEnd(started, end, k);
    if EnergyKwh(instants[i]).Some? && EnergyKwh(instants[i + 1]).Some? {
      var a, b := EnergyKwh(instants[i]).value, EnergyKwh(instants[i + 1]).value;
      if i + 1 == |started| {
        BoundaryEnergy(end.value.timestamp, EndEnergy(EnergyKwh(started[i]), k, end.value.totalKwh));
      } else if StartsBefore(start, readings) && i == 0 {
        BoundaryEnergy(start.value.timestamp, k);
        assert started[1] == readings[0];
      } else {
        var shift := |started| - |readings|;
        assert instants[i] == readings[i - shift] && instants[i + 1] == readings[i + 1 - shift];
      }
      assert a <= b + ENERGY_TOLERANCE_KWH && (i > 0 ==> a <= b);
      RoundMonotone(a, if i > 0 then b else b + ENERGY_TOLERANCE_KWH);
      RoundTolerance(b);
    }
  }

  lemma RoundTolerance(b: real)
    ensures RoundOcpi(b + ENERGY_TOLERANCE_KWH) <= RoundOcpi(b) + 0.0001
  {
    RoundError(b);
    RoundError(b + ENERGY_TOLERANCE_KWH);
    GridGap(RoundOcpi(b + ENERGY_TOLERANCE_KWH), RoundOcpi(b));
  }

  /** With registers that never go down, no TIME volume and no ENERGY volume is negative, but
      that of the first period, which may fall to -0.0001 kWh. */
  lemma VolumesAreNotNegative(meterValues: seq<MeterValue>, tariffId: string, start: Option<SessionStart>,
                              end: Option<SessionEnd>, i: nat)
    requires RegistersRise(Readings(meterValues))
    requires i < |Periods(meterValues, tariffId, start, end)|
    ensures VolumesAtLeast(Periods(meterValues, tariffId, start, end)[i].dimensions, if i == 0 then -0.0001 else 0.0)
  {
    var readings := Readings(meterValues);
    var k := TrustedStartKwh(readings, start);
    var instants := Instants(meterValues, start, end);
    InstantsAscend(meterValues, start, end);
    assert instants[i].timestamp < instants[i + 1].timestamp;
    PeriodAt(instants, tariffId, k, i);
    InstantRegisters(readings, start, end, k, i);
    DimensionsAtLeast(instants[i + 1], instants[i], k, if i == 0 then -0.0001 else 0.0);
  }

  ghost predicate Carries(dimensions: seq<CdrDimension>, kind: DimensionType) {
    exists d :: d in dimensions && d.kind == kind
  }

  /** Which periods report which energies: ENERGY needs a register at both ends of the
      period, ENERGY_IMPORT one at its close and a trusted meterStart; so a rejected
      meterStart drops every ENERGY_IMPORT. */
  lemma EnergyReported(reading: MeterValue, previous: MeterValue, startKwh: Option<real>)
    ensures Carries(Dimensions(reading, previous, startKwh), ENERGY)
       <==> EnergyKwh(reading).Some? && EnergyKwh(previous).Some?
    ensures Carries(Dimensions(reading, previous, startKwh), ENERGY_IMPORT)
       <==> EnergyKwh(reading).Some? && startKwh.Some?
  {
    var energy := EnergyDimensions(EnergyKwh(reading), EnergyKwh(previous), startKwh);
    var samples := SampleDimensions(reading.sampledValue);
    var time := [CdrDimension(TIME, Finite(TimeElapsed(reading, previous)))];
    SamplesCarryNoEnergyOrTime(reading.sampledValue);
    EnergyDimensionsReported(EnergyKwh(reading), EnergyKwh(previous), startKwh);
    RestCarriesNothing(energy, samples, time, ENERGY);
    RestCarriesNothing(energy, samples, time, ENERGY_IMPORT);
  }

  lemma RestCarriesNothing(energy: seq<CdrDimension>, samples: seq<CdrDimension>, time: seq<CdrDimension>,
                           kind: DimensionType)
    requires !Carries(samples, kind) && !Carries(time, kind)
    ensures Carries(energy + samples + time, kind) <==> Carries(energy, kind)
  {
    if Carries(energy, kind) {
      var d :| d in energy && d.kind == kind;
      assert d in energy + samples + time;
    }
  }

  lemma EnergyDimensionsReported(current: Option<real>, previous: Option<real>, startKwh: Option<real>)
    ensures Carries(EnergyDimensions(current, previous, startKwh), ENERGY) <==> current.Some? && previous.Some?
    ensures Carries(EnergyDimensions(current, previous, startKwh), ENERGY_IMPORT) <==> current.Some? && startKwh.Some?
  {
    var ds := EnergyDimensions(current, previous, startKwh);
    if current.Some? && startKwh.Some? {
      assert ds[0] in ds && ds[0].kind == ENERGY_IMPORT;
    }
    if current.Some? && previous.Some? {
      assert ds[|ds| - 1] in ds && ds[|ds| - 1].kind == ENERGY;
    }
  }

  // ---------------------------------------------------- partly metered sessions

  /** The register of each reading, where it has one. */
  function Registers(readings: seq<MeterValue>): seq<Option<real>> {
    seq(|readings|, i requires 0 <= i < |readings| => EnergyKwh(readings[i]))
  }

  /** The last register there is. */
  function LastKnown(registers: seq<Option<real>>): Option<real> {
    if registers == [] then None
    else if registers[|registers| - 1].Some? then registers[|registers| - 1]
    else LastKnown(registers[..|registers| - 1])
  }

  /** Registers that never go down, nor below a first one. */
  ghost predicate RiseFrom(first: real, registers: seq<Option<real>>) {
    && (forall i :: 0 <= i < |registers| && registers[i].Some? ==> first <= registers[i].value)
    && (forall i, j :: 0 <= i < j < |registers| && registers[i].Some? && registers[j].Some? ==>
                         registers[i].value <= registers[j].value)
  }

  lemma {:induction false} LastKnownIndex(registers: seq<Option<real>>)
    ensures LastKnown(registers).Some? ==> LastKnown(registers) in registers
  {
    if registers != [] && registers[|registers| - 1].None? {
      LastKnownIndex(registers[..|registers| - 1]);
    }
  }

  /** What the last period reports is at most the rise of the last known register. */
  lemma LastRise(registers: seq<Option<real>>, first: real)
    requires |registers| >= 2 && RiseFrom(first, registers)
    ensures var n := |registers|;
            0.0 <= EnergyBetween(registers[n - 1], registers[n - 2])
                <= RiseOver(LastKnown(registers), first) - RiseOver(LastKnown(registers[..n - 1]), first)
  {
    var n := |registers|;
    LastKnownIndex(registers[..n - 1]);
    RiseStep(LastKnown(registers[..n - 1]), registers[n - 1], registers[n - 2], first);
  }

  /** Readings without a register cost the periods on both sides their ENERGY, so a partly
      metered session reports at most what its registers say was charged, and never more. */
  lemma {:induction false} EnergyNeverOverstated(instants: seq<MeterValue>, tariffId: string, startKwh: Option<real>,
                                                 first: real)
    requires RiseFrom(first, Registers(instants))
    ensures 0.0 <= SumPeriods(PeriodsBetween(instants, tariffId, startKwh), ENERGY)
                <= RiseOver(LastKnown(Registers(instants)), first)
  {
    if |instants| <= 1 {
      assert PeriodsBetween(instants, tariffId, startKwh) == [];
      LastKnownIndex(Registers(instants));
      RisePositive(LastKnown(Registers(instants)), first);
    } else {
      var n := |instants| - 1;
      RegistersPrefix(instants, n, first);
      EnergyNeverOverstated(instants[..n], tariffId, startKwh, first);
      LastPeriodEnergy(instants, tariffId, startKwh);
      LastRise(Registers(instants), first);
    }
  }

  lemma RegistersPrefix(instants: seq<MeterValue>, n: nat, first: real)
    requires n <= |instants| && RiseFrom(first, Registers(instants))
    ensures Registers(instants)[..n] == Registers(instants[..n]) && RiseFrom(first, Registers(instants[..n]))
  {
    assert Registers(instants)[..n] == Registers(instants[..n]);
    assert forall i :: 0 <= i < n ==> Registers(instants[..n])[i] == Registers(instants)[i];
  }

  lemma LastPeriodEnergy(instants: seq<MeterValue>, tariffId: string, startKwh: Option<real>)
    requires |instants| >= 2
    ensures var n := |instants|;
            SumPeriods(PeriodsBetween(instants, tariffId, startKwh), ENERGY)
            == SumPeriods(PeriodsBetween(instants[..n - 1], tariffId, startKwh), ENERGY)
               + EnergyBetween(Registers(instants)[n - 1], Registers(instants)[n - 2])
  {
    PeriodsBetweenLast(instants, tariffId, startKwh);
    DimensionsSum(instants[|instants| - 1], instants[|instants| - 2], startKwh);
    LastSum(PeriodsBetween(instants, tariffId, startKwh), ENERGY);
  }

  lemma LastSum(periods: seq<ChargingPeriod>, kind: DimensionType)
    requires periods != []
    ensures SumPeriods(periods, kind)
         == SumPeriods(periods[..|periods| - 1], kind) + SumDimensions(periods[|periods| - 1].dimensions, kind)
  {
  }

  /** What the registers say was charged since the first one. */
  function RiseOver(last: Option<real>, first: real): real {
    if last.Some? then RoundOcpi(last.value) - RoundOcpi(first) else 0.0
  }

  lemma RisePositive(last: Option<real>, first: real)
    requires last.Some? ==> first <= last.value
    ensures RiseOver(last, first) >= 0.0
  {
    if last.Some? {
      RoundMonotone(first, last.value);
    }
  }

  lemma RiseStep(before: Option<real>, last: Option<real>, previous: Option<real>, first: real)
    requires last.Some? ==> first <= last.value
    requires before.Some? && last.Some? ==> before.value <= last.value
    requires previous.Some? ==> before == previous
    ensures 0.0 <= EnergyBetween(last, previous)
                <= RiseOver(if last.Some? then last else before, first) - RiseOver(before, first)
  {
    if last.Some? {
      RisePositive(last, first);
      if before.Some? {
        RoundMonotone(before.value, last.value);
      }
    }
  }

  // ------------------------------------------------- never overstated, for a whole CDR

  /** Every known register lies between the two. */
  ghost predicate Between(lo: real, registers: seq<Option<real>>, hi: real) {
    forall i :: 0 <= i < |registers| && registers[i].Some? ==> lo <= registers[i].value <= hi
  }

  ghost predicate Rising(registers: seq<Option<real>>) {
    forall i, j :: 0 <= i < j < |registers| && registers[i].Some? && registers[j].Some? ==>
                     registers[i].value <= registers[j].value
  }

  lemma RisingSum(instants: seq<MeterValue>, tariffId: string, startKwh: Option<real>, lo: real, hi: real)
    requires Rising(Registers(instants)) && Between(lo, Registers(instants), hi) && lo <= hi
    ensures 0.0 <= SumPeriods(PeriodsBetween(instants, tariffId, startKwh), ENERGY) <= RoundOcpi(hi) - RoundOcpi(lo)
  {
    EnergyNeverOverstated(instants, tariffId, startKwh, lo);
    LastKnownIndex(Registers(instants));
    RiseBelow(LastKnown(Registers(instants)), lo, hi);
  }

  lemma RiseBelow(last: Option<real>, lo: real, hi: real)
    requires lo <= hi && (last.Some? ==> last.value <= hi)
    ensures RiseOver(last, lo) <= RoundOcpi(hi) - RoundOcpi(lo)
  {
    RoundMonotone(lo, hi);
    if last.Some? {
      RoundMonotone(last.value, hi);
    }
  }

  lemma {:induction false} SumPeriodsFirst(first: ChargingPeriod, rest: seq<ChargingPeriod>, kind: DimensionType)
    ensures SumPeriods([first] + rest, kind) == SumDimensions(first.dimensions, kind) + SumPeriods(rest, kind)
  {
    if rest == [] {
      assert [first] + rest == [first] && [first][..0] == [];
    } else {
      SumPeriodsFirst(first, rest[..|rest| - 1], kind);
      assert ([first] + rest)[..|rest|] == [first] + rest[..|rest| - 1];
    }
  }

  lemma FirstPeriodEnergy(instants: seq<MeterValue>, tariffId: string, startKwh: Option<real>)
    requires |instants| >= 2
    ensures SumPeriods(PeriodsBetween(instants, tariffId, startKwh), ENERGY)
         == EnergyBetween(Registers(instants)[1], Registers(instants)[0])
            + SumPeriods(PeriodsBetween(instants[1..], tariffId, startKwh), ENERGY)
  {
    var first := PeriodFrom(instants[0], instants[1], tariffId, startKwh);
    FirstPeriod(instants, tariffId, startKwh);
    SumPeriodsFirst(first, PeriodsBetween(instants[1..], tariffId, startKwh), ENERGY);
    DimensionsSum(instants[1], instants[0], startKwh);
  }

  lemma FirstPeriod(instants: seq<MeterValue>, tariffId: string, startKwh: Option<real>)
    requires |instants| >= 2
    ensures PeriodsBetween(instants, tariffId, startKwh)
         == [PeriodFrom(instants[0], instants[1], tariffId, startKwh)]
            + PeriodsBetween(instants[1..], tariffId, startKwh)
  {
    var all, rest := PeriodsBetween(instants, tariffId, startKwh), PeriodsBetween(instants[1..], tariffId, startKwh);
    PeriodAt(instants, tariffId, startKwh, 0);
    forall i | 0 <= i < |rest| ensures all[i + 1] == rest[i] {
      PeriodAt(instants, tariffId, startKwh, i + 1);
      PeriodAt(instants[1..], tariffId, startKwh, i);
    }
    HeadAndRest(all, rest);
  }

  lemma HeadAndRest(all: seq<ChargingPeriod>, rest: seq<ChargingPeriod>)
    requires |all| == |rest| + 1 && forall i :: 0 <= i < |rest| ==> all[i + 1] == rest[i]
    ensures all == [all[0]] + rest
  {
  }

  /** A first instant that may lie above the next one by the tolerance, before instants with
      rising registers. */
  lemma FirstMayBeAbove(instants: seq<MeterValue>, tariffId: string, startKwh: Option<real>, lo: real, hi: real)
    requires |instants| >= 2 && lo <= hi
    requires var registers := Registers(instants);
             && Rising(registers[1..]) && Between(lo, registers, hi)
             && (registers[0].Some? && registers[1].Some? ==>
                   registers[0].value <= registers[1].value + ENERGY_TOLERANCE_KWH)
    ensures -0.0001 <= SumPeriods(PeriodsBetween(instants, tariffId, startKwh), ENERGY) <= RoundOcpi(hi) - RoundOcpi(lo)
  {
    var registers := Registers(instants);
    assert Registers(instants[1..]) == registers[1..];
    FirstPeriodEnergy(instants, tariffId, startKwh);
    var low := if registers[0].Some? && registers[1].Some? then registers[1].value else lo;
    BetweenRest(registers, lo, low, hi);
    RisingSum(instants[1..], tariffId, startKwh, low, hi);
    FirstStep(registers[0], registers[1], lo);
  }

  lemma BetweenRest(registers: seq<Option<real>>, lo: real, low: real, hi: real)
    requires |registers| >= 2 && Rising(registers[1..]) && Between(lo, registers, hi) && lo <= hi
    requires low == if registers[0].Some? && registers[1].Some? then registers[1].value else lo
    ensures Between(low, registers[1..], hi) && low <= hi
  {
    var rest := registers[1..];
    forall i | 0 <= i < |rest| && rest[i].Some? ensures low <= rest[i].value <= hi {
      assert rest[i] == registers[i + 1] && rest[0] == registers[1];
      assert i > 0 && rest[0].Some? ==> rest[0].value <= rest[i].value;
    }
  }

  lemma FirstStep(first: Option<real>, second: Option<real>, lo: real)
    requires first.Some? ==> lo <= first.value
    requires first.Some? && second.Some? ==> first.value <= second.value + ENERGY_TOLERANCE_KWH
    ensures -0.0001 <= EnergyBetween(second, first)
    ensures first.Some? && second.Some? ==> EnergyBetween(second, first) <= RoundOcpi(second.value) - RoundOcpi(lo)
  {
    if first.Some? && second.Some? {
      RoundMonotone(first.value, second.value + ENERGY_TOLERANCE_KWH);
      RoundTolerance(second.value);
      RoundMonotone(lo, first.value);
    }
  }

  /** The instants of a session without an end that closes a reading of unknown register: such
      an end adds a period without ENERGY. */
  function Metered(started: seq<MeterValue>, end: Option<SessionEnd>, k: Option<real>): seq<MeterValue> {
    if started != [] && EnergyKwh(started[|started| - 1]).None? then started else WithEnd(started, end, k)
  }

  lemma MeteredSum(started: seq<MeterValue>, end: Option<SessionEnd>, k: Option<real>, tariffId: string)
    ensures SumPeriods(PeriodsBetween(WithEnd(started, end, k), tariffId, k), ENERGY)
         == SumPeriods(PeriodsBetween(Metered(started, end, k), tariffId, k), ENERGY)
  {
    var instants := WithEnd(started, end, k);
    if Metered(started, end, k) != instants {
      assert instants[..|instants| - 1] == started;
      LastPeriodEnergy(instants, tariffId, k);
      assert Registers(instants)[|instants| - 2].None?;
    }
  }

  /** The registers of a session's instants: the start's, if there is one, and then registers
      that rise. */
  lemma MeteredRegisters(readings: seq<MeterValue>, start: Option<SessionStart>, end: Option<SessionEnd>,
                         k: Option<real>)
    requires k == TrustedStartKwh(readings, start) && RegistersRise(readings)
    ensures var registers := Registers(Metered(WithStart(readings, start, k), end, k));
            if StartsBefore(start, readings) then
              |registers| >= 1 && Rising(registers[1..])
              && (|registers| >= 2 && registers[0].Some? && registers[1].Some? ==>
                    registers[0].value <= registers[1].value + ENERGY_TOLERANCE_KWH)
            else Rising(registers)
  {
    var started := WithStart(readings, start, k);
    var registers := Registers(Metered(started, end, k));
    RisingRest(readings, started, end, k);
    if |started| > |readings| {
      BoundaryEnergy(start.value.timestamp, k);
      if |registers| >= 2 {
        if readings == [] {
          EndAboveStart(start.value.timestamp, end, k);
        }
        StartBelow(readings, start, k, registers);
      }
    } else {
      assert registers[0..] == registers;
    }
  }

  lemma EndAboveStart(startTime: int, end: Option<SessionEnd>, k: Option<real>)
    requires var instants := Metered([BoundaryReading(startTime, k)], end, k); |instants| >= 2
    ensures var last := EnergyKwh(Metered([BoundaryReading(startTime, k)], end, k)[1]);
            k.Some? && last.Some? ==> k.value <= last.value
  {
    BoundaryEnergy(startTime, k);
    BoundaryEnergy(end.value.timestamp, EndEnergy(k, k, end.value.totalKwh));
  }

  /** Without the start, the registers of the instants are those of the readings, and perhaps that
      of the end. */
  lemma RisingRest(readings: seq<MeterValue>, started: seq<MeterValue>, end: Option<SessionEnd>, k: Option<real>)
    requires RegistersRise(readings) && |started| >= |readings| && started[|started| - |readings|..] == readings
    ensures |Metered(started, end, k)| >= |started|
    ensures var rest := Registers(Metered(started, end, k))[|started| - |readings|..];
            Rising(rest) && Registers(readings) <= rest
  {
    var registers := Registers(Metered(started, end, k));
    var shift := |started| - |readings|;
    assert Rising(Registers(readings));
    if Metered(started, end, k) == started {
      assert registers[shift..] == Registers(readings);
    } else {
      var endKwh := EndEnergy(EnergyKwh(started[|started| - 1]), k, end.value.totalKwh);
      BoundaryEnergy(end.value.timestamp, endKwh);
      assert registers[shift..] == Registers(readings) + [endKwh];
      RisingAppend(Registers(readings), endKwh);
    }
  }

  lemma RisingAppend(registers: seq<Option<real>>, last: Option<real>)
    requires Rising(registers)
    requires registers != [] && registers[|registers| - 1].Some? && last.Some? ==>
               registers[|registers| - 1].value <= last.value
    requires registers != [] && last.Some? ==> registers[|registers| - 1].Some?
    ensures Rising(registers + [last])
  {
  }

  lemma StartBelow(readings: seq<MeterValue>, start: Option<SessionStart>, k: Option<real>,
                   registers: seq<Option<real>>)
    requires k == TrustedStartKwh(readings, start) && |registers| >= 2 && registers[0] == k
    requires readings != [] ==> registers[1] == EnergyKwh(readings[0])
    requires readings == [] && k.Some? && registers[1].Some? ==> k.value <= registers[1].value
    ensures registers[0].Some? && registers[1].Some? ==> registers[0].value <= registers[1].value + ENERGY_TOLERANCE_KWH
  {
  }

  /** For every transaction whose registers never fall, whichever readings carry one: the ENERGY
      volumes of its CDR sum to at most the rounded rise from the lowest register of the session
      to the highest, boundaries included, and to no less than minus the tolerance's unit. */
  lemma CdrEnergyNeverOverstated(t: Transaction, tariff: Tariff, lo: real, hi: real)
    requires RegistersRise(Readings(t.meterValues)) && lo <= hi
    requires Between(lo, Registers(Instants(t.meterValues, StartOf(t), EndOf(t))), hi)
    ensures -0.0001 <= SumPeriods(CdrOf(t, tariff).chargingPeriods, ENERGY) <= RoundOcpi(hi) - RoundOcpi(lo)
  {
    var readings, start, end := Readings(t.meterValues), StartOf(t), EndOf(t);
    var k := TrustedStartKwh(readings, start);
    var started := WithStart(readings, start, k);
    var instants := Metered(started, end, k);
    CdrKeepsSums(t, tariff, ENERGY);
    MeteredSum(started, end, k, tariff.ocpiTariffId);
    MeteredRegisters(readings, start, end, k);
    BetweenMetered(started, end, k, lo, hi);
    if StartsBefore(start, readings) && |instants| >= 2 {
      FirstMayBeAbove(instants, tariff.ocpiTariffId, k, lo, hi);
    } else {
      RisingSum(instants, tariff.ocpiTariffId, k, lo, hi);
    }
  }

  lemma BetweenMetered(started: seq<MeterValue>, end: Option<SessionEnd>, k: Option<real>, lo: real, hi: real)
    requires Between(lo, Registers(WithEnd(started, end, k)), hi)
    ensures Between(lo, Registers(Metered(started, end, k)), hi)
  {
    var all, some := Registers(WithEnd(started, end, k)), Registers(Metered(started, end, k));
    assert forall i :: 0 <= i < |some| ==> some[i] == all[i];
  }
}
