/**
 Meter readings: the energy register of a reading, and the merge of readings that share a
 timestamp (SessionMapper). Instants are milliseconds since the epoch; energies are kWh.
 */
module MeterReadings {
  import opened Numbers
  import opened SortedSets

  datatype UnitOfMeasure = UnitOfMeasure(unit: Option<string>, multiplier: Option<int>)

  datatype SampledValue = SampledValue(
    value: Number,
    measurand: Option<string>,
    phase: Option<string>,
    location: Option<string>,
    unitOfMeasure: Option<UnitOfMeasure>)

  datatype MeterValue = MeterValue(timestamp: int, sampledValue: seq<SampledValue>)

  const ENERGY_REGISTER := "Energy.Active.Import.Register"
  const CURRENT_IMPORT := "Current.Import"
  const SOC := "SoC"
  const PHASES_TO_GROUND: set<string> := {"L1", "L2", "L3"}
  const PHASES_TO_NEUTRAL: set<string> := {"L1-N", "L2-N", "L3-N"}

  // ---------------------------------------------------------------- the energy register

  function PowerOfTen(exponent: int): (p: real)
    ensures p > 0.0
    decreases if exponent < 0 then -exponent else exponent
  {
    if exponent == 0 then 1.0
    else if exponent > 0 then 10.0 * PowerOfTen(exponent - 1)
    else PowerOfTen(exponent + 1) / 10.0
  }

  function Scaled(value: real, exponent: int): real {
    value * PowerOfTen(exponent)
  }

  function UpperCase(s: string): string {
    seq(|s|, i requires 0 <= i < |s| => Upper(s[i]))
  }

  function Upper(c: char): char {
    if 'a' <= c <= 'z' then (c as int - 32) as char else c
  }

  /** The power of ten that turns a sample's unit and multiplier into kWh; no unit means Wh,
      and other units are no energy. */
  function KwhExponent(unitOfMeasure: Option<UnitOfMeasure>): Option<int> {
    var multiplier := match unitOfMeasure
      case Some(UnitOfMeasure(_, Some(m))) => m
      case _ => 0;
    match unitOfMeasure
    case Some(UnitOfMeasure(Some(unit), _)) =>
      if UpperCase(unit) == "KWH" then Some(multiplier)
      else if UpperCase(unit) == "WH" then Some(multiplier - 3)
      else None
    case _ => Some(multiplier - 3)
  }

  /** toKwh: anything that is not an energy, or not a number, has no register. */
  function ToKwh(sample: SampledValue): Option<real> {
    var exponent := KwhExponent(sample.unitOfMeasure);
    if sample.value.NonFinite? || exponent.None? then None
    else Some(Scaled(sample.value.value, exponent.value))
  }

  /** The spellings of the two units of energy. */
  predicate IsKwh(unit: string) {
    |unit| == 3 && unit[0] in {'k', 'K'} && unit[1] in {'w', 'W'} && unit[2] in {'h', 'H'}
  }

  predicate IsWh(unit: string) {
    |unit| == 2 && unit[0] in {'w', 'W'} && unit[1] in {'h', 'H'}
  }

  lemma Spellings(unit: string)
    ensures UpperCase(unit) == "KWH" <==> IsKwh(unit)
    ensures UpperCase(unit) == "WH" <==> IsWh(unit)
  {
    var upper := UpperCase(unit);
    assert |upper| == |unit| && forall i :: 0 <= i < |unit| ==> upper[i] == Upper(unit[i]);
    assert upper == "KWH" <==> |upper| == 3 && upper[0] == 'K' && upper[1] == 'W' && upper[2] == 'H';
    assert upper == "WH" <==> |upper| == 2 && upper[0] == 'W' && upper[1] == 'H';
  }

  /** What a register is worth: a number of kWh is that number; one of Wh, or without a unit, a
      thousandth of it; and each step of the multiplier is a factor of ten. */
  lemma KwhOf(sample: SampledValue, v: real, unit: string, m: int)
    requires sample.value == Finite(v)
    ensures IsKwh(unit) ==> ToKwh(sample.(unitOfMeasure := Some(UnitOfMeasure(Some(unit), Some(0))))) == Some(v)
    ensures IsWh(unit) ==> ToKwh(sample.(unitOfMeasure := Some(UnitOfMeasure(Some(unit), Some(0))))) == Some(v / 1000.0)
    ensures IsKwh(unit) || IsWh(unit) ==>
              var kwh := ToKwh(sample.(unitOfMeasure := Some(UnitOfMeasure(Some(unit), Some(m)))));
              var times10 := ToKwh(sample.(unitOfMeasure := Some(UnitOfMeasure(Some(unit), Some(m + 1)))));
              kwh.Some? && times10 == Some(10.0 * kwh.value)
    ensures ToKwh(sample.(unitOfMeasure := Some(UnitOfMeasure(None, None)))) == Some(v / 1000.0)
    ensures ToKwh(sample.(unitOfMeasure := None)) == Some(v / 1000.0)
    ensures ToKwh(sample.(unitOfMeasure := Some(UnitOfMeasure(Some(unit), None))))
         == ToKwh(sample.(unitOfMeasure := Some(UnitOfMeasure(Some(unit), Some(0)))))
  {
    Spellings(unit);
    ScaledBy(v, -3);
    ScaledBy(v, m);
    ScaledBy(v, m - 3);
  }

  lemma ScaledBy(v: real, m: int)
    ensures Scaled(v, m + 1) == 10.0 * Scaled(v, m)
    ensures Scaled(v, 0) == v && Scaled(v, -3) == v / 1000.0
  {
    PowerNext(m);
    assert PowerOfTen(0) == 1.0;
    assert PowerOfTen(-3) == PowerOfTen(-2) / 10.0 && PowerOfTen(-2) == PowerOfTen(-1) / 10.0 == 0.01;
    assert v * (10.0 * PowerOfTen(m)) == 10.0 * (v * PowerOfTen(m));
  }

  lemma PowerNext(m: int)
    ensures PowerOfTen(m + 1) == 10.0 * PowerOfTen(m)
  {
    if m < 0 {
      assert PowerOfTen(m) == PowerOfTen(m + 1) / 10.0;
    }
  }

  /** A register means the same in every way of writing it: in kWh, or in Wh or without a unit
      with three more powers of ten. No other unit, in any spelling, is an energy. */
  lemma UnitsAgree(sample: SampledValue, unit: string, m: int)
    ensures var inKwh := ToKwh(sample.(unitOfMeasure := Some(UnitOfMeasure(Some("kWh"), Some(m)))));
            && inKwh == ToKwh(sample.(unitOfMeasure := Some(UnitOfMeasure(Some("Wh"), Some(m + 3)))))
            && inKwh == ToKwh(sample.(unitOfMeasure := Some(UnitOfMeasure(None, Some(m + 3)))))
            && (inKwh.Some? <==> sample.value.Finite?)
    ensures ToKwh(sample.(unitOfMeasure := Some(UnitOfMeasure(Some(unit), Some(m))))).Some?
       <==> sample.value.Finite? && (IsKwh(unit) || IsWh(unit))
  {
    Spellings(unit);
    assert UpperCase("kWh") == "KWH" && UpperCase("Wh") == "WH" != "KWH";
    assert KwhExponent(Some(UnitOfMeasure(Some("kWh"), Some(m)))) == Some(m);
    assert KwhExponent(Some(UnitOfMeasure(Some("Wh"), Some(m + 3)))) == Some(m);
  }

  /** JavaScript's falsy test on an optional string. */
  predicate Missing(text: Option<string>) {
    text.None? || text.value == ""
  }

  predicate IsEnergyRegister(sample: SampledValue) {
    Missing(sample.measurand) || sample.measurand.value == ENERGY_REGISTER
  }

  predicate IsTotalRegister(sample: SampledValue) {
    IsEnergyRegister(sample) && Missing(sample.phase)
  }

  predicate IsPhaseRegister(sample: SampledValue, phases: set<string>) {
    IsEnergyRegister(sample) && sample.phase.Some? && sample.phase.value in phases
  }

  /** Which samples are looked at: those without a measurand or of the energy register; without a
      phase for the total, on one of the phases for their sum. */
  lemma RegistersExactly(sample: SampledValue, phases: set<string>)
    ensures var energy := sample.measurand == None || sample.measurand == Some("")
                          || sample.measurand == Some("Energy.Active.Import.Register");
            && (IsTotalRegister(sample) <==> energy && (sample.phase == None || sample.phase == Some("")))
            && (IsPhaseRegister(sample, phases) <==> energy && sample.phase.Some? && sample.phase.value in phases)
  {
  }

  /** The first register without a phase, whatever its unit. */
  function TotalRegister(samples: seq<SampledValue>): Option<SampledValue> {
    if samples == [] then None
    else if IsTotalRegister(samples[0]) then Some(samples[0])
    else TotalRegister(samples[1..])
  }

  /** The sum of the usable registers of a phase group, if there is one. */
  function PhaseSum(samples: seq<SampledValue>, phases: set<string>): Option<real> {
    if samples == [] then None
    else
      var rest := PhaseSum(samples[1..], phases);
      if IsPhaseRegister(samples[0], phases) && ToKwh(samples[0]).Some? then
        var kwh := ToKwh(samples[0]).value;
        if rest.Some? then Some(kwh + rest.value) else Some(kwh)
      else rest
  }

  /** getEnergyKwh. */
  function EnergyKwh(reading: MeterValue): Option<real> {
    var total := TotalRegister(reading.sampledValue);
    if total.Some? && ToKwh(total.value).Some? then ToKwh(total.value)
    else
      var ground := PhaseSum(reading.sampledValue, PHASES_TO_GROUND);
      if ground.Some? then ground
      else PhaseSum(reading.sampledValue, PHASES_TO_NEUTRAL)
  }

  lemma {:induction false} TotalRegisterIsFirst(samples: seq<SampledValue>, k: nat)
    requires k < |samples| && IsTotalRegister(samples[k])
    requires forall i :: 0 <= i < k ==> !IsTotalRegister(samples[i])
    ensures TotalRegister(samples) == Some(samples[k])
  {
    if k > 0 {
      TotalRegisterIsFirst(samples[1..], k - 1);
    }
  }

  lemma {:induction false} PhaseSumExists(samples: seq<SampledValue>, phases: set<string>)
    ensures PhaseSum(samples, phases).Some?
       <==> exists s :: s in samples && IsPhaseRegister(s, phases) && ToKwh(s).Some?
  {
    if samples != [] {
      PhaseSumExists(samples[1..], phases);
      assert samples == [samples[0]] + samples[1..];
    }
  }

  /** The registers of a phase group are added up: one more sample adds its register if it is of an
      energy, on one of the phases, and usable. */
  lemma {:induction false} PhasesAddUp(samples: seq<SampledValue>, sample: SampledValue, phases: set<string>)
    ensures PhaseSum([], phases) == None
    ensures var sum, kwh := PhaseSum(samples, phases), ToKwh(sample);
            PhaseSum(samples + [sample], phases)
            == if IsPhaseRegister(sample, phases) && kwh.Some?
               then Some((if sum.Some? then sum.value else 0.0) + kwh.value) else sum
  {
    if samples == [] {
      assert samples + [sample] == [sample] && [sample][1..] == [];
    } else {
      PhasesAddUp(samples[1..], sample, phases);
      assert (samples + [sample])[1..] == samples[1..] + [sample];
    }
  }

  /** Without a usable register for all phases, it is the sum of those to ground, and without one
      of these, of those to neutral. */
  lemma EnergyKwhOfPhases(reading: MeterValue)
    requires forall k :: 0 <= k < |reading.sampledValue| && IsTotalRegister(reading.sampledValue[k])
                         && (forall i :: 0 <= i < k ==> !IsTotalRegister(reading.sampledValue[i])) ==>
                           ToKwh(reading.sampledValue[k]).None?
    ensures var ground := PhaseSum(reading.sampledValue, {"L1", "L2", "L3"});
            EnergyKwh(reading)
            == if ground.Some? then ground else PhaseSum(reading.sampledValue, {"L1-N", "L2-N", "L3-N"})
  {
    TotalRegisterFound(reading.sampledValue);
  }

  lemma {:induction false} TotalRegisterFound(samples: seq<SampledValue>)
    ensures TotalRegister(samples).Some? ==>
              exists k :: 0 <= k < |samples| && IsTotalRegister(samples[k])
                          && TotalRegister(samples) == Some(samples[k])
                          && forall i :: 0 <= i < k ==> !IsTotalRegister(samples[i])
  {
    if samples != [] && !IsTotalRegister(samples[0]) && TotalRegister(samples).Some? {
      TotalRegisterFound(samples[1..]);
      var k :| 0 <= k < |samples[1..]| && IsTotalRegister(samples[1..][k])
               && TotalRegister(samples) == Some(samples[1..][k])
               && forall i :: 0 <= i < k ==> !IsTotalRegister(samples[1..][i]);
      assert samples[k + 1] == samples[1..][k];
      assert forall i :: 0 < i <= k ==> samples[i] == samples[1..][i - 1];
    }
  }

  lemma {:induction false} TotalRegisterMember(samples: seq<SampledValue>)
    ensures TotalRegister(samples).Some? ==>
              TotalRegister(samples).value in samples && IsTotalRegister(TotalRegister(samples).value)
    ensures TotalRegister(samples).None? <==> forall s :: s in samples ==> !IsTotalRegister(s)
  {
    if samples != [] {
      TotalRegisterMember(samples[1..]);
      assert samples == [samples[0]] + samples[1..];
    }
  }

  /** Which readings carry a register: those whose first unphased register is usable, or
      that have a usable register of either phase group. A usable unphased register that is
      not the first one is not looked at. */
  lemma EnergyKwhKnown(reading: MeterValue)
    ensures EnergyKwh(reading).Some? <==>
            || (TotalRegister(reading.sampledValue).Some? && ToKwh(TotalRegister(reading.sampledValue).value).Some?)
            || (exists s :: s in reading.sampledValue && ToKwh(s).Some?
                  && (IsPhaseRegister(s, PHASES_TO_GROUND) || IsPhaseRegister(s, PHASES_TO_NEUTRAL)))
  {
    PhaseSumExists(reading.sampledValue, PHASES_TO_GROUND);
    PhaseSumExists(reading.sampledValue, PHASES_TO_NEUTRAL);
  }

  /** The station's total wins over its phases wherever it stands among the samples. */
  lemma EnergyKwhPrefersTotal(reading: MeterValue, k: nat)
    requires k < |reading.sampledValue| && IsTotalRegister(reading.sampledValue[k])
    requires forall i :: 0 <= i < k ==> !IsTotalRegister(reading.sampledValue[i])
    requires ToKwh(reading.sampledValue[k]).Some?
    ensures EnergyKwh(reading) == ToKwh(reading.sampledValue[k])
  {
    TotalRegisterIsFirst(reading.sampledValue, k);
  }

  // ------------------------------------------------------------- merging by timestamp

  predicate SameSample(a: SampledValue, b: SampledValue) {
    a.measurand == b.measurand && a.phase == b.phase && a.location == b.location
  }

  predicate AlreadyMerged(merged: seq<SampledValue>, sample: SampledValue) {
    exists existing :: existing in merged && SameSample(existing, sample)
  }

  function AddSample(merged: seq<SampledValue>, sample: SampledValue): seq<SampledValue> {
    if AlreadyMerged(merged, sample) then merged else merged + [sample]
  }

  function AddSamples(merged: seq<SampledValue>, samples: seq<SampledValue>): seq<SampledValue> {
    if samples == [] then merged
    else AddSample(AddSamples(merged, samples[..|samples| - 1]), samples[|samples| - 1])
  }

  /** A sample of a later reading is added unless there is one of its measurand, phase and location. */
  lemma SampleAddedExactly(merged: seq<SampledValue>, sample: SampledValue)
    ensures AddSample(merged, sample)
         == if exists e :: e in merged && (e.measurand, e.phase, e.location)
                                          == (sample.measurand, sample.phase, sample.location)
            then merged else merged + [sample]
  {
    if e :| e in merged && (e.measurand, e.phase, e.location) == (sample.measurand, sample.phase, sample.location) {
      assert SameSample(e, sample);
    }
  }

  type ByTimestamp = map<int, seq<SampledValue>>

  function MergeOne(byTimestamp: ByTimestamp, reading: MeterValue): ByTimestamp {
    if reading.timestamp in byTimestamp
    then byTimestamp[reading.timestamp := AddSamples(byTimestamp[reading.timestamp], reading.sampledValue)]
    else byTimestamp[reading.timestamp := reading.sampledValue]
  }

  /** The readings of a session by timestamp, merged in the order they arrived. */
  function Merge(readings: seq<MeterValue>): ByTimestamp {
    if readings == [] then map[]
    else MergeOne(Merge(readings[..|readings| - 1]), readings[|readings| - 1])
  }

  /** mergeMeterValuesByTimestamp: the merged readings in time order. */
  function Readings(meterValues: seq<MeterValue>): (rs: seq<MeterValue>) {
    var byTimestamp := Merge(meterValues);
    InOrder(byTimestamp, Sorted(byTimestamp.Keys))
  }

  function InOrder(byTimestamp: ByTimestamp, ts: seq<int>): (rs: seq<MeterValue>)
    requires forall i :: 0 <= i < |ts| ==> ts[i] in byTimestamp
  {
    seq(|ts|, i requires 0 <= i < |ts| => MeterValue(ts[i], byTimestamp[ts[i]]))
  }

  /** The method form: the nested loops fill a map keyed by instant, whose entries are then
      sorted. */
  method MergeMeterValuesByTimestamp(meterValues: seq<MeterValue>) returns (readings: seq<MeterValue>)
    ensures readings == Readings(meterValues)
  {
    var byTimestamp: ByTimestamp := map[];
    for i := 0 to |meterValues|
      invariant byTimestamp == Merge(meterValues[..i])
    {
      var meterValue := meterValues[i];
      assert meterValues[..i + 1][..i] == meterValues[..i];
      if meterValue.timestamp !in byTimestamp {
        byTimestamp := byTimestamp[meterValue.timestamp := meterValue.sampledValue];
      } else {
        var merged := byTimestamp[meterValue.timestamp];
        for k := 0 to |meterValue.sampledValue|
          invariant merged == AddSamples(byTimestamp[meterValue.timestamp], meterValue.sampledValue[..k])
        {
          assert meterValue.sampledValue[..k + 1][..k] == meterValue.sampledValue[..k];
          var sampledValue := meterValue.sampledValue[k];
          var alreadyMerged := exists existing :: existing in merged && SameSample(existing, sampledValue);
          if !alreadyMerged {
            merged := merged + [meterValue.sampledValue[k]];
          }
        }
        assert meterValue.sampledValue[..|meterValue.sampledValue|] == meterValue.sampledValue;
        byTimestamp := byTimestamp[meterValue.timestamp := merged];
      }
    }
    assert meterValues[..|meterValues|] == meterValues;
    readings := InOrder(byTimestamp, Sorted(byTimestamp.Keys));
  }

  // ------------------------------------------------------- what the merge promises

  ghost predicate TimesAscend(readings: seq<MeterValue>) {
    forall i, j :: 0 <= i < j < |readings| ==> readings[i].timestamp < readings[j].timestamp
  }

  ghost predicate HasTime(readings: seq<MeterValue>, t: int) {
    exists r :: r in readings && r.timestamp == t
  }

  lemma {:induction false} MergeKeys(meterValues: seq<MeterValue>)
    ensures forall t :: t in Merge(meterValues) <==> HasTime(meterValues, t)
  {
    if meterValues != [] {
      var n := |meterValues| - 1;
      MergeKeys(meterValues[..n]);
      assert meterValues == meterValues[..n] + [meterValues[n]];
      forall t ensures t in Merge(meterValues) <==> HasTime(meterValues, t) {
        assert HasTime(meterValues, t) <==> HasTime(meterValues[..n], t) || meterValues[n].timestamp == t;
      }
    }
  }

  /** One reading per instant, in strictly increasing time order, and no instant gained or
      lost. */
  lemma ReadingsTimes(meterValues: seq<MeterValue>)
    ensures TimesAscend(Readings(meterValues))
    ensures forall t :: HasTime(Readings(meterValues), t) <==> HasTime(meterValues, t)
  {
    MergeKeys(meterValues);
    var rs, ts := Readings(meterValues), Sorted(Merge(meterValues).Keys);
    forall t ensures HasTime(rs, t) <==> HasTime(meterValues, t) {
      if HasTime(meterValues, t) {
        assert t in ts;
        var i :| 0 <= i < |ts| && ts[i] == t;
        assert rs[i] in rs && rs[i].timestamp == t;
      }
    }
  }

  /** The reading of an instant holds the merged samples of that instant. */
  lemma ReadingsSamples(meterValues: seq<MeterValue>, r: MeterValue)
    ensures r in Readings(meterValues)
       <==> r.timestamp in Merge(meterValues) && r.sampledValue == Merge(meterValues)[r.timestamp]
  {
    var m, ts := Merge(meterValues), Sorted(Merge(meterValues).Keys);
    if r.timestamp in m && r.sampledValue == m[r.timestamp] {
      assert r.timestamp in ts;
      var i :| 0 <= i < |ts| && ts[i] == r.timestamp;
      assert Readings(meterValues)[i] == r;
    }
  }

  // -- repeated readings

  lemma {:induction false} AddSamplesKeeps(merged: seq<SampledValue>, samples: seq<SampledValue>)
    ensures merged <= AddSamples(merged, samples)
    ensures forall s :: s in samples ==> AlreadyMerged(AddSamples(merged, samples), s)
  {
    if samples != [] {
      var n := |samples| - 1;
      AddSamplesKeeps(merged, samples[..n]);
      var before, after := AddSamples(merged, samples[..n]), AddSamples(merged, samples);
      assert SameSample(samples[n], samples[n]);
      assert before <= after;
      forall s | s in samples ensures AlreadyMerged(after, s) {
        if s in samples[..n] {
          var e :| e in before && SameSample(e, s);
          assert e in after;
        } else {
          assert s == samples[n];
          assert samples[n] in after || AlreadyMerged(before, samples[n]);
          if AlreadyMerged(before, samples[n]) {
            var e :| e in before && SameSample(e, samples[n]);
            assert e in after;
          }
        }
      }
    }
  }

  lemma {:induction false} AddSamplesRepeated(merged: seq<SampledValue>, samples: seq<SampledValue>)
    requires forall s :: s in samples ==> AlreadyMerged(merged, s)
    ensures AddSamples(merged, samples) == merged
  {
    if samples != [] {
      AddSamplesRepeated(merged, samples[..|samples| - 1]);
    }
  }

  /** Every sample that arrived is represented in the merge, by itself or by an earlier sample
      of the same measurand, phase and location. */
  lemma {:induction false} MergeRepresents(meterValues: seq<MeterValue>, v: MeterValue, s: SampledValue)
    requires v in meterValues && s in v.sampledValue
    ensures v.timestamp in Merge(meterValues) && AlreadyMerged(Merge(meterValues)[v.timestamp], s)
  {
    var n := |meterValues| - 1;
    var before, last := Merge(meterValues[..n]), meterValues[n];
    assert SameSample(s, s);
    if v in meterValues[..n] {
      MergeRepresents(meterValues[..n], v, s);
      if last.timestamp == v.timestamp {
        AddSamplesKeeps(before[v.timestamp], last.sampledValue);
        var e :| e in before[v.timestamp] && SameSample(e, s);
        assert e in AddSamples(before[v.timestamp], last.sampledValue);
      }
    } else {
      assert v == last;
      if last.timestamp in before {
        AddSamplesKeeps(before[v.timestamp], last.sampledValue);
      }
    }
  }

  lemma {:induction false} AddSamplesOrigin(merged: seq<SampledValue>, samples: seq<SampledValue>)
    ensures forall s :: s in AddSamples(merged, samples) ==> s in merged || s in samples
  {
    if samples != [] {
      AddSamplesOrigin(merged, samples[..|samples| - 1]);
    }
  }

  lemma {:induction false} MergeOrigin(meterValues: seq<MeterValue>, t: int, s: SampledValue)
    requires t in Merge(meterValues) && s in Merge(meterValues)[t]
    ensures exists v :: v in meterValues && v.timestamp == t && s in v.sampledValue
  {
    var n := |meterValues| - 1;
    var before, last := Merge(meterValues[..n]), meterValues[n];
    if last.timestamp == t && s in last.sampledValue {
      assert last in meterValues;
    } else {
      if t in before {
        AddSamplesOrigin(before[t], last.sampledValue);
      }
      MergeOrigin(meterValues[..n], t, s);
      var v :| v in meterValues[..n] && v.timestamp == t && s in v.sampledValue;
      assert v in meterValues;
    }
  }

  /** What the merged readings hold: of every sample that arrived, itself or one of the same
      measurand, phase and location, in the reading of its instant; and nothing that did not
      arrive at that instant. */
  lemma ReadingsHoldSamples(meterValues: seq<MeterValue>)
    ensures forall v, s :: v in meterValues && s in v.sampledValue ==>
                             exists r :: r in Readings(meterValues) && r.timestamp == v.timestamp
                                         && AlreadyMerged(r.sampledValue, s)
    ensures forall r, s :: r in Readings(meterValues) && s in r.sampledValue ==>
                             exists v :: v in meterValues && v.timestamp == r.timestamp && s in v.sampledValue
  {
    forall v, s | v in meterValues && s in v.sampledValue
      ensures exists r :: r in Readings(meterValues) && r.timestamp == v.timestamp && AlreadyMerged(r.sampledValue, s)
    {
      MergeRepresents(meterValues, v, s);
      var r := MeterValue(v.timestamp, Merge(meterValues)[v.timestamp]);
      ReadingsSamples(meterValues, r);
      assert r in Readings(meterValues);
    }
    forall r, s | r in Readings(meterValues) && s in r.sampledValue
      ensures exists v :: v in meterValues && v.timestamp == r.timestamp && s in v.sampledValue
    {
      ReadingsSamples(meterValues, r);
      MergeOrigin(meterValues, r.timestamp, s);
    }
  }

  /** A re-sent list of readings the session already has leaves the merge untouched. */
  lemma {:induction false} MergeIgnoresRepeats(meterValues: seq<MeterValue>, repeats: seq<MeterValue>)
    requires forall r :: r in repeats ==> r in meterValues
    ensures Merge(meterValues + repeats) == Merge(meterValues)
  {
    if repeats == [] {
      assert meterValues + repeats == meterValues;
    } else {
      var n := |repeats| - 1;
      MergeIgnoresRepeats(meterValues, repeats[..n]);
      assert (meterValues + repeats)[..|meterValues + repeats| - 1] == meterValues + repeats[..n];
      var r, m := repeats[n], Merge(meterValues);
      MergeKeys(meterValues);
      assert HasTime(meterValues, r.timestamp);
      forall s | s in r.sampledValue ensures AlreadyMerged(m[r.timestamp], s) {
        MergeRepresents(meterValues, r, s);
      }
      AddSamplesRepeated(m[r.timestamp], r.sampledValue);
    }
  }

  lemma ReadingsIgnoreRepeats(meterValues: seq<MeterValue>, repeats: seq<MeterValue>)
    requires forall r :: r in repeats ==> r in meterValues
    ensures Readings(meterValues + repeats) == Readings(meterValues)
  {
    MergeIgnoresRepeats(meterValues, repeats);
  }

  // -- arrival order

  /** Readings that share an instant are the same reading. Distinct timestamps are a special
      case. */
  ghost predicate Unambiguous(meterValues: seq<MeterValue>) {
    forall v, w :: v in meterValues && w in meterValues && v.timestamp == w.timestamp ==> v == w
  }

  lemma {:induction false} MergeUnambiguous(meterValues: seq<MeterValue>)
    requires Unambiguous(meterValues)
    ensures forall v :: v in meterValues ==>
                          v.timestamp in Merge(meterValues) && Merge(meterValues)[v.timestamp] == v.sampledValue
  {
    if meterValues != [] {
      var n := |meterValues| - 1;
      MergeUnambiguous(meterValues[..n]);
      MergeKeys(meterValues[..n]);
      var last, before := meterValues[n], Merge(meterValues[..n]);
      assert meterValues == meterValues[..n] + [last];
      if last.timestamp in before {
        var w :| w in meterValues[..n] && w.timestamp == last.timestamp;
        assert w in meterValues && last in meterValues && w == last;
        assert forall s :: SameSample(s, s);
        AddSamplesRepeated(last.sampledValue, last.sampledValue);
      }
    }
  }

  /** The readings do not depend on the order in which unambiguous meter values arrive, nor
      on how often each arrives. */
  lemma ReadingsIgnoreArrivalOrder(a: seq<MeterValue>, b: seq<MeterValue>)
    requires Unambiguous(a)
    requires forall v :: v in a <==> v in b
    ensures Readings(a) == Readings(b)
  {
    MergeUnambiguous(a);
    MergeUnambiguous(b);
    MergeKeys(a);
    MergeKeys(b);
    var ma, mb := Merge(a), Merge(b);
    forall t ensures t in ma <==> t in mb {
      assert HasTime(a, t) <==> HasTime(b, t);
    }
    forall t | t in ma ensures ma[t] == mb[t] {
      var v :| v in a && v.timestamp == t;
      assert v in b;
    }
    assert ma == mb;
  }

  /** From an index on, no sample repeats the measurand, phase and location of one before it. */
  ghost predicate NewFrom(samples: seq<SampledValue>, from: nat) {
    forall i :: from <= i < |samples| ==> !AlreadyMerged(samples[..i], samples[i])
  }

  /** Adding a list to its own beginning gives the list back exactly if the rest is new, and
      something shorter otherwise. */
  lemma {:induction false} AddToPrefix(samples: seq<SampledValue>, n: nat)
    requires n <= |samples|
    ensures if NewFrom(samples, n) then AddSamples(samples[..n], samples) == samples
            else |AddSamples(samples[..n], samples)| < |samples|
    decreases |samples|
  {
    if n == |samples| {
      assert samples[..n] == samples;
      forall s | s in samples ensures AlreadyMerged(samples, s) {
        assert SameSample(s, s);
      }
      AddSamplesRepeated(samples, samples);
    } else {
      var m := |samples| - 1;
      var before := samples[..m];
      AddToPrefix(before, n);
      assert before[..n] == samples[..n];
      assert samples == before + [samples[m]];
      NewFromStep(samples, n);
    }
  }

  lemma NewFromStep(samples: seq<SampledValue>, n: nat)
    requires n < |samples|
    ensures var m := |samples| - 1;
            NewFrom(samples, n) <==> NewFrom(samples[..m], n) && !AlreadyMerged(samples[..m], samples[m])
  {
    var m := |samples| - 1;
    assert forall i :: 0 <= i < m ==> samples[..m][..i] == samples[..i] && samples[..m][i] == samples[i];
  }

  /** Which of two lists is the other's beginning, with only new samples after it. */
  ghost predicate Extends(a: seq<SampledValue>, b: seq<SampledValue>) {
    a <= b && NewFrom(b, |a|)
  }

  lemma AddBothWays(a: seq<SampledValue>, b: seq<SampledValue>)
    ensures AddSamples(a, b) == AddSamples(b, a) <==> Extends(a, b) || Extends(b, a)
  {
    AddSamplesKeeps(a, b);
    AddSamplesKeeps(b, a);
    if |a| <= |b| {
      AddOntoLonger(a, b);
    } else {
      AddOntoLonger(b, a);
    }
  }

  lemma AddOntoLonger(a: seq<SampledValue>, b: seq<SampledValue>)
    requires |a| <= |b| && a <= AddSamples(a, b) && b <= AddSamples(b, a)
    ensures AddSamples(a, b) == AddSamples(b, a) <==> Extends(a, b)
    ensures Extends(b, a) ==> Extends(a, b)
  {
    if AddSamples(a, b) == AddSamples(b, a) {
      ShorterPrefix(a, b, AddSamples(a, b));
    }
    if a <= b {
      assert a == b[..|a|];
      forall s | s in a ensures AlreadyMerged(b, s) {
        assert s in b && SameSample(s, s);
      }
      AddSamplesRepeated(b, a);
      AddToPrefix(b, |a|);
    }
  }

  lemma ShorterPrefix(a: seq<SampledValue>, b: seq<SampledValue>, c: seq<SampledValue>)
    requires a <= c && b <= c && |a| <= |b|
    ensures a <= b
  {
    assert a == c[..|a|] && b == c[..|b|];
  }

  /** Exactly when the order in which two readings of one instant arrive does not matter: one
      of them begins with all the samples of the other, and goes on with samples of new
      measurands, phases or locations only. */
  lemma ArrivalOrderMatters(a: MeterValue, b: MeterValue)
    requires a.timestamp == b.timestamp
    ensures Readings([a, b]) == Readings([b, a])
       <==> Extends(a.sampledValue, b.sampledValue) || Extends(b.sampledValue, a.sampledValue)
  {
    MergePair(a, b);
    MergePair(b, a);
    AddBothWays(a.sampledValue, b.sampledValue);
  }

  lemma MergePair(a: MeterValue, b: MeterValue)
    requires a.timestamp == b.timestamp
    ensures Readings([a, b]) == [MeterValue(a.timestamp, AddSamples(a.sampledValue, b.sampledValue))]
  {
    assert [a, b][..1] == [a] && [a][..0] == [];
    assert Merge([a]) == map[a.timestamp := a.sampledValue];
    assert Merge([a, b]) == map[a.timestamp := AddSamples(a.sampledValue, b.sampledValue)];
    var ts := Sorted(Merge([a, b]).Keys);
    assert a.timestamp in ts;
    assert Ascending([a.timestamp]);
    AscendingUnique(ts, [a.timestamp]);
  }

  // -- readings that arrive later

  ghost predicate AllLater(earlier: seq<MeterValue>, later: seq<MeterValue>) {
    forall v, w :: v in earlier && w in later ==> v.timestamp < w.timestamp
  }

  lemma {:induction false} MergeLater(earlier: seq<MeterValue>, later: seq<MeterValue>)
    requires AllLater(earlier, later)
    ensures Merge(earlier + later) == Merge(earlier) + Merge(later)
  {
    if later == [] {
      assert earlier + later == earlier;
    } else {
      var n := |later| - 1;
      MergeLater(earlier, later[..n]);
      assert (earlier + later)[..|earlier + later| - 1] == earlier + later[..n];
      MergeKeys(earlier);
      assert later[n] in later && forall v :: v in earlier ==> v.timestamp < later[n].timestamp;
      MergeOneLater(Merge(earlier), Merge(later[..n]), later[n]);
    }
  }

  lemma MergeOneLater(earlier: ByTimestamp, later: ByTimestamp, reading: MeterValue)
    requires reading.timestamp !in earlier
    ensures MergeOne(earlier + later, reading) == earlier + MergeOne(later, reading)
  {
  }

  /** Meter values that are all later than what the session has only add readings at the end. */
  lemma ReadingsLater(earlier: seq<MeterValue>, later: seq<MeterValue>)
    requires AllLater(earlier, later)
    ensures Readings(earlier + later) == Readings(earlier) + Readings(later)
  {
    MergeLater(earlier, later);
    MergeKeys(earlier);
    MergeKeys(later);
    var ks, kt := Merge(earlier).Keys, Merge(later).Keys;
    forall x, y | x in ks && y in kt ensures x < y {
      assert HasTime(earlier, x) && HasTime(later, y);
    }
    SortedUnion(ks, kt);
    assert Merge(earlier + later).Keys == ks + kt;
    InOrderConcat(Merge(earlier), Sorted(ks), Merge(later), Sorted(kt));
  }

  lemma InOrderConcat(m: ByTimestamp, ts: seq<int>, m': ByTimestamp, ts': seq<int>)
    requires forall i :: 0 <= i < |ts| ==> ts[i] in m && ts[i] !in m'
    requires forall i :: 0 <= i < |ts'| ==> ts'[i] in m'
    ensures forall i :: 0 <= i < |ts + ts'| ==> (ts + ts')[i] in m + m'
    ensures InOrder(m + m', ts + ts') == InOrder(m, ts) + InOrder(m', ts')
  {
  }
}
