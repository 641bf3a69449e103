/**
 The stream of session updates: a PUT carries every charging period, each PATCH only the
 period closed by the latest reading (SessionMapper.mapIncrementalSessionPatch), and the
 receiver appends it (section 9.2.2.3 of OCPI 2.2.1). No period but the one that closes the
 session changes once sent, even when a late first energy reading makes the mapper reject
 meterStart; so the receiver holds the sender's list exactly as long as every PATCH closes
 exactly one period.
 */
module IncrementalSessions {
  import opened Numbers
  import opened MeterReadings
  import opened ChargingPeriods

  // ------------------------------------------------------------- prefix stability

  lemma {:induction false} FirstEnergyConcat(a: seq<MeterValue>, b: seq<MeterValue>)
    ensures FirstEnergy(a + b) == if FirstEnergy(a).Some? then FirstEnergy(a) else FirstEnergy(b)
  {
    if a == [] {
      assert a + b == b;
    } else {
      FirstEnergyConcat(a[1..], b);
      assert (a + b)[1..] == a[1..] + b;
    }
  }

  lemma {:induction false} NoFirstEnergy(readings: seq<MeterValue>)
    ensures FirstEnergy(readings).None? <==> forall r :: r in readings ==> EnergyKwh(r).None?
  {
    if readings != [] {
      NoFirstEnergy(readings[1..]);
      assert readings == [readings[0]] + readings[1..];
    }
  }

  lemma TrustChanges(readings: seq<MeterValue>, more: seq<MeterValue>, start: Option<SessionStart>)
    requires TrustedStartKwh(readings + more, start) != TrustedStartKwh(readings, start)
    ensures TrustedStartKwh(readings + more, start).None? && TrustedStartKwh(readings, start).Some?
    ensures forall r :: r in readings ==> EnergyKwh(r).None?
  {
    FirstEnergyConcat(readings, more);
    NoFirstEnergy(readings);
  }

  /** Later readings never make a meterStart trusted, and make one rejected only while no reading
      so far carries energy. */
  lemma TrustSettlesWithFirstEnergy(readings: seq<MeterValue>, more: seq<MeterValue>, start: Option<SessionStart>,
                                    kwh: real)
    ensures MeterStart(readings + more, start, kwh) ==> MeterStart(readings, start, kwh)
    ensures MeterStart(readings, start, kwh) && !MeterStart(readings + more, start, kwh) ==>
              forall r :: r in readings ==> EnergyKwh(r).None?
  {
    StartTrustedExactly(readings, start, kwh);
    StartTrustedExactly(readings + more, start, kwh);
    if TrustedStartKwh(readings + more, start) != TrustedStartKwh(readings, start) {
      TrustChanges(readings, more, start);
    }
  }

  lemma SameDimensionsWithoutEnergy(reading: MeterValue, previous: MeterValue, previous': MeterValue,
                                    startKwh: Option<real>, startKwh': Option<real>)
    requires EnergyKwh(reading).None? && previous.timestamp == previous'.timestamp
    ensures Dimensions(reading, previous, startKwh) == Dimensions(reading, previous', startKwh')
  {
  }

  /** Adding readings at the end only adds instants at the end. */
  lemma InstantsExtend(readings: seq<MeterValue>, more: seq<MeterValue>, start: Option<SessionStart>,
                       end: Option<SessionEnd>, k: Option<real>)
    requires readings != []
    ensures WithStart(readings, start, k) <= WithEnd(WithStart(readings + more, start, k), end, k)
  {
    assert WithStart(readings + more, start, k) == WithStart(readings, start, k) + more;
  }

  lemma PeriodsBetweenExtend(before: seq<MeterValue>, after: seq<MeterValue>, tariffId: string,
                             k: Option<real>, k': Option<real>)
    requires |before| <= |after|
    requires forall i :: 0 <= i < |before| - 1 ==>
               before[i].timestamp == after[i].timestamp
               && Dimensions(before[i + 1], before[i], k) == Dimensions(after[i + 1], after[i], k')
    ensures PeriodsBetween(before, tariffId, k) <= PeriodsBetween(after, tariffId, k')
  {
    forall i | 0 <= i < |before| - 1
      ensures PeriodsBetween(before, tariffId, k)[i] == PeriodsBetween(after, tariffId, k')[i]
    {
      PeriodAt(before, tariffId, k, i);
      PeriodAt(after, tariffId, k', i);
    }
  }

  lemma StableBetween(readings: seq<MeterValue>, after: seq<MeterValue>, tariffId: string,
                      start: Option<SessionStart>, k: Option<real>, k': Option<real>)
    requires WithStart(readings, start, k') <= after
    requires k == k' || forall r :: r in readings ==> EnergyKwh(r).None?
    ensures PeriodsBetween(WithStart(readings, start, k), tariffId, k) <= PeriodsBetween(after, tariffId, k')
  {
    var before := WithStart(readings, start, k);
    forall i | 0 <= i < |before| - 1
      ensures before[i].timestamp == after[i].timestamp
           && Dimensions(before[i + 1], before[i], k) == Dimensions(after[i + 1], after[i], k')
    {
      if k == k' {
        assert before[i] == after[i] && before[i + 1] == after[i + 1];
      } else {
        assert before[i + 1] in readings && before[i + 1] == after[i + 1];
        SameDimensionsWithoutEnergy(before[i + 1], before[i], after[i], k, k');
      }
    }
    PeriodsBetweenExtend(before, after, tariffId, k, k');
  }

  lemma StableOverReadings(readings: seq<MeterValue>, more: seq<MeterValue>, tariffId: string,
                           start: Option<SessionStart>, end: Option<SessionEnd>, k: Option<real>, k': Option<real>)
    requires k == TrustedStartKwh(readings, start) && k' == TrustedStartKwh(readings + more, start)
    ensures PeriodsBetween(WithEnd(WithStart(readings, start, k), None, k), tariffId, k)
         <= PeriodsBetween(WithEnd(WithStart(readings + more, start, k'), end, k'), tariffId, k')
  {
    if readings != [] {
      if k != k' {
        TrustChanges(readings, more, start);
      }
      InstantsExtend(readings, more, start, end, k');
      StableBetween(readings, WithEnd(WithStart(readings + more, start, k'), end, k'), tariffId, start, k, k');
    }
  }

  /** Adding later readings, and closing the session, extends the list of periods and changes
      none of the periods it had. */
  lemma PeriodsAreStable(earlier: seq<MeterValue>, later: seq<MeterValue>, tariffId: string,
                         start: Option<SessionStart>, end: Option<SessionEnd>)
    requires AllLater(earlier, later)
    ensures Periods(earlier, tariffId, start, None) <= Periods(earlier + later, tariffId, start, end)
  {
    ReadingsLater(earlier, later);
    StableOverReadings(Readings(earlier), Readings(later), tariffId, start, end,
                       TrustedStartKwh(Readings(earlier), start), TrustedStartKwh(Readings(earlier + later), start));
  }

  // -------------------------------------------------------- a session that has ended

  /** An end, once there, is neither withdrawn nor moved back; what the session has charged in
      all may still change. */
  predicate EndKept(before: Option<SessionEnd>, after: Option<SessionEnd>) {
    before.Some? ==> after.Some? && before.value.timestamp <= after.value.timestamp
  }

  /** The later list has a period for each of the former one's, starting at the same instant, and
      all but the last one are as they were. */
  ghost predicate KeepsSlots(before: seq<ChargingPeriod>, after: seq<ChargingPeriod>) {
    && |before| <= |after|
    && (before != [] ==>
          var m := |before| - 1;
          before[..m] == after[..m] && before[m].startDateTime == after[m].startDateTime)
  }

  lemma StartedLast(readings: seq<MeterValue>, more: seq<MeterValue>, start: Option<SessionStart>,
                    k: Option<real>, k': Option<real>)
    requires WithStart(readings, start, k) != []
    requires readings == [] ==> forall r :: r in more ==> start.value.timestamp < r.timestamp
    ensures var started, started' := WithStart(readings, start, k), WithStart(readings + more, start, k');
            && |started'| == |started| + |more|
            && started'[|started| - 1].timestamp == started[|started| - 1].timestamp
  {
    if readings != [] {
      StartedWith(readings, more, start, k, k');
    } else {
      StartedWithout(more, start, k');
      assert readings + more == more;
    }
  }

  lemma StartedWith(readings: seq<MeterValue>, more: seq<MeterValue>, start: Option<SessionStart>,
                    k: Option<real>, k': Option<real>)
    requires readings != []
    ensures var started, started' := WithStart(readings, start, k), WithStart(readings + more, start, k');
            && |started'| == |started| + |more|
            && started'[|started| - 1] == started[|started| - 1]
  {
    StartedLength(readings, start, k);
    StartedLength(readings, start, k');
    StartedConcat(readings, more, start, k');
  }

  lemma StartedConcat(readings: seq<MeterValue>, more: seq<MeterValue>, start: Option<SessionStart>, k: Option<real>)
    requires readings != []
    ensures WithStart(readings + more, start, k) == WithStart(readings, start, k) + more
  {
    assert StartsBefore(start, readings + more) == StartsBefore(start, readings);
    if StartsBefore(start, readings) {
      var boundary := [BoundaryReading(start.value.timestamp, k)];
      assert boundary + (readings + more) == (boundary + readings) + more;
    }
  }

  lemma StartedWithout(more: seq<MeterValue>, start: Option<SessionStart>, k: Option<real>)
    requires start.Some? && forall r :: r in more ==> start.value.timestamp < r.timestamp
    ensures WithStart(more, start, k) == [BoundaryReading(start.value.timestamp, k)] + more
  {
    assert more != [] ==> more[0] in more;
  }

  /** A period that closes the session keeps its place when it is closed anew. */
  lemma ClosedKeepsSlots(readings: seq<MeterValue>, more: seq<MeterValue>, tariffId: string,
                         start: Option<SessionStart>, end: Option<SessionEnd>, end': Option<SessionEnd>,
                         k: Option<real>, k': Option<real>)
    requires EndsAfter(end, WithStart(readings, start, k)) && EndKept(end, end')
    requires readings == [] ==> forall r :: r in more ==> start.value.timestamp < r.timestamp
    requires PeriodsBetween(WithStart(readings, start, k), tariffId, k)
          <= PeriodsBetween(WithEnd(WithStart(readings + more, start, k'), end', k'), tariffId, k')
    ensures KeepsSlots(PeriodsBetween(WithEnd(WithStart(readings, start, k), end, k), tariffId, k),
                       PeriodsBetween(WithEnd(WithStart(readings + more, start, k'), end', k'), tariffId, k'))
  {
    StartedLast(readings, more, start, k, k');
    var started, started' := WithStart(readings, start, k), WithStart(readings + more, start, k');
    var instants' := WithEnd(started', end', k');
    ClosedInstants(started, started', end, end', k');
    ClosedPeriods(started, end, tariffId, k);
    PeriodStart(instants', tariffId, k', |started| - 1);
    SlotOfLast(PeriodsBetween(WithEnd(started, end, k), tariffId, k), PeriodsBetween(instants', tariffId, k'));
  }

  lemma ClosedInstants(started: seq<MeterValue>, started': seq<MeterValue>, end: Option<SessionEnd>,
                       end': Option<SessionEnd>, k: Option<real>)
    requires EndsAfter(end, started) && EndKept(end, end') && |started'| >= |started|
    requires started'[|started| - 1].timestamp == started[|started| - 1].timestamp
    ensures var instants' := WithEnd(started', end', k);
            |instants'| > |started| && instants'[|started| - 1].timestamp == started[|started| - 1].timestamp
  {
  }

  lemma PeriodStart(instants: seq<MeterValue>, tariffId: string, k: Option<real>, i: nat)
    requires i + 1 < |instants|
    ensures |PeriodsBetween(instants, tariffId, k)| == |instants| - 1
    ensures PeriodsBetween(instants, tariffId, k)[i].startDateTime == instants[i].timestamp
  {
    PeriodAt(instants, tariffId, k, i);
  }

  lemma SlotOfLast(before: seq<ChargingPeriod>, after: seq<ChargingPeriod>)
    requires before != [] && |before| <= |after| && before[..|before| - 1] <= after
    requires after[|before| - 1].startDateTime == before[|before| - 1].startDateTime
    ensures KeepsSlots(before, after)
  {
  }

  lemma ClosedPeriods(started: seq<MeterValue>, end: Option<SessionEnd>, tariffId: string, k: Option<real>)
    requires EndsAfter(end, started)
    ensures var closed := PeriodsBetween(WithEnd(started, end, k), tariffId, k);
            && |closed| == |started|
            && closed[..|started| - 1] == PeriodsBetween(started, tariffId, k)
            && closed[|started| - 1].startDateTime == started[|started| - 1].timestamp
  {
  }

  /** Adding later readings to a session, ended or not, and closing it, again or for the first
      time, keeps all of its periods but the one that closed it, and that one's place. */
  lemma PeriodsKeepSlots(earlier: seq<MeterValue>, later: seq<MeterValue>, tariffId: string,
                         start: Option<SessionStart>, end: Option<SessionEnd>, end': Option<SessionEnd>)
    requires AllLater(earlier, later) && EndKept(end, end')
    requires end.Some? && start.Some? ==> forall v :: v in later ==> start.value.timestamp < v.timestamp
    ensures KeepsSlots(Periods(earlier, tariffId, start, end), Periods(earlier + later, tariffId, start, end'))
    ensures end.None? ==> Periods(earlier, tariffId, start, end) <= Periods(earlier + later, tariffId, start, end')
  {
    PeriodsAreStable(earlier, later, tariffId, start, end');
    ReadingsLater(earlier, later);
    var readings, more := Readings(earlier), Readings(later);
    var k, k' := TrustedStartKwh(readings, start), TrustedStartKwh(readings + more, start);
    var started := WithStart(readings, start, k);
    if EndsAfter(end, started) {
      if readings == [] {
        ReadingsAfter(later, start.value.timestamp);
      }
      ClosedKeepsSlots(readings, more, tariffId, start, end, end', k, k');
    } else {
      assert WithEnd(started, end, k) == started == WithEnd(started, None, k);
      PrefixKeepsSlots(Periods(earlier, tariffId, start, end), Periods(earlier + later, tariffId, start, end'));
    }
  }

  lemma PrefixKeepsSlots(before: seq<ChargingPeriod>, after: seq<ChargingPeriod>)
    requires before <= after
    ensures KeepsSlots(before, after)
  {
  }

  lemma ReadingsAfter(meterValues: seq<MeterValue>, t: int)
    requires forall v :: v in meterValues ==> t < v.timestamp
    ensures forall r :: r in Readings(meterValues) ==> t < r.timestamp
  {
    ReadingsTimes(meterValues);
    forall r | r in Readings(meterValues) ensures t < r.timestamp {
      assert HasTime(Readings(meterValues), r.timestamp);
    }
  }

  predicate EndsAfterAll(end: Option<SessionEnd>, meterValues: seq<MeterValue>) {
    end.Some? && forall v :: v in meterValues ==> v.timestamp < end.value.timestamp
  }

  lemma InstantsClosed(readings: seq<MeterValue>, more: seq<MeterValue>, start: Option<SessionStart>,
                       end: Option<SessionEnd>, k: Option<real>, k': Option<real>)
    requires readings != []
    ensures |WithEnd(WithStart(readings + more, start, k'), end, k')|
         == |WithStart(readings, start, k)| + |more| + if EndsAfter(end, readings + more) then 1 else 0
  {
    var all, started := readings + more, WithStart(readings + more, start, k');
    assert started[|started| - 1] == all[|all| - 1];
  }

  lemma ReadingsNonEmpty(meterValues: seq<MeterValue>)
    requires meterValues != []
    ensures Readings(meterValues) != []
  {
    ReadingsTimes(meterValues);
    assert HasTime(meterValues, meterValues[0].timestamp);
    assert HasTime(Readings(meterValues), meterValues[0].timestamp);
  }

  predicate StartsBeforeAll(start: Option<SessionStart>, meterValues: seq<MeterValue>) {
    start.Some? && forall v :: v in meterValues ==> start.value.timestamp < v.timestamp
  }

  /** How many periods the later meter values and an end close. In a session with a reading, one
      for each new instant, and one for an end that lies after all of them. The first readings
      of a session close one less if it did not start before all of them; and with none at all
      there is a period exactly from a start to an end after it. */
  function ClosedBy(earlier: seq<MeterValue>, later: seq<MeterValue>, start: Option<SessionStart>,
                    end: Option<SessionEnd>): int {
    var closing := if EndsAfterAll(end, earlier + later) then 1 else 0;
    if earlier != [] then |Readings(later)| + closing
    else if later != [] then |Readings(later)| + closing - if StartsBeforeAll(start, later) then 0 else 1
    else if start.Some? && end.Some? && start.value.timestamp < end.value.timestamp then 1
    else 0
  }

  /** Exactly how many periods an update closes. */
  lemma PeriodsClosed(earlier: seq<MeterValue>, later: seq<MeterValue>, tariffId: string,
                      start: Option<SessionStart>, end: Option<SessionEnd>)
    requires AllLater(earlier, later)
    ensures |Periods(earlier + later, tariffId, start, end)|
         == |Periods(earlier, tariffId, start, None)| + ClosedBy(earlier, later, start, end)
  {
    if earlier == [] {
      assert earlier + later == later;
      FirstPeriods(later, tariffId, start, end);
      NoReadingNoPeriod(tariffId, start);
    } else {
      var readings, more := Readings(earlier), Readings(later);
      ReadingsLater(earlier, later);
      ReadingsNonEmpty(earlier);
      var k, k' := TrustedStartKwh(readings, start), TrustedStartKwh(readings + more, start);
      InstantsClosed(readings, more, start, end, k, k');
      EndAfterReadings(earlier + later, end);
    }
  }

  lemma FirstPeriods(later: seq<MeterValue>, tariffId: string, start: Option<SessionStart>, end: Option<SessionEnd>)
    ensures |Periods(later, tariffId, start, end)| == ClosedBy([], later, start, end)
  {
    assert [] + later == later;
    if later == [] {
      assert Readings([]) == [];
    } else {
      ReadingsNonEmpty(later);
      StartBeforeReadings(later, start);
      EndAfterReadings(later, end);
      InstantsOf(Readings(later), start, end, TrustedStartKwh(Readings(later), start));
    }
  }

  lemma NoReadingNoPeriod(tariffId: string, start: Option<SessionStart>)
    ensures Periods([], tariffId, start, None) == []
  {
    FirstPeriods([], tariffId, start, None);
  }

  lemma StartBeforeReadings(meterValues: seq<MeterValue>, start: Option<SessionStart>)
    requires Readings(meterValues) != []
    ensures StartsBefore(start, Readings(meterValues)) <==> StartsBeforeAll(start, meterValues)
  {
    if start.Some? {
      ReadingsTimes(meterValues);
      FirstIsEarliest(meterValues, Readings(meterValues), start.value.timestamp);
    }
  }

  lemma FirstIsEarliest(meterValues: seq<MeterValue>, rs: seq<MeterValue>, t: int)
    requires rs != [] && TimesAscend(rs) && forall u :: HasTime(rs, u) <==> HasTime(meterValues, u)
    ensures t < rs[0].timestamp <==> forall v :: v in meterValues ==> t < v.timestamp
  {
    assert HasTime(rs, rs[0].timestamp);
    var w :| w in meterValues && w.timestamp == rs[0].timestamp;
    forall v | v in meterValues ensures rs[0].timestamp <= v.timestamp {
      assert HasTime(meterValues, v.timestamp);
      var r :| r in rs && r.timestamp == v.timestamp;
      var i :| 0 <= i < |rs| && rs[i] == r;
      assert i > 0 ==> rs[0].timestamp < rs[i].timestamp;
    }
  }

  lemma EndAfterReadings(meterValues: seq<MeterValue>, end: Option<SessionEnd>)
    requires Readings(meterValues) != []
    ensures EndsAfter(end, Readings(meterValues)) <==> EndsAfterAll(end, meterValues)
  {
    if end.Some? {
      LastReadingIsLatest(meterValues, end.value.timestamp);
    }
  }

  lemma LastReadingIsLatest(meterValues: seq<MeterValue>, t: int)
    requires Readings(meterValues) != []
    ensures Readings(meterValues)[|Readings(meterValues)| - 1].timestamp < t
       <==> forall v :: v in meterValues ==> v.timestamp < t
  {
    ReadingsTimes(meterValues);
    LastIsLatest(meterValues, Readings(meterValues), t);
  }

  lemma LastIsLatest(meterValues: seq<MeterValue>, rs: seq<MeterValue>, t: int)
    requires rs != [] && TimesAscend(rs) && forall u :: HasTime(rs, u) <==> HasTime(meterValues, u)
    ensures rs[|rs| - 1].timestamp < t <==> forall v :: v in meterValues ==> v.timestamp < t
  {
    var last := rs[|rs| - 1];
    assert HasTime(rs, last.timestamp);
    var w :| w in meterValues && w.timestamp == last.timestamp;
    forall v | v in meterValues ensures v.timestamp <= last.timestamp {
      assert HasTime(meterValues, v.timestamp);
      var r :| r in rs && r.timestamp == v.timestamp;
      var i :| 0 <= i < |rs| && rs[i] == r;
      assert i < |rs| - 1 ==> rs[i].timestamp < rs[|rs| - 1].timestamp;
    }
  }

  // ------------------------------------------------------------------ the stream

  /** One update of the transaction whose PATCH is sent (SessionStream says which are): the
      meter values it adds, and the end of the session if it is finished. */
  datatype Update = Update(later: seq<MeterValue>, end: Option<SessionEnd>)

  /** What stays the same over a session. */
  datatype Context = Context(initial: seq<MeterValue>, tariffId: string, start: Option<SessionStart>)

  function Recorded(ctx: Context, updates: seq<Update>): seq<MeterValue> {
    if updates == [] then ctx.initial
    else Recorded(ctx, updates[..|updates| - 1]) + updates[|updates| - 1].later
  }

  function EndOf(updates: seq<Update>): Option<SessionEnd> {
    if updates == [] then None else updates[|updates| - 1].end
  }

  /** The sender's list after a number of updates. */
  function Sent(ctx: Context, updates: seq<Update>): seq<ChargingPeriod> {
    Periods(Recorded(ctx, updates), ctx.tariffId, ctx.start, EndOf(updates))
  }

  /** The charging periods of a PATCH: periods.slice(-1). */
  function PatchPeriods(periods: seq<ChargingPeriod>): seq<ChargingPeriod> {
    if periods == [] then [] else [periods[|periods| - 1]]
  }

  /** The receiver's list: everything at the PUT, then what each PATCH carries. */
  function Received(ctx: Context, updates: seq<Update>): seq<ChargingPeriod> {
    if updates == [] then Sent(ctx, [])
    else Received(ctx, updates[..|updates| - 1]) + PatchPeriods(Sent(ctx, updates))
  }

  /** Readings arrive later than everything before them, the start included once the session has
      ended; and an end, once there, stays. */
  ghost predicate InOrderOfTime(ctx: Context, updates: seq<Update>) {
    updates == [] ||
    (var before, u := updates[..|updates| - 1], updates[|updates| - 1];
     && InOrderOfTime(ctx, before)
     && AllLater(Recorded(ctx, before), u.later)
     && EndKept(EndOf(before), u.end)
     && (EndOf(before).Some? && ctx.start.Some? ==>
           forall v :: v in u.later ==> ctx.start.value.timestamp < v.timestamp))
  }

  /** The later list is empty like the former, or has one period more. */
  predicate AddsOne(before: seq<ChargingPeriod>, after: seq<ChargingPeriod>) {
    if after == [] then before == [] else after[..|after| - 1] == before
  }

  /** The update leaves no period to send, or adds exactly one to the list as it was. */
  predicate ClosesOnePeriod(ctx: Context, updates: seq<Update>)
    requires updates != []
  {
    AddsOne(Sent(ctx, updates[..|updates| - 1]), Sent(ctx, updates))
  }

  ghost predicate EachClosesOnePeriod(ctx: Context, updates: seq<Update>) {
    updates == [] || (EachClosesOnePeriod(ctx, updates[..|updates| - 1]) && ClosesOnePeriod(ctx, updates))
  }

  lemma SentKeepsSlots(ctx: Context, updates: seq<Update>)
    requires updates != [] && InOrderOfTime(ctx, updates)
    ensures KeepsSlots(Sent(ctx, updates[..|updates| - 1]), Sent(ctx, updates))
    ensures EndOf(updates[..|updates| - 1]).None? ==> Sent(ctx, updates[..|updates| - 1]) <= Sent(ctx, updates)
  {
    var before, u := updates[..|updates| - 1], updates[|updates| - 1];
    PeriodsKeepSlots(Recorded(ctx, before), u.later, ctx.tariffId, ctx.start, EndOf(before), u.end);
  }

  /** Both lists are empty, or end with the same period. */
  ghost predicate EndAlike(received: seq<ChargingPeriod>, sent: seq<ChargingPeriod>) {
    && (received == [] <==> sent == [])
    && (received != [] ==> received[|received| - 1] == sent[|sent| - 1])
  }

  lemma {:induction false} ReceivedEndsLikeSent(ctx: Context, updates: seq<Update>)
    requires InOrderOfTime(ctx, updates)
    ensures EndAlike(Received(ctx, updates), Sent(ctx, updates))
  {
    if updates != [] {
      ReceivedEndsLikeSent(ctx, updates[..|updates| - 1]);
      SentKeepsSlots(ctx, updates);
    }
  }

  /** The receiver's list is the sender's list if and only if every PATCH so far closed
      exactly one period. A PATCH that closes none repeats the last period, one that closes
      several loses all but the last, one that rewrites the closing period adds it anew; and
      nothing sent later repairs any of these. */
  lemma {:induction false} PatchesRebuildTheList(ctx: Context, updates: seq<Update>)
    requires InOrderOfTime(ctx, updates)
    ensures Received(ctx, updates) == Sent(ctx, updates)
       <==> EachClosesOnePeriod(ctx, updates)
  {
    if updates != [] {
      PatchesRebuildTheList(ctx, updates[..|updates| - 1]);
      OnePatch(ctx, updates);
    }
  }

  lemma OnePatch(ctx: Context, updates: seq<Update>)
    requires updates != [] && InOrderOfTime(ctx, updates)
    ensures Received(ctx, updates) == Sent(ctx, updates)
       <==> Received(ctx, updates[..|updates| - 1]) == Sent(ctx, updates[..|updates| - 1])
            && ClosesOnePeriod(ctx, updates)
  {
    var before := updates[..|updates| - 1];
    SentKeepsSlots(ctx, updates);
    ReceivedEndsLikeSent(ctx, before);
    SentAscends(ctx, updates);
    var received, sent, after := Received(ctx, before), Sent(ctx, before), Sent(ctx, updates);
    AppendLast(received, sent, after);
    assert Received(ctx, updates) == received + PatchPeriods(after);
  }

  ghost predicate StartsAscend(periods: seq<ChargingPeriod>) {
    forall i, j :: 0 <= i < j < |periods| ==> periods[i].startDateTime < periods[j].startDateTime
  }

  lemma SentAscends(ctx: Context, updates: seq<Update>)
    ensures StartsAscend(Sent(ctx, updates))
  {
    PeriodsAscend(Recorded(ctx, updates), ctx.tariffId, ctx.start, EndOf(updates));
  }

  lemma EndsInSameSlot(received: seq<ChargingPeriod>, before: seq<ChargingPeriod>, after: seq<ChargingPeriod>)
    requires KeepsSlots(before, after) && StartsAscend(after) && EndAlike(received, before)
    requires received != [] && |after| == |received| + 1 && received == after[..|received|]
    ensures received == before
  {
    var n, m := |received| - 1, |before| - 1;
    assert after[n] == received[n] == before[m];
    assert after[n].startDateTime == after[m].startDateTime;
    assert n == m;
    assert received[..m] == after[..m] == before[..m];
    assert received == received[..m] + [received[m]] && before == before[..m] + [before[m]];
  }

  /** Appending the last period of the later list to a list that ends like the former one. */
  lemma AppendLast(received: seq<ChargingPeriod>, before: seq<ChargingPeriod>, after: seq<ChargingPeriod>)
    requires KeepsSlots(before, after) && StartsAscend(after) && EndAlike(received, before)
    ensures received + PatchPeriods(after) == after
       <==> received == before && AddsOne(before, after)
  {
    if after != [] && received + PatchPeriods(after) == after {
      assert received == after[..|after| - 1];
      if received != [] {
        EndsInSameSlot(received, before, after);
      }
    }
    if received == before && after != [] && after[..|after| - 1] == before {
      assert after == before + [after[|after| - 1]];
    }
  }

  /** Once the lists differ, they differ for good, whatever is sent later. */
  lemma {:induction false} SpoiltForGood(ctx: Context, updates: seq<Update>, more: seq<Update>)
    requires InOrderOfTime(ctx, updates + more) && !EachClosesOnePeriod(ctx, updates)
    ensures Received(ctx, updates + more) != Sent(ctx, updates + more)
  {
    if more == [] {
      assert updates + more == updates;
    } else {
      assert (updates + more)[..|updates + more| - 1] == updates + more[..|more| - 1];
      SpoiltForGood(ctx, updates, more[..|more| - 1]);
      PatchesRebuildTheList(ctx, updates + more[..|more| - 1]);
    }
    PatchesRebuildTheList(ctx, updates + more);
  }

  lemma {:induction false} InOrderPrefix(ctx: Context, updates: seq<Update>, more: seq<Update>)
    requires InOrderOfTime(ctx, updates + more)
    ensures InOrderOfTime(ctx, updates)
  {
    if more == [] {
      assert updates + more == updates;
    } else {
      assert (updates + more)[..|updates + more| - 1] == updates + more[..|more| - 1];
      InOrderPrefix(ctx, updates, more[..|more| - 1]);
    }
  }

  // ------------------------------------------------------------ seen from the update

  /** How many periods the last update closes. */
  function Closes(ctx: Context, updates: seq<Update>): int
    requires updates != []
  {
    ClosedBy(Recorded(ctx, updates[..|updates| - 1]), updates[|updates| - 1].later, ctx.start, EndOf(updates))
  }

  /** What closing one period means for the update of a session that is still open: in a session
      with a reading, that it brings one new instant, or an end after all the readings, and not
      both; in one without, that start, readings and end make two instants. */
  lemma ClosesOneExactly(ctx: Context, updates: seq<Update>)
    requires updates != [] && InOrderOfTime(ctx, updates) && EndOf(updates[..|updates| - 1]).None?
    ensures ClosesOnePeriod(ctx, updates) <==> Sent(ctx, updates) == [] || Closes(ctx, updates) == 1
  {
    var before, u := updates[..|updates| - 1], updates[|updates| - 1];
    PeriodsClosed(Recorded(ctx, before), u.later, ctx.tariffId, ctx.start, u.end);
    SentKeepsSlots(ctx, updates);
  }

  /** No update but the last one ends the session. */
  ghost predicate OpenTillLast(updates: seq<Update>) {
    forall i :: 0 <= i < |updates| - 1 ==> updates[i].end.None?
  }

  ghost predicate EachBringsOne(ctx: Context, updates: seq<Update>) {
    updates == []
    || (EachBringsOne(ctx, updates[..|updates| - 1]) && (Sent(ctx, updates) == [] || Closes(ctx, updates) == 1))
  }

  /** So for every session, up to its end: the receiver has the sender's list if and only if every
      PATCH with a period closed one, counted from what the update brought. */
  lemma {:induction false} OpenSessionExactly(ctx: Context, updates: seq<Update>)
    requires InOrderOfTime(ctx, updates) && OpenTillLast(updates)
    ensures Received(ctx, updates) == Sent(ctx, updates) <==> EachBringsOne(ctx, updates)
  {
    if updates != [] {
      OpenSessionExactly(ctx, updates[..|updates| - 1]);
      OnePatch(ctx, updates);
      ClosesOneExactly(ctx, updates);
    }
  }

  // ------------------------------------------------------------------ special cases

  /** The case the sender is written for: every update adds readings of one new instant, or
      no reading and an end after all of them. */
  ghost predicate OneInstantEach(ctx: Context, updates: seq<Update>) {
    updates == [] || (OneInstantEach(ctx, updates[..|updates| - 1]) && OneInstant(ctx, updates))
  }

  ghost predicate OneInstant(ctx: Context, updates: seq<Update>)
    requires updates != []
  {
    var u := updates[|updates| - 1];
    && EndOf(updates[..|updates| - 1]).None?
    && ((u.end.None? && |Readings(u.later)| == 1)
        || (u.later == [] && EndsAfterAll(u.end, Recorded(ctx, updates))))
  }

  lemma OneInstantClosesOnePeriod(ctx: Context, updates: seq<Update>)
    requires updates != [] && InOrderOfTime(ctx, updates) && OneInstant(ctx, updates)
    ensures ClosesOnePeriod(ctx, updates)
  {
    ClosesOneExactly(ctx, updates);
    PeriodsClosed(Recorded(ctx, updates[..|updates| - 1]), updates[|updates| - 1].later, ctx.tariffId, ctx.start,
                  EndOf(updates));
  }

  lemma {:induction false} OneInstantEachCloses(ctx: Context, updates: seq<Update>)
    requires InOrderOfTime(ctx, updates) && OneInstantEach(ctx, updates)
    ensures EachClosesOnePeriod(ctx, updates)
  {
    if updates != [] {
      OneInstantEachCloses(ctx, updates[..|updates| - 1]);
      OneInstantClosesOnePeriod(ctx, updates);
    }
  }

  lemma OneInstantEachRebuilds(ctx: Context, updates: seq<Update>)
    requires InOrderOfTime(ctx, updates) && OneInstantEach(ctx, updates)
    ensures Received(ctx, updates) == Sent(ctx, updates)
  {
    OneInstantEachCloses(ctx, updates);
    PatchesRebuildTheList(ctx, updates);
  }

  /** A closing update that brings a last reading and an end after it closes two periods at least
      (if it brings the first reading of all, one later than the start), of which the PATCH
      carries one: the receiver's list is then not the sender's. */
  lemma ClosingWithAReadingLosesAPeriod(ctx: Context, updates: seq<Update>)
    requires updates != [] && InOrderOfTime(ctx, updates) && EndOf(updates[..|updates| - 1]).None?
    requires Recorded(ctx, updates[..|updates| - 1]) != [] || StartsBeforeAll(ctx.start, updates[|updates| - 1].later)
    requires updates[|updates| - 1].later != [] && EndsAfterAll(updates[|updates| - 1].end, Recorded(ctx, updates))
    ensures Received(ctx, updates) != Sent(ctx, updates)
  {
    var before, u := updates[..|updates| - 1], updates[|updates| - 1];
    PeriodsClosed(Recorded(ctx, before), u.later, ctx.tariffId, ctx.start, u.end);
    ReadingsNonEmpty(u.later);
    assert !ClosesOnePeriod(ctx, updates);
    PatchesRebuildTheList(ctx, updates);
  }

  /** An update that is sent without a new instant (a state change, say) repeats the last
      period. */
  lemma UpdateWithoutReadingRepeatsAPeriod(ctx: Context, updates: seq<Update>)
    requires updates != [] && InOrderOfTime(ctx, updates) && Sent(ctx, updates) != []
    requires updates[|updates| - 1] == Update([], None)
    ensures Received(ctx, updates) != Sent(ctx, updates)
  {
    var before := updates[..|updates| - 1];
    assert Recorded(ctx, updates) == Recorded(ctx, before);
    assert !ClosesOnePeriod(ctx, updates);
    PatchesRebuildTheList(ctx, updates);
  }

  /** After the closing one, every PATCH that is sent without a new reading spoils the list for
      good: one that changes nothing of the end repeats the closing period, one that changes what
      was charged in all, or moves the end, adds another in its place. */
  lemma SentAfterClosingSpoils(ctx: Context, updates: seq<Update>, more: seq<Update>)
    requires updates != [] && InOrderOfTime(ctx, updates + more) && updates[|updates| - 1].later == []
    requires EndsAfterAll(EndOf(updates[..|updates| - 1]), Recorded(ctx, updates[..|updates| - 1]))
    requires Sent(ctx, updates[..|updates| - 1]) != []
    ensures Received(ctx, updates + more) != Sent(ctx, updates + more)
  {
    InOrderPrefix(ctx, updates, more);
    var before, u := updates[..|updates| - 1], updates[|updates| - 1];
    assert Recorded(ctx, updates) == Recorded(ctx, before);
    SentKeepsSlots(ctx, updates);
    SameNumber(Recorded(ctx, before), ctx.tariffId, ctx.start, EndOf(before), u.end);
    assert !ClosesOnePeriod(ctx, updates);
    SpoiltForGood(ctx, updates, more);
  }

  /** Closing anew without a new reading leaves as many periods as there were. */
  lemma SameNumber(meterValues: seq<MeterValue>, tariffId: string, start: Option<SessionStart>,
                   end: Option<SessionEnd>, end': Option<SessionEnd>)
    requires EndsAfterAll(end, meterValues) && EndKept(end, end') && Periods(meterValues, tariffId, start, end) != []
    ensures |Periods(meterValues, tariffId, start, end')| == |Periods(meterValues, tariffId, start, end)|
  {
    var readings := Readings(meterValues);
    var k := TrustedStartKwh(readings, start);
    var started := WithStart(readings, start, k);
    if readings != [] {
      EndAfterReadings(meterValues, end);
      StartedLength(readings, start, k);
    } else {
      NoPeriodUnlessEnded(started, end, tariffId, k);
    }
    assert EndsAfter(end, started) && EndsAfter(end', started);
    ClosedPeriods(started, end, tariffId, k);
    ClosedPeriods(started, end', tariffId, k);
  }

  lemma NoPeriodUnlessEnded(started: seq<MeterValue>, end: Option<SessionEnd>, tariffId: string, k: Option<real>)
    requires |started| <= 1
    ensures !EndsAfter(end, started) ==> PeriodsBetween(WithEnd(started, end, k), tariffId, k) == []
  {
  }
}
