/**
 The stream of PATCHes to a partner as the dedupe service lets it through. An update is not sent
 while the PATCH of an earlier one is under way, nor when its PATCH says nothing new; and one
 that is sent may not get there. A PATCH carries the newest period only, so each period must
 arrive before the next one is closed.
 */
module SessionStream {
  import opened Numbers
  import opened ChargingPeriods
  import opened IncrementalSessions
  import opened SessionBroadcast

  /** How the push of a PATCH ends, if it is sent: it returns, the PATCH having reached the
      receiver or not, or it raises. */
  datatype Fate = Reaches | Fails | Raises

  /** What may happen between an update and the next: the push of some step ends, or the
      transaction is cleared. */
  datatype Happening = Ends(step: nat) | Cleared

  /** An update as the service sees it: the sender's list after it, what else its PATCH takes
      from the transaction, how its push ends if there is one, and what happens before the next
      update. */
  datatype Step = Step(sent: seq<ChargingPeriod>, head: Head, fate: Fate, later: seq<Happening>)

  /** What the service knows of the key: whether it is marked as in flight, and the fingerprint
      it remembers. And, as a record, which step that is of, zero if none; and the pushes still
      under way, with what will be remembered of them. */
  datatype Service = Service(marked: bool, memory: Option<Fingerprint>, last: nat, open: map<nat, Option<Fingerprint>>)

  /** The sender's periods after the steps; the PUT carried the first list. */
  function SentBy(put: seq<ChargingPeriod>, steps: seq<Step>): seq<ChargingPeriod> {
    if steps == [] then put else steps[|steps| - 1].sent
  }

  function StepFingerprint(put: seq<ChargingPeriod>, steps: seq<Step>): Fingerprint
    requires steps != []
  {
    FingerprintOf(PatchBody(steps[|steps| - 1].head, SentBy(put, steps)))
  }

  /** A push that ends takes the mark away and is remembered unless it raised, even if the
      transaction was cleared in the meantime. */
  function Happened(v: Service, h: Happening): Service {
    match h
    case Cleared => v.(marked := false, memory := None, last := 0)
    case Ends(j) =>
      if j !in v.open then v
      else if v.open[j].None? then v.(marked := false, open := v.open - {j})
      else Service(false, v.open[j], j, v.open - {j})
  }

  function AllHappened(v: Service, later: seq<Happening>): Service {
    if later == [] then v else Happened(AllHappened(v, later[..|later| - 1]), later[|later| - 1])
  }

  /** Nothing is in flight, and there is something new to say. */
  predicate Lets(v: Service, fp: Fingerprint) {
    !v.marked && v.memory != Some(fp)
  }

  /** The service just after an update, before anything else happens. */
  function Departed(v: Service, step: nat, fate: Fate, fp: Fingerprint): Service {
    if Lets(v, fp) then v.(marked := true, open := v.open[step := if fate.Raises? then None else Some(fp)]) else v
  }

  /** The service after the steps, and all that happened since the last one. */
  function Knows(put: seq<ChargingPeriod>, steps: seq<Step>): Service {
    if steps == [] then Service(false, None, 0, map[])
    else
      var last := steps[|steps| - 1];
      AllHappened(Departed(Knows(put, steps[..|steps| - 1]), |steps|, last.fate, StepFingerprint(put, steps)),
                  last.later)
  }

  /** The last update is sent. */
  predicate Goes(put: seq<ChargingPeriod>, steps: seq<Step>)
    requires steps != []
  {
    Lets(Knows(put, steps[..|steps| - 1]), StepFingerprint(put, steps))
  }

  /** Its PATCH gets to the receiver. */
  predicate Arrives(put: seq<ChargingPeriod>, steps: seq<Step>)
    requires steps != []
  {
    Goes(put, steps) && steps[|steps| - 1].fate.Reaches?
  }

  /** The receiver's list: everything at the PUT, then what each PATCH that arrives carries. */
  function Arrived(put: seq<ChargingPeriod>, steps: seq<Step>): seq<ChargingPeriod> {
    if steps == [] then put
    else Arrived(put, steps[..|steps| - 1]) + if Arrives(put, steps) then PatchPeriods(SentBy(put, steps)) else []
  }

  predicate EachArrives(put: seq<ChargingPeriod>, steps: seq<Step>) {
    steps == [] || (EachArrives(put, steps[..|steps| - 1]) && Arrives(put, steps))
  }

  /** Each list keeps the places of the one before it, in ascending order of time. */
  ghost predicate InTime(put: seq<ChargingPeriod>, steps: seq<Step>) {
    if steps == [] then StartsAscend(put)
    else
      var before := steps[..|steps| - 1];
      && InTime(put, before)
      && KeepsSlots(SentBy(put, before), SentBy(put, steps)) && StartsAscend(SentBy(put, steps))
  }

  lemma InTimePrefix(put: seq<ChargingPeriod>, steps: seq<Step>)
    requires steps != [] && InTime(put, steps)
    ensures InTime(put, steps[..|steps| - 1])
  {
  }

  lemma SlotsKept(put: seq<ChargingPeriod>, steps: seq<Step>)
    requires steps != [] && InTime(put, steps)
    ensures KeepsSlots(SentBy(put, steps[..|steps| - 1]), SentBy(put, steps)) && StartsAscend(SentBy(put, steps))
  {
  }

  lemma KeepsSlotsTransitive(a: seq<ChargingPeriod>, b: seq<ChargingPeriod>, c: seq<ChargingPeriod>)
    requires KeepsSlots(a, b) && KeepsSlots(b, c)
    ensures KeepsSlots(a, c)
  {
    if a != [] {
      var m := |a| - 1;
      assert a[..m] == b[..m] && b[..m] == b[..|b| - 1][..m] && c[..m] == c[..|b| - 1][..m];
      if m < |b| - 1 {
        assert b[m] == b[..|b| - 1][m] && c[m] == c[..|b| - 1][m];
      }
    }
  }

  lemma {:induction false} SlotsKeptSince(put: seq<ChargingPeriod>, steps: seq<Step>, j: nat)
    requires j <= |steps| && InTime(put, steps)
    ensures KeepsSlots(SentBy(put, steps[..j]), SentBy(put, steps))
  {
    if j == |steps| {
      assert steps[..j] == steps;
    } else {
      var n := |steps| - 1;
      assert steps[..n][..j] == steps[..j];
      InTimePrefix(put, steps);
      SlotsKeptSince(put, steps[..n], j);
      SlotsKept(put, steps);
      KeepsSlotsTransitive(SentBy(put, steps[..j]), SentBy(put, steps[..n]), SentBy(put, steps));
    }
  }

  // ------------------------------------------------------- the stream of a transaction

  /** An update of a transaction, what becomes of its PATCH, and what happens before the next. */
  datatype Change = Change(update: Update, head: Head, fate: Fate, later: seq<Happening>)

  function Updates(changes: seq<Change>): (updates: seq<Update>)
    ensures |updates| == |changes|
  {
    if changes == [] then [] else Updates(changes[..|changes| - 1]) + [changes[|changes| - 1].update]
  }

  function StepsOf(ctx: Context, changes: seq<Change>): (steps: seq<Step>)
    ensures |steps| == |changes|
  {
    if changes == [] then []
    else
      var last := changes[|changes| - 1];
      StepsOf(ctx, changes[..|changes| - 1]) + [Step(Sent(ctx, Updates(changes)), last.head, last.fate, last.later)]
  }

  /** The lists of any transaction, its updates in order of time, ended or not, are in time, and
      are those of getChargingPeriods. */
  lemma {:induction false} TransactionInTime(ctx: Context, changes: seq<Change>)
    requires InOrderOfTime(ctx, Updates(changes))
    ensures InTime(Sent(ctx, []), StepsOf(ctx, changes))
    ensures SentBy(Sent(ctx, []), StepsOf(ctx, changes)) == Sent(ctx, Updates(changes))
  {
    if changes == [] {
      SentAscends(ctx, []);
    } else {
      var before := changes[..|changes| - 1];
      assert Updates(changes)[..|changes| - 1] == Updates(before);
      assert StepsOf(ctx, changes)[..|changes| - 1] == StepsOf(ctx, before);
      TransactionInTime(ctx, before);
      SentKeepsSlots(ctx, Updates(changes));
      SentAscends(ctx, Updates(changes));
    }
  }

  /** When every PATCH arrives the receiver gets what IncrementalSessions says. */
  lemma {:induction false} ArrivedIsReceived(ctx: Context, changes: seq<Change>)
    requires EachArrives(Sent(ctx, []), StepsOf(ctx, changes))
    ensures Arrived(Sent(ctx, []), StepsOf(ctx, changes)) == Received(ctx, Updates(changes))
  {
    if changes != [] {
      var before := changes[..|changes| - 1];
      assert Updates(changes)[..|changes| - 1] == Updates(before);
      assert StepsOf(ctx, changes)[..|changes| - 1] == StepsOf(ctx, before);
      ArrivedIsReceived(ctx, before);
    }
  }

  // ------------------------------------------------------------------ what is not sent

  /** What is remembered, or will be, is the fingerprint of the step it is recorded for. */
  ghost predicate RecordsFit(put: seq<ChargingPeriod>, steps: seq<Step>, v: Service) {
    && v.last <= |steps|
    && v.memory == (if v.last == 0 then None else Some(StepFingerprint(put, steps[..v.last])))
    && forall j :: j in v.open ==>
         0 < j <= |steps| && (v.open[j].Some? ==> v.open[j] == Some(StepFingerprint(put, steps[..j])))
  }

  lemma {:induction false} HappeningsKeepRecords(put: seq<ChargingPeriod>, steps: seq<Step>, v: Service,
                                                 later: seq<Happening>)
    requires RecordsFit(put, steps, v)
    ensures RecordsFit(put, steps, AllHappened(v, later))
  {
    if later != [] {
      HappeningsKeepRecords(put, steps, v, later[..|later| - 1]);
    }
  }

  lemma LongerRecords(put: seq<ChargingPeriod>, steps: seq<Step>, v: Service)
    requires steps != [] && RecordsFit(put, steps[..|steps| - 1], v)
    ensures RecordsFit(put, steps, v)
  {
    assert forall j: nat :: j < |steps| ==> steps[..|steps| - 1][..j] == steps[..j];
  }

  lemma {:induction false} RecordsAlwaysFit(put: seq<ChargingPeriod>, steps: seq<Step>)
    ensures RecordsFit(put, steps, Knows(put, steps))
  {
    if steps != [] {
      var n := |steps| - 1;
      var v := Knows(put, steps[..n]);
      RecordsAlwaysFit(put, steps[..n]);
      LongerRecords(put, steps, v);
      assert steps[..|steps|] == steps;
      HappeningsKeepRecords(put, steps, Departed(v, |steps|, steps[n].fate, StepFingerprint(put, steps)),
                            steps[n].later);
    }
  }

  /** The key is marked as in flight only while a push is under way; and, if the transaction is never
      cleared, exactly then, and no two of them are. */
  lemma {:induction false} MarkedExactly(put: seq<ChargingPeriod>, steps: seq<Step>)
    ensures Knows(put, steps).marked ==> Knows(put, steps).open != map[]
    ensures NeverCleared(steps) ==> AtMostOne(Knows(put, steps))
  {
    if steps == [] {
      assert Knows(put, steps).open.Keys <= {0};
    } else {
      var n := |steps| - 1;
      var v := Departed(Knows(put, steps[..n]), |steps|, steps[n].fate, StepFingerprint(put, steps));
      MarkedExactly(put, steps[..n]);
      DepartedMark(Knows(put, steps[..n]), |steps|, steps[n].fate, StepFingerprint(put, steps));
      MarkStays(v, steps[n].later);
      if NeverCleared(steps) {
        assert steps[n] in steps;
        AtMostOneStays(v, steps[n].later);
      }
    }
  }

  ghost predicate NeverCleared(steps: seq<Step>) {
    forall s :: s in steps ==> Cleared !in s.later
  }

  ghost predicate AtMostOne(v: Service) {
    (v.marked <==> v.open != map[]) && exists j :: v.open.Keys <= {j}
  }

  lemma DepartedMark(v: Service, step: nat, fate: Fate, fp: Fingerprint)
    ensures (v.marked ==> v.open != map[]) ==>
              (Departed(v, step, fate, fp).marked ==> Departed(v, step, fate, fp).open != map[])
    ensures AtMostOne(v) ==> AtMostOne(Departed(v, step, fate, fp))
  {
    if Lets(v, fp) {
      assert step in Departed(v, step, fate, fp).open;
      if AtMostOne(v) {
        assert Departed(v, step, fate, fp).open.Keys <= {step};
      }
    }
  }

  lemma {:induction false} MarkStays(v: Service, later: seq<Happening>)
    requires v.marked ==> v.open != map[]
    ensures AllHappened(v, later).marked ==> AllHappened(v, later).open != map[]
  {
    if later != [] {
      MarkStays(v, later[..|later| - 1]);
    }
  }

  lemma {:induction false} AtMostOneStays(v: Service, later: seq<Happening>)
    requires AtMostOne(v) && Cleared !in later
    ensures AtMostOne(AllHappened(v, later))
  {
    if later != [] {
      var h, before := later[|later| - 1], AllHappened(v, later[..|later| - 1]);
      assert h in later;
      AtMostOneStays(v, later[..|later| - 1]);
      if h.step in before.open {
        assert (before.open - {h.step}).Keys <= {h.step};
        assert before.open - {h.step} == map[];
      }
    }
  }

  lemma SameStepFingerprint(put: seq<ChargingPeriod>, steps: seq<Step>, j: nat)
    requires 0 < j < |steps| && InTime(put, steps)
    ensures StepFingerprint(put, steps[..j]) == StepFingerprint(put, steps)
       <==> |SentBy(put, steps[..j])| == |SentBy(put, steps)| && SameHead(steps[j - 1].head, steps[|steps| - 1].head)
  {
    assert steps[..j][j - 1] == steps[j - 1];
    SlotsKeptSince(put, steps, j);
    SlotsKept(put, steps);
    SameFingerprint(steps[j - 1].head, steps[|steps| - 1].head, SentBy(put, steps[..j]), SentBy(put, steps));
  }

  /** Which updates are not sent, exactly: those that come while the key is marked as in flight,
      whatever they bring; and those with as many periods as the step whose push was the last to
      return since the transaction was last cleared, and with its status, last_updated, rounded
      kwh and end. */
  lemma NotSentExactly(put: seq<ChargingPeriod>, steps: seq<Step>)
    requires steps != [] && InTime(put, steps)
    ensures var n := |steps| - 1;
            var v := Knows(put, steps[..n]);
            !Goes(put, steps)
            <==> v.marked
                 || (0 < v.last <= n && |SentBy(put, steps[..v.last])| == |SentBy(put, steps)|
                     && SameHead(steps[v.last - 1].head, steps[n].head))
  {
    var n := |steps| - 1;
    var j := Knows(put, steps[..n]).last;
    RecordsAlwaysFit(put, steps[..n]);
    if j > 0 {
      assert steps[..n][..j] == steps[..j];
      SameStepFingerprint(put, steps, j);
    }
  }

  // -------------------------------------------------------- agreement after every update

  ghost predicate AgreesThroughout(put: seq<ChargingPeriod>, steps: seq<Step>) {
    && Arrived(put, steps) == SentBy(put, steps)
    && (steps == [] || AgreesThroughout(put, steps[..|steps| - 1]))
  }

  /** The update's PATCH arrives and it added exactly one period, or it does not arrive and the
      update left the list as it was. */
  predicate Fits(put: seq<ChargingPeriod>, steps: seq<Step>)
    requires steps != []
  {
    if Arrives(put, steps) then AddsOne(SentBy(put, steps[..|steps| - 1]), SentBy(put, steps))
    else SentBy(put, steps) == SentBy(put, steps[..|steps| - 1])
  }

  ghost predicate EachFits(put: seq<ChargingPeriod>, steps: seq<Step>) {
    steps == [] || (EachFits(put, steps[..|steps| - 1]) && Fits(put, steps))
  }

  lemma AppendFits(before: seq<ChargingPeriod>, after: seq<ChargingPeriod>)
    ensures before + PatchPeriods(after) == after <==> AddsOne(before, after)
  {
    if after != [] {
      assert after == after[..|after| - 1] + [after[|after| - 1]];
      if before + PatchPeriods(after) == after {
        assert before == after[..|after| - 1];
      }
    }
  }

  /** For every run, in whatever order readings and ends come: the two lists agree after each
      update if and only if every update whose PATCH arrived had added exactly one period, and
      every other had left the list as it was. */
  lemma {:induction false} AgreesThroughoutExactly(put: seq<ChargingPeriod>, steps: seq<Step>)
    ensures AgreesThroughout(put, steps) <==> EachFits(put, steps)
  {
    if steps != [] {
      AgreesThroughoutExactly(put, steps[..|steps| - 1]);
      AppendFits(SentBy(put, steps[..|steps| - 1]), SentBy(put, steps));
    }
  }

  // ----------------------------------------------------------- agreement at the end

  /** Where the receiver stands: it has no period, like the sender; it has all of the sender's
      periods but the last one; it has those, and p in the last one's place; or it has got lost. */
  datatype Track = Empty | Behind | Holds(p: ChargingPeriod) | Lost

  /** What an update does to it: with no new period, a PATCH fills the last place if it is empty,
      and spoils the list if it is not. With one new period, the former last place must hold what
      it now has to hold. With more than one, or with the former place still empty, a period has
      been closed that no PATCH will carry. */
  function NextTrack(t: Track, before: seq<ChargingPeriod>, after: seq<ChargingPeriod>, arrives: bool): Track {
    if t.Lost? then Lost
    else if after == [] then Empty
    else
      var last := after[|after| - 1];
      var filled := if arrives then Holds(last) else Behind;
      if |after| == |before| then
        match t
        case Behind => filled
        case Holds(p) => if arrives then Lost else t
        case _ => Lost
      else if |after| == |before| + 1 then
        match t
        case Empty => filled
        case Holds(p) => if before != [] && p == after[|before| - 1] then filled else Lost
        case _ => Lost
      else Lost
  }

  function TrackOf(put: seq<ChargingPeriod>, steps: seq<Step>): Track {
    if steps == [] then
      if put == [] then Empty else Holds(put[|put| - 1])
    else
      NextTrack(TrackOf(put, steps[..|steps| - 1]), SentBy(put, steps[..|steps| - 1]), SentBy(put, steps),
                Arrives(put, steps))
  }

  /** The receiver has all but the last of the sender's periods, and perhaps one in its place. */
  ghost predicate OnTrack(arrived: seq<ChargingPeriod>, sent: seq<ChargingPeriod>) {
    if sent == [] then arrived == []
    else
      var m := |sent| - 1;
      && m <= |arrived| <= m + 1 && arrived[..m] == sent[..m]
      && (|arrived| == m + 1 ==> arrived[m].startDateTime == sent[m].startDateTime)
  }

  ghost predicate Means(t: Track, arrived: seq<ChargingPeriod>, sent: seq<ChargingPeriod>) {
    match t
    case Empty => sent == [] && arrived == []
    case Behind => sent != [] && OnTrack(arrived, sent) && |arrived| == |sent| - 1
    case Holds(p) => sent != [] && OnTrack(arrived, sent) && |arrived| == |sent| && arrived[|sent| - 1] == p
    case Lost => sent != [] && !OnTrack(arrived, sent)
  }

  /** Nothing has arrived that starts after the sender's last period. */
  ghost predicate NotAhead(arrived: seq<ChargingPeriod>, sent: seq<ChargingPeriod>) {
    && (sent == [] ==> arrived == [])
    && forall x :: x in arrived && sent != [] ==> x.startDateTime <= sent[|sent| - 1].startDateTime
  }

  lemma NotAheadStep(arrived: seq<ChargingPeriod>, before: seq<ChargingPeriod>, after: seq<ChargingPeriod>,
                     arrives: bool)
    requires NotAhead(arrived, before) && KeepsSlots(before, after) && StartsAscend(after)
    ensures NotAhead(arrived + if arrives then PatchPeriods(after) else [], after)
  {
    if before != [] {
      assert after[|before| - 1].startDateTime <= after[|after| - 1].startDateTime;
    }
  }

  lemma WrongSlot(arrived: seq<ChargingPeriod>, sent: seq<ChargingPeriod>, i: nat)
    requires i < |sent| - 1 && i < |arrived| && arrived[i] != sent[i]
    ensures !OnTrack(arrived, sent)
  {
    var m := |sent| - 1;
    if m <= |arrived| {
      assert arrived[..m][i] == arrived[i] && sent[..m][i] == sent[i];
    }
  }

  /** A PATCH that comes where the period before it is missing. */
  lemma PatchTooEarly(arrived: seq<ChargingPeriod>, sent: seq<ChargingPeriod>)
    requires StartsAscend(sent) && |sent| == |arrived| + 2
    ensures !OnTrack(arrived + PatchPeriods(sent), sent)
  {
    var i := |arrived|;
    assert sent[i].startDateTime < sent[i + 1].startDateTime;
    assert (arrived + PatchPeriods(sent))[i] == sent[i + 1];
    WrongSlot(arrived + PatchPeriods(sent), sent, i);
  }

  lemma AheadOfSender(arrived: seq<ChargingPeriod>, before: seq<ChargingPeriod>, after: seq<ChargingPeriod>, i: nat)
    requires KeepsSlots(before, after) && StartsAscend(after) && before != [] && NotAhead(arrived, before)
    requires |before| <= i < |after| && i < |arrived|
    ensures arrived[i].startDateTime < after[i].startDateTime
  {
    assert after[|before| - 1].startDateTime < after[i].startDateTime;
    assert arrived[i] in arrived;
  }

  /** Off the track, always off the track. */
  lemma LostStaysLost(arrived: seq<ChargingPeriod>, before: seq<ChargingPeriod>, after: seq<ChargingPeriod>,
                      arrives: bool)
    requires before != [] && !OnTrack(arrived, before) && NotAhead(arrived, before)
    requires KeepsSlots(before, after) && StartsAscend(after)
    ensures after != [] && !OnTrack(arrived + if arrives then PatchPeriods(after) else [], after)
  {
    var arrived' := arrived + if arrives then PatchPeriods(after) else [];
    var m, m' := |before| - 1, |after| - 1;
    if arrives && |arrived| + 1 == m' {
      PatchTooEarly(arrived, after);
    } else if m' <= |arrived| <= m' + 1 {
      if arrived[..m'] == after[..m'] {
        assert arrived'[..m'] == arrived[..m'];
        OffTrackStays(arrived, arrived', before, after, arrives);
      } else {
        assert arrived'[..m'] == arrived[..m'];
      }
    }
  }

  lemma OffTrackStays(arrived: seq<ChargingPeriod>, arrived': seq<ChargingPeriod>, before: seq<ChargingPeriod>,
                      after: seq<ChargingPeriod>, arrives: bool)
    requires before != [] && !OnTrack(arrived, before) && NotAhead(arrived, before)
    requires KeepsSlots(before, after) && StartsAscend(after)
    requires arrived' == arrived + if arrives then PatchPeriods(after) else []
    requires |after| - 1 <= |arrived| <= |after| && arrived[..|after| - 1] == after[..|after| - 1]
    ensures !OnTrack(arrived', after)
  {
    var m, m' := |before| - 1, |after| - 1;
    assert before[..m] == after[..m];
    NotBeyond(arrived, before, after);
    if m' == m + 1 {
      assert arrived[m] == arrived[..m'][m] == after[..m'][m] == after[m];
      assert arrived[..m] == arrived[..m'][..m] == after[..m'][..m] == after[..m];
      if |arrived| == m' + 1 {
        AheadOfSender(arrived, before, after, m');
      }
    }
  }

  lemma NotBeyond(arrived: seq<ChargingPeriod>, before: seq<ChargingPeriod>, after: seq<ChargingPeriod>)
    requires KeepsSlots(before, after) && StartsAscend(after) && before != [] && NotAhead(arrived, before)
    requires |after| - 1 <= |arrived|
    ensures arrived[..|after| - 1] == after[..|after| - 1] ==> |after| <= |before| + 1
  {
    if |after| > |before| + 1 {
      AheadOfSender(arrived, before, after, |before|);
      assert arrived[..|after| - 1][|before|] != after[..|after| - 1][|before|];
    }
  }

  lemma TrackStep(t: Track, arrived: seq<ChargingPeriod>, before: seq<ChargingPeriod>, after: seq<ChargingPeriod>,
                  arrives: bool)
    requires Means(t, arrived, before) && NotAhead(arrived, before)
    requires KeepsSlots(before, after) && StartsAscend(after)
    ensures Means(NextTrack(t, before, after, arrives), arrived + if arrives then PatchPeriods(after) else [], after)
  {
    if t.Lost? {
      LostStaysLost(arrived, before, after, arrives);
    } else if before != [] {
      KnownStep(t, arrived, before, after, arrives);
    } else if |after| == 2 && arrives {
      PatchTooEarly(arrived, after);
    }
  }

  lemma KnownStep(t: Track, arrived: seq<ChargingPeriod>, before: seq<ChargingPeriod>, after: seq<ChargingPeriod>,
                  arrives: bool)
    requires !t.Lost? && Means(t, arrived, before) && before != []
    requires KeepsSlots(before, after) && StartsAscend(after)
    ensures Means(NextTrack(t, before, after, arrives), arrived + if arrives then PatchPeriods(after) else [], after)
  {
    var m, m' := |before| - 1, |after| - 1;
    var arrived' := arrived + if arrives then PatchPeriods(after) else [];
    assert arrived[..m] == before[..m] == after[..m];
    if m' == m {
      assert arrived'[..m] == arrived[..m];
    } else if m' == m + 1 {
      OneMore(t, arrived, before, after, arrives);
    } else if |arrived| == m' - 1 && arrives {
      PatchTooEarly(arrived, after);
    }
  }

  lemma OneMore(t: Track, arrived: seq<ChargingPeriod>, before: seq<ChargingPeriod>, after: seq<ChargingPeriod>,
                arrives: bool)
    requires !t.Lost? && Means(t, arrived, before) && before != [] && |after| == |before| + 1
    requires KeepsSlots(before, after) && StartsAscend(after)
    ensures Means(NextTrack(t, before, after, arrives), arrived + if arrives then PatchPeriods(after) else [], after)
  {
    var m := |before| - 1;
    var arrived' := arrived + if arrives then PatchPeriods(after) else [];
    if t.Behind? {
      if arrives {
        PatchTooEarly(arrived, after);
      }
    } else if t.p == after[m] {
      assert arrived'[..m + 1] == arrived == arrived[..m] + [t.p] && after[..m + 1] == after[..m] + [after[m]];
    } else {
      assert arrived'[m] == t.p;
      WrongSlot(arrived', after, m);
    }
  }

  lemma {:induction false} TrackIsRight(put: seq<ChargingPeriod>, steps: seq<Step>)
    requires InTime(put, steps)
    ensures Means(TrackOf(put, steps), Arrived(put, steps), SentBy(put, steps))
    ensures NotAhead(Arrived(put, steps), SentBy(put, steps))
  {
    if steps == [] {
      AscendNotAhead(put);
    } else {
      var before := steps[..|steps| - 1];
      InTimePrefix(put, steps);
      TrackIsRight(put, before);
      SlotsKept(put, steps);
      var arrived, sent, after := Arrived(put, before), SentBy(put, before), SentBy(put, steps);
      TrackStep(TrackOf(put, before), arrived, sent, after, Arrives(put, steps));
      NotAheadStep(arrived, sent, after, Arrives(put, steps));
    }
  }

  lemma AscendNotAhead(sent: seq<ChargingPeriod>)
    requires StartsAscend(sent)
    ensures NotAhead(sent, sent)
  {
    forall x | x in sent ensures x.startDateTime <= sent[|sent| - 1].startDateTime {
      var i :| 0 <= i < |sent| && sent[i] == x;
      assert i < |sent| - 1 ==> sent[i].startDateTime < sent[|sent| - 1].startDateTime;
    }
  }

  /** The exact condition for agreement at any moment, of every run in order of time, whichever
      updates are skipped, sent, or lost on the way: the receiver's track holds the sender's last
      period. */
  lemma ArrivedExactly(put: seq<ChargingPeriod>, steps: seq<Step>)
    requires InTime(put, steps)
    ensures var sent := SentBy(put, steps);
            Arrived(put, steps) == sent
            <==> TrackOf(put, steps) == if sent == [] then Empty else Holds(sent[|sent| - 1])
  {
    TrackIsRight(put, steps);
    MeansAgreement(TrackOf(put, steps), Arrived(put, steps), SentBy(put, steps));
  }

  lemma MeansAgreement(t: Track, arrived: seq<ChargingPeriod>, sent: seq<ChargingPeriod>)
    requires Means(t, arrived, sent)
    ensures arrived == sent <==> t == if sent == [] then Empty else Holds(sent[|sent| - 1])
  {
    if t.Holds? {
      var m := |sent| - 1;
      assert arrived == arrived[..m] + [arrived[m]] && sent == sent[..m] + [sent[m]];
    }
  }

  /** A lost list stays lost, whatever comes. */
  lemma {:induction false} LostForGood(put: seq<ChargingPeriod>, steps: seq<Step>, more: seq<Step>)
    requires InTime(put, steps + more) && TrackOf(put, steps).Lost?
    ensures TrackOf(put, steps + more).Lost? && Arrived(put, steps + more) != SentBy(put, steps + more)
  {
    if more == [] {
      assert steps + more == steps;
    } else {
      var n := |steps + more| - 1;
      assert (steps + more)[..n] == steps + more[..|more| - 1];
      InTimePrefix(put, steps + more);
      LostForGood(put, steps, more[..|more| - 1]);
    }
    ArrivedExactly(put, steps + more);
  }

  // --------------------------------------------------------------------- periods lost

  lemma {:induction false} InTimeUpTo(put: seq<ChargingPeriod>, steps: seq<Step>, more: seq<Step>)
    requires InTime(put, steps + more)
    ensures InTime(put, steps)
  {
    if more == [] {
      assert steps + more == steps;
    } else {
      assert (steps + more)[..|steps + more| - 1] == steps + more[..|more| - 1];
      InTimePrefix(put, steps + more);
      InTimeUpTo(put, steps, more[..|more| - 1]);
    }
  }

  /** A period whose PATCH did not arrive, because the update came while another one was under
      way or because the push failed, is lost for good as soon as the next period is closed; until
      then any PATCH that arrives makes up for it. */
  lemma PeriodLostWithNext(put: seq<ChargingPeriod>, steps: seq<Step>, next: Step, more: seq<Step>)
    requires InTime(put, steps + [next] + more) && TrackOf(put, steps).Behind?
    ensures var t := TrackOf(put, steps + [next]);
            && (|SentBy(put, steps + [next])| > |SentBy(put, steps)| ==>
                  t.Lost? && Arrived(put, steps + [next] + more) != SentBy(put, steps + [next] + more))
            && (|SentBy(put, steps + [next])| == |SentBy(put, steps)| ==>
                  (Arrived(put, steps + [next]) == SentBy(put, steps + [next]) <==> Arrives(put, steps + [next])))
  {
    InTimeUpTo(put, steps + [next], more);
    assert (steps + [next])[..|steps|] == steps;
    InTimePrefix(put, steps + [next]);
    TrackIsRight(put, steps);
    SlotsKept(put, steps + [next]);
    ArrivedExactly(put, steps + [next]);
    if TrackOf(put, steps + [next]).Lost? {
      LostForGood(put, steps + [next], more);
    }
  }

  /** An update that closes one period and whose PATCH does not arrive leaves the receiver
      behind. */
  lemma MissedPeriod(put: seq<ChargingPeriod>, steps: seq<Step>)
    requires steps != [] && InTime(put, steps) && !Arrives(put, steps)
    requires var before := steps[..|steps| - 1];
             Arrived(put, before) == SentBy(put, before) && SentBy(put, steps) != []
             && AddsOne(SentBy(put, before), SentBy(put, steps))
    ensures TrackOf(put, steps).Behind?
  {
    InTimePrefix(put, steps);
    ArrivedExactly(put, steps[..|steps| - 1]);
    SlotsKept(put, steps);
  }

  /** Steps that bring no period and change nothing a fingerprint shows, with no clear between. */
  ghost predicate ShowsNothingNew(put: seq<ChargingPeriod>, steps: seq<Step>, quiet: seq<Step>)
    requires steps != []
  {
    quiet == []
    || (var last := quiet[|quiet| - 1];
        && ShowsNothingNew(put, steps, quiet[..|quiet| - 1])
        && |SentBy(put, steps + quiet)| == |SentBy(put, steps)|
        && SameHead(steps[|steps| - 1].head, last.head) && Cleared !in last.later)
  }

  /** The push of step j is the only one under way, and will be remembered, or was the last to
      return. */
  predicate OnlyPush(v: Service, j: nat) {
    v.open.Keys <= {j} && if j in v.open then v.marked && v.open[j].Some? else v.last == j
  }

  lemma {:induction false} OnlyPushStays(v: Service, later: seq<Happening>, j: nat)
    requires OnlyPush(v, j) && Cleared !in later
    ensures OnlyPush(AllHappened(v, later), j)
  {
    if later != [] {
      assert later[|later| - 1] in later;
      OnlyPushStays(v, later[..|later| - 1], j);
    }
  }

  /** Behind since step j, whose push is the one that counts. */
  ghost predicate WaitsSince(put: seq<ChargingPeriod>, steps: seq<Step>, j: nat) {
    && 0 < j <= |steps| && TrackOf(put, steps).Behind? && OnlyPush(Knows(put, steps), j)
    && |SentBy(put, steps)| == |SentBy(put, steps[..j])|
  }

  lemma QuietStep(put: seq<ChargingPeriod>, steps: seq<Step>, j: nat)
    requires steps != [] && InTime(put, steps) && WaitsSince(put, steps[..|steps| - 1], j)
    requires |SentBy(put, steps)| == |SentBy(put, steps[..j])|
    requires SameHead(steps[j - 1].head, steps[|steps| - 1].head) && Cleared !in steps[|steps| - 1].later
    ensures WaitsSince(put, steps, j)
  {
    assert steps[..|steps| - 1][..j] == steps[..j];
    QuietMemory(put, steps, j);
    BehindStays(put, steps);
  }

  lemma QuietMemory(put: seq<ChargingPeriod>, steps: seq<Step>, j: nat)
    requires 0 < j < |steps| && InTime(put, steps) && OnlyPush(Knows(put, steps[..|steps| - 1]), j)
    requires |SentBy(put, steps)| == |SentBy(put, steps[..j])|
    requires SameHead(steps[j - 1].head, steps[|steps| - 1].head) && Cleared !in steps[|steps| - 1].later
    ensures OnlyPush(Knows(put, steps), j) && !Arrives(put, steps)
  {
    NotSentExactly(put, steps);
    OnlyPushStays(Knows(put, steps[..|steps| - 1]), steps[|steps| - 1].later, j);
  }

  lemma BehindStays(put: seq<ChargingPeriod>, steps: seq<Step>)
    requires steps != [] && InTime(put, steps) && !Arrives(put, steps)
    requires TrackOf(put, steps[..|steps| - 1]).Behind?
    requires |SentBy(put, steps)| == |SentBy(put, steps[..|steps| - 1])|
    ensures TrackOf(put, steps).Behind?
  {
    InTimePrefix(put, steps);
    TrackIsRight(put, steps[..|steps| - 1]);
  }

  lemma {:induction false} QuietStaysBehind(put: seq<ChargingPeriod>, steps: seq<Step>, quiet: seq<Step>)
    requires steps != [] && InTime(put, steps + quiet) && ShowsNothingNew(put, steps, quiet)
    requires TrackOf(put, steps).Behind? && OnlyPush(Knows(put, steps), |steps|)
    ensures WaitsSince(put, steps + quiet, |steps|)
  {
    if quiet == [] {
      assert steps + quiet == steps && steps[..|steps|] == steps;
    } else {
      SplitLast(steps, quiet);
      InTimePrefix(put, steps + quiet);
      QuietStaysBehind(put, steps, quiet[..|quiet| - 1]);
      QuietStep(put, steps + quiet, |steps|);
    }
  }

  lemma SplitLast(steps: seq<Step>, quiet: seq<Step>)
    requires quiet != []
    ensures var all := steps + quiet;
            && all[..|all| - 1] == steps + quiet[..|quiet| - 1] && all[|all| - 1] == quiet[|quiet| - 1]
            && all[..|steps|] == steps && (steps != [] ==> all[|steps| - 1] == steps[|steps| - 1])
  {
  }

  lemma FirstPush(put: seq<ChargingPeriod>, steps: seq<Step>)
    requires steps != [] && Goes(put, steps) && Knows(put, steps[..|steps| - 1]).open == map[]
    requires !steps[|steps| - 1].fate.Raises? && Cleared !in steps[|steps| - 1].later
    ensures OnlyPush(Knows(put, steps), |steps|)
  {
    var v, last := Knows(put, steps[..|steps| - 1]), steps[|steps| - 1];
    OnlyPushStays(Departed(v, |steps|, last.fate, StepFingerprint(put, steps)), last.later, |steps|);
  }

  /** A PATCH that the partner failed is remembered like any other and never queued for a partner
      other than Gireve. So the period it carried never gets to the receiver, and the lists differ
      for good, if nothing a fingerprint shows changes before the next period is closed, whenever
      the push returns. */
  lemma FailedPatchLosesPeriod(put: seq<ChargingPeriod>, steps: seq<Step>, quiet: seq<Step>, next: Step,
                               more: seq<Step>)
    requires steps != [] && InTime(put, steps + quiet + [next] + more) && ShowsNothingNew(put, steps, quiet)
    requires var before, last := steps[..|steps| - 1], steps[|steps| - 1];
             && Arrived(put, before) == SentBy(put, before) && SentBy(put, steps) != []
             && AddsOne(SentBy(put, before), SentBy(put, steps))
             && Goes(put, steps) && last.fate.Fails? && Cleared !in last.later && Knows(put, before).open == map[]
    requires |SentBy(put, steps + quiet + [next])| > |SentBy(put, steps)|
    ensures Arrived(put, steps + quiet + [next] + more) != SentBy(put, steps + quiet + [next] + more)
  {
    InTimeUpTo(put, steps + quiet + [next], more);
    InTimeUpTo(put, steps + quiet, [next]);
    InTimeUpTo(put, steps, quiet);
    MissedPeriod(put, steps);
    FirstPush(put, steps);
    QuietStaysBehind(put, steps, quiet);
    assert (steps + quiet)[..|steps|] == steps;
    PeriodLostWithNext(put, steps + quiet, next, more);
  }

  /** An update that leaves the sender's list as it was, before or after the end of the session,
      spoils a list that was right if and only if it is sent and arrives. */
  lemma UpdateWithoutPeriod(put: seq<ChargingPeriod>, steps: seq<Step>)
    requires steps != [] && SentBy(put, steps) == SentBy(put, steps[..|steps| - 1]) != []
    requires Arrived(put, steps[..|steps| - 1]) == SentBy(put, steps[..|steps| - 1])
    ensures Arrived(put, steps) == SentBy(put, steps) <==> !Arrives(put, steps)
  {
  }

  /** And if it rewrites the closing period, what was charged in all having changed, the list is
      wrong whether it is sent or not; if it is sent, for good. */
  lemma RewrittenClosing(put: seq<ChargingPeriod>, steps: seq<Step>, more: seq<Step>)
    requires steps != [] && InTime(put, steps + more)
    requires var before, after := SentBy(put, steps[..|steps| - 1]), SentBy(put, steps);
             |after| == |before| && after != before
    requires Arrived(put, steps[..|steps| - 1]) == SentBy(put, steps[..|steps| - 1])
    ensures Arrived(put, steps) != SentBy(put, steps)
    ensures Arrives(put, steps) ==> Arrived(put, steps + more) != SentBy(put, steps + more)
  {
    InTimeUpTo(put, steps, more);
    InTimePrefix(put, steps);
    SlotsKept(put, steps);
    ArrivedExactly(put, steps[..|steps| - 1]);
    TrackIsRight(put, steps[..|steps| - 1]);
    if Arrives(put, steps) {
      LostForGood(put, steps, more);
      assert |Arrived(put, steps)| == |SentBy(put, steps)| + 1;
    }
  }
}
