/**
 Sending a session at most once (SessionBroadcastDedupeService, SessionBroadcaster): a send
 is skipped while one for the same transaction, partner and method is under way, or when the
 last one whose push returned had the same fingerprint. A push returns although the partner
 failed; it raises only when the partners cannot be listed.
 */
module SessionBroadcast {
  import opened Numbers
  import opened ChargingPeriods
  import opened ClientBroadcast
  import IncrementalSessions

  // ------------------------------------------------------------------------ keys

  function MethodText(verb: HttpMethod): string {
    match verb
    case Get => "GET" case PutMethod => "PUT" case Post => "POST" case PatchMethod => "PATCH" case Delete => "DELETE"
  }

  /** The decimal text of an id. */
  function Decimal(n: nat): string {
    if n < 10 then ["0123456789"[n]] else Decimal(n / 10) + ["0123456789"[n % 10]]
  }

  function KeyText(transactionId: string, partnerId: nat, verb: HttpMethod): string {
    transactionId + ":" + Decimal(partnerId) + ":" + MethodText(verb)
  }

  predicate StartsWith(text: string, prefix: string) {
    prefix <= text
  }

  ghost predicate NoColon(text: string) {
    forall i :: 0 <= i < |text| ==> text[i] != ':'
  }

  lemma DigitsDiffer(a: nat, b: nat)
    requires a < 10 && b < 10 && "0123456789"[a] == "0123456789"[b]
    ensures a == b
  {
  }

  lemma {:induction false} DecimalNoColon(n: nat)
    ensures Decimal(n) != [] && NoColon(Decimal(n))
  {
    if n >= 10 {
      DecimalNoColon(n / 10);
    }
  }

  lemma DecimalLast(n: nat)
    ensures Decimal(n) != [] && Decimal(n)[|Decimal(n)| - 1] == "0123456789"[n % 10]
    ensures |Decimal(n)| == 1 <==> n < 10
    ensures n >= 10 ==> Decimal(n)[..|Decimal(n)| - 1] == Decimal(n / 10)
  {
    if n >= 10 {
      DecimalNoColon(n / 10);
    }
  }

  lemma {:induction false} DecimalInjective(a: nat, b: nat)
    requires Decimal(a) == Decimal(b)
    ensures a == b
  {
    DecimalLast(a);
    DecimalLast(b);
    DigitsDiffer(a % 10, b % 10);
    if a >= 10 {
      DecimalInjective(a / 10, b / 10);
    }
  }

  lemma MethodTextFacts(a: HttpMethod, b: HttpMethod)
    ensures NoColon(MethodText(a))
    ensures MethodText(a) == MethodText(b) ==> a == b
  {
    if a != b {
      assert MethodText(a)[0] != MethodText(b)[0] || MethodText(a)[1] != MethodText(b)[1];
    }
  }

  lemma LastColon(a: string, b: string, i: nat)
    requires NoColon(b) && i < |a + ":" + b| && (a + ":" + b)[i] == ':'
    ensures i <= |a|
  {
    var text := a + ":" + b;
    assert forall k :: |a| < k < |text| ==> text[k] == b[k - |a| - 1];
  }

  /** A text splits at its last colon in one way only. */
  lemma LastColonSplits(a: string, b: string, a': string, b': string)
    requires NoColon(b) && NoColon(b')
    requires a + ":" + b == a' + ":" + b'
    ensures a == a' && b == b'
  {
    var text := a + ":" + b;
    LastColon(a, b, |a'|);
    LastColon(a', b', |a|);
    assert text[..|a|] == a && text[..|a'|] == a';
    assert text[|a| + 1..] == b && text[|a'| + 1..] == b';
  }

  /** Keys are injective for all ids, even ids with colons: partner and method have none. */
  lemma KeyInjective(t: string, p: nat, m: HttpMethod, t': string, p': nat, m': HttpMethod)
    requires KeyText(t, p, m) == KeyText(t', p', m')
    ensures t == t' && p == p' && m == m'
  {
    MethodTextFacts(m, m');
    MethodTextFacts(m', m);
    DecimalNoColon(p);
    DecimalNoColon(p');
    LastColonSplits(t + ":" + Decimal(p), MethodText(m), t' + ":" + Decimal(p'), MethodText(m'));
    LastColonSplits(t, Decimal(p), t', Decimal(p'));
    DecimalInjective(p, p');
  }

  /** The beginnings of a key that a colon follows: those of the transaction's id, the id
      itself, and the id with the partner's. */
  lemma PrefixOfKey(t: string, t': string, d: string, m: string)
    requires NoColon(d) && NoColon(m)
    ensures StartsWith(t' + ":" + d + ":" + m, t + ":")
       <==> t' == t || StartsWith(t', t + ":") || t == t' + ":" + d
  {
    var text, front := t' + ":" + d + ":" + m, t' + ":" + d;
    assert text[..|front|] == front && text[|front|] == ':' && text[..|t'|] == t' && text[|t'|] == ':';
    if StartsWith(text, t + ":") {
      assert text[..|t|] == t && text[|t|] == (t + ":")[|t|] == ':';
      LastColon(front, m, |t|);
      if |t| < |front| {
        assert front[|t|] == text[|t|];
        LastColon(t', d, |t|);
        assert |t| < |t'| ==> t + ":" == text[..|t| + 1] == t'[..|t| + 1];
      }
    }
    if t' == t || t == front {
      assert text[..|t| + 1] == t + ":";
    } else if StartsWith(t', t + ":") {
      assert text[..|t| + 1] == t'[..|t| + 1] == t + ":";
    }
  }

  /** Which keys clear(t) removes, whatever colons ids have: those of t itself, those of ids that
      continue t with a colon, and, where t is another id, a colon and the number of a partner,
      those of that id and partner. */
  lemma ClearedKeys(t: string, t': string, p: nat, m: HttpMethod)
    ensures StartsWith(KeyText(t', p, m), t + ":")
       <==> t' == t || StartsWith(t', t + ":") || t == t' + ":" + Decimal(p)
  {
    DecimalNoColon(p);
    MethodTextFacts(m, m);
    PrefixOfKey(t, t', Decimal(p), MethodText(m));
  }

  lemma ClearRemovesExactlyItsKeys(t: string, t': string, p: nat, m: HttpMethod)
    requires NoColon(t) && NoColon(t')
    ensures StartsWith(KeyText(t', p, m), t + ":") <==> t' == t
  {
    ClearedKeys(t, t', p, m);
    if StartsWith(t', t + ":") {
      PrefixBringsColon(t, t');
    }
    assert (t' + ":" + Decimal(p))[|t'|] == ':';
  }

  lemma PrefixBringsColon(t: string, t': string)
    requires StartsWith(t', t + ":")
    ensures !NoColon(t')
  {
    assert t'[|t|] == (t + ":")[|t|];
  }

  // ----------------------------------------------------------------- fingerprints

  /** The parts of Partial<Session> the fingerprint looks at. */
  datatype Body = Body(status: string, lastUpdated: Option<int>, kwh: Option<real>, endDateTime: Option<int>,
                       chargingPeriods: seq<ChargingPeriod>)

  datatype Fingerprint = Fingerprint(status: string, lastUpdated: Option<int>, kwh: real, endDateTime: Option<int>,
                                     periodCount: nat, lastPeriodStart: Option<int>)

  function FingerprintOf(body: Body): Fingerprint {
    var n := |body.chargingPeriods|;
    var kwh := RoundOcpi(if body.kwh.Some? then body.kwh.value else 0.0);
    Fingerprint(body.status, body.lastUpdated, kwh, body.endDateTime, n,
                if n == 0 then None else Some(body.chargingPeriods[n - 1].startDateTime))
  }

  /** Two bodies have one fingerprint exactly if they agree in status, last_updated, energy to four
      decimals, none counting as zero, end, number of periods and start of the last one. */
  lemma FingerprintsEqual(a: Body, b: Body)
    ensures FingerprintOf(a) == FingerprintOf(b)
       <==> var kwh, other := if a.kwh.Some? then a.kwh.value else 0.0, if b.kwh.Some? then b.kwh.value else 0.0;
            && a.status == b.status && a.lastUpdated == b.lastUpdated && a.endDateTime == b.endDateTime
            && RoundOcpi(kwh) == RoundOcpi(other)
            && |a.chargingPeriods| == |b.chargingPeriods|
            && (a.chargingPeriods != [] ==>
                  a.chargingPeriods[|a.chargingPeriods| - 1].startDateTime
                  == b.chargingPeriods[|b.chargingPeriods| - 1].startDateTime)
  {
  }

  /** What a PATCH takes from the transaction besides its periods; kwh before rounding. */
  datatype Head = Head(status: string, lastUpdated: Option<int>, kwh: real, endDateTime: Option<int>)

  function PatchBody(head: Head, periods: seq<ChargingPeriod>): Body {
    Body(head.status, head.lastUpdated, Some(RoundOcpi(head.kwh)), head.endDateTime,
         IncrementalSessions.PatchPeriods(periods))
  }

  /** Alike in all a fingerprint shows of them. */
  predicate SameHead(before: Head, after: Head) {
    (before.status, before.lastUpdated, RoundOcpi(before.kwh), before.endDateTime)
    == (after.status, after.lastUpdated, RoundOcpi(after.kwh), after.endDateTime)
  }

  /** Which PATCH has the fingerprint of the one before it: one that closes no period and whose
      status, last_updated, rounded kwh and end are those of the one before. A PATCH that closes
      a period never has, nor is there another way to tell two of them apart. */
  lemma SamePatchFingerprint(ctx: IncrementalSessions.Context, updates: seq<IncrementalSessions.Update>, before: Head,
                             after: Head)
    requires updates != [] && IncrementalSessions.InOrderOfTime(ctx, updates)
    ensures var periods := IncrementalSessions.Sent(ctx, updates);
            var earlier := IncrementalSessions.Sent(ctx, updates[..|updates| - 1]);
            FingerprintOf(PatchBody(before, earlier)) == FingerprintOf(PatchBody(after, periods))
            <==> |periods| == |earlier| && SameHead(before, after)
  {
    var periods := IncrementalSessions.Sent(ctx, updates);
    var earlier := IncrementalSessions.Sent(ctx, updates[..|updates| - 1]);
    IncrementalSessions.SentKeepsSlots(ctx, updates);
    var recorded := IncrementalSessions.Recorded(ctx, updates);
    PeriodsAscend(recorded, ctx.tariffId, ctx.start, IncrementalSessions.EndOf(updates));
    SameFingerprint(before, after, earlier, periods);
  }

  /** The same for any two lists of which the later one keeps the former one's places. */
  lemma SameFingerprint(before: Head, after: Head, earlier: seq<ChargingPeriod>, periods: seq<ChargingPeriod>)
    requires IncrementalSessions.KeepsSlots(earlier, periods) && IncrementalSessions.StartsAscend(periods)
    ensures FingerprintOf(PatchBody(before, earlier)) == FingerprintOf(PatchBody(after, periods))
       <==> |periods| == |earlier| && SameHead(before, after)
  {
    RoundTwice(before.kwh);
    RoundTwice(after.kwh);
    if earlier != [] && |periods| > |earlier| {
      assert periods[|earlier| - 1].startDateTime < periods[|periods| - 1].startDateTime;
    }
  }

  lemma RoundTwice(v: real)
    ensures RoundOcpi(RoundOcpi(v)) == RoundOcpi(v)
  {
    RoundError(v);
    RoundOnGrid(RoundOcpi(v));
  }

  type Fingerprints = map<string, Fingerprint>

  predicate ShouldSend(lastFingerprint: Fingerprints, inFlight: set<string>, key: string, fp: Fingerprint) {
    key !in inFlight && !(key in lastFingerprint && lastFingerprint[key] == fp)
  }

  function Without(lastFingerprint: Fingerprints, prefix: string): Fingerprints {
    map k | k in lastFingerprint && !StartsWith(k, prefix) :: lastFingerprint[k]
  }

  function WithoutKeys(keys: set<string>, prefix: string): set<string> {
    set k | k in keys && !StartsWith(k, prefix)
  }

  // ------------------------------------------------------------------- the service

  class DedupeService {
    var lastFingerprint: Fingerprints
    var inFlight: set<string>

    constructor ()
      ensures lastFingerprint == map[] && inFlight == {}
    {
      lastFingerprint := map[];
      inFlight := {};
    }

    method ShouldBroadcast(transactionId: string, partnerId: nat, verb: HttpMethod, body: Body) returns (should: bool)
      ensures should
           == ShouldSend(lastFingerprint, inFlight, KeyText(transactionId, partnerId, verb), FingerprintOf(body))
    {
      var k := KeyText(transactionId, partnerId, verb);
      if k in inFlight {
        return false;
      }
      if k in lastFingerprint && lastFingerprint[k] == FingerprintOf(body) {
        return false;
      }
      return true;
    }

    method MarkInFlight(transactionId: string, partnerId: nat, verb: HttpMethod)
      modifies this`inFlight
      ensures inFlight == old(inFlight) + {KeyText(transactionId, partnerId, verb)}
    {
      inFlight := inFlight + {KeyText(transactionId, partnerId, verb)};
    }

    method MarkSent(transactionId: string, partnerId: nat, verb: HttpMethod, body: Body)
      modifies this
      ensures lastFingerprint == old(lastFingerprint)[KeyText(transactionId, partnerId, verb) := FingerprintOf(body)]
      ensures inFlight == old(inFlight) - {KeyText(transactionId, partnerId, verb)}
    {
      var k := KeyText(transactionId, partnerId, verb);
      lastFingerprint := lastFingerprint[k := FingerprintOf(body)];
      inFlight := inFlight - {k};
    }

    method MarkFailed(transactionId: string, partnerId: nat, verb: HttpMethod)
      modifies this`inFlight
      ensures inFlight == old(inFlight) - {KeyText(transactionId, partnerId, verb)}
    {
      inFlight := inFlight - {KeyText(transactionId, partnerId, verb)};
    }

    /** Both collections are walked and matching keys deleted on the way. */
    method Clear(transactionId: string)
      modifies this
      ensures lastFingerprint == Without(old(lastFingerprint), transactionId + ":")
      ensures inFlight == WithoutKeys(old(inFlight), transactionId + ":")
    {
      var prefix := transactionId + ":";
      var todo := lastFingerprint.Keys;
      while todo != {}
        invariant inFlight == old(inFlight)
        invariant todo <= old(lastFingerprint).Keys
        invariant forall k :: k in lastFingerprint <==>
                    k in old(lastFingerprint) && (k in todo || !StartsWith(k, prefix))
        invariant forall k :: k in lastFingerprint ==> lastFingerprint[k] == old(lastFingerprint)[k]
        decreases todo
      {
        var k :| k in todo;
        if StartsWith(k, prefix) {
          lastFingerprint := lastFingerprint - {k};
        }
        todo := todo - {k};
      }
      assert lastFingerprint == Without(old(lastFingerprint), prefix);
      var pending := inFlight;
      while pending != {}
        invariant lastFingerprint == Without(old(lastFingerprint), prefix)
        invariant pending <= old(inFlight)
        invariant forall k :: k in inFlight <==> k in old(inFlight) && (k in pending || !StartsWith(k, prefix))
        decreases pending
      {
        var k :| k in pending;
        if StartsWith(k, prefix) {
          inFlight := inFlight - {k};
        }
        pending := pending - {k};
      }
    }

    /** broadcastSessionDeduped, with nothing else happening while the push is under way. The
        fingerprint is remembered exactly when the push does not raise. */
    method BroadcastDeduped(transactionId: string, partnerId: nat, verb: HttpMethod, body: Body, push: Push)
      returns (pushed: bool, raised: bool)
      modifies this
      ensures pushed
           == ShouldSend(old(lastFingerprint), old(inFlight),
                         KeyText(transactionId, partnerId, verb), FingerprintOf(body))
      ensures raised <==> pushed && push.Raised?
      ensures inFlight == old(inFlight)
      ensures lastFingerprint
           == if pushed && push.Answered?
              then old(lastFingerprint)[KeyText(transactionId, partnerId, verb) := FingerprintOf(body)]
              else old(lastFingerprint)
    {
      pushed := ShouldBroadcast(transactionId, partnerId, verb, body);
      raised := false;
      if !pushed {
        return;
      }
      MarkInFlight(transactionId, partnerId, verb);
      if push.Answered? {
        MarkSent(transactionId, partnerId, verb, body);
      } else {
        MarkFailed(transactionId, partnerId, verb);
        raised := true;
      }
    }
  }

  // ------------------------------------------------------------------ interleavings

  datatype Send = Send(transactionId: string, partnerId: nat, verb: HttpMethod, body: Body)

  /** A send whose push has returned: its fingerprint, and whether the partner answered. */
  datatype Return = Return(fingerprint: Fingerprint, answered: bool)

  /** The service and the sends under way; and, as a record, which of those were under way when
      their transaction was cleared, and for each key the sends that have returned since it was
      last cleared. */
  datatype System = System(
    lastFingerprint: Fingerprints,
    inFlight: set<string>,
    outstanding: map<nat, Send>,
    started: nat,
    cleared: set<nat>,
    returned: map<string, seq<Return>>)

  /** The check and the mark of a broadcast run without interruption; its end comes later. */
  datatype Event =
    | Broadcast(send: Send)
    | Finish(id: nat, push: Push)
    | Clear(transactionId: string)

  const Initial := System(map[], {}, map[], 0, {}, map[])

  function KeyOf(send: Send): string {
    KeyText(send.transactionId, send.partnerId, send.verb)
  }

  function ReturnsFor(s: System, key: string): seq<Return> {
    if key in s.returned then s.returned[key] else []
  }

  function Next(s: System, e: Event): System {
    match e
    case Broadcast(send) =>
      if ShouldSend(s.lastFingerprint, s.inFlight, KeyOf(send), FingerprintOf(send.body))
      then s.(inFlight := s.inFlight + {KeyOf(send)}, outstanding := s.outstanding[s.started := send],
              started := s.started + 1)
      else s
    case Finish(id, push) =>
      if id !in s.outstanding then s
      else Finished(s, id, KeyOf(s.outstanding[id]), FingerprintOf(s.outstanding[id].body), push)
    case Clear(transactionId) => Cleared(s, transactionId + ":")
  }

  function Finished(s: System, id: nat, key: string, fp: Fingerprint, push: Push): System {
    var s' := s.(inFlight := s.inFlight - {key}, outstanding := s.outstanding - {id}, cleared := s.cleared - {id});
    if push.Raised? then s'
    else s'.(lastFingerprint := s.lastFingerprint[key := fp],
             returned := s.returned[key := ReturnsFor(s, key) + [Return(fp, push.codes != [])]])
  }

  function Cleared(s: System, prefix: string): System {
    s.(lastFingerprint := Without(s.lastFingerprint, prefix),
       inFlight := WithoutKeys(s.inFlight, prefix),
       cleared := s.cleared + (set id | id in s.outstanding && StartsWith(KeyOf(s.outstanding[id]), prefix)),
       returned := map k | k in s.returned && !StartsWith(k, prefix) :: s.returned[k])
  }

  function After(s: System, events: seq<Event>): System {
    if events == [] then s else Next(After(s, events[..|events| - 1]), events[|events| - 1])
  }

  /** A broadcast of a key between a clear during one of its sends and that send's end. */
  ghost predicate BreaksIn(s: System, e: Event) {
    e.Broadcast? && exists id :: id in s.cleared && id in s.outstanding && KeyOf(s.outstanding[id]) == KeyOf(e.send)
  }

  ghost predicate Undisturbed(events: seq<Event>) {
    events == []
    || (Undisturbed(events[..|events| - 1]) && !BreaksIn(After(Initial, events[..|events| - 1]), events[|events| - 1]))
  }

  /** At most one send a key is under way. */
  ghost predicate OnePerKey(s: System) {
    forall i, j :: i in s.outstanding && j in s.outstanding
                   && KeyOf(s.outstanding[i]) == KeyOf(s.outstanding[j]) ==>
                     i == j
  }

  ghost predicate OnePerKeyThroughout(events: seq<Event>) {
    && OnePerKey(After(Initial, events))
    && (events == [] || OnePerKeyThroughout(events[..|events| - 1]))
  }

  /** What is in flight is under way; what is under way is in flight, unless it was cleared, and
      then nothing is known of its key. */
  ghost predicate FlightsMatch(s: System) {
    && (forall id :: id in s.outstanding ==> id in s.cleared || KeyOf(s.outstanding[id]) in s.inFlight)
    && (forall id :: id in s.cleared ==>
                       id in s.outstanding && KeyOf(s.outstanding[id]) !in s.inFlight
                       && KeyOf(s.outstanding[id]) !in s.lastFingerprint)
    && (forall k :: k in s.inFlight ==> exists id :: id in s.outstanding && KeyOf(s.outstanding[id]) == k)
  }

  /** No two consecutive sends that returned share a fingerprint. */
  ghost predicate NoRepeats(history: seq<Return>) {
    forall i :: 0 <= i < |history| - 1 ==> history[i].fingerprint != history[i + 1].fingerprint
  }

  /** The stored fingerprint of a key is that of the last send that returned. */
  ghost predicate HistoryFits(s: System) {
    forall k ::
      && NoRepeats(ReturnsFor(s, k))
      && (k in s.lastFingerprint <==> ReturnsFor(s, k) != [])
      && (k in s.lastFingerprint ==> s.lastFingerprint[k] == ReturnsFor(s, k)[|ReturnsFor(s, k)| - 1].fingerprint)
  }

  /** A send under way says something else than the last one that returned. */
  ghost predicate SendsDiffer(s: System) {
    forall id :: id in s.outstanding && KeyOf(s.outstanding[id]) in s.lastFingerprint ==>
                   s.lastFingerprint[KeyOf(s.outstanding[id])] != FingerprintOf(s.outstanding[id].body)
  }

  ghost predicate Inv(s: System) {
    && (forall id :: id in s.outstanding ==> id < s.started)
    && OnePerKey(s) && FlightsMatch(s) && HistoryFits(s) && SendsDiffer(s)
  }

  // --------------------------------------------------------------------- broadcasts

  lemma FreeKey(s: System, e: Event)
    requires FlightsMatch(s) && e.Broadcast? && KeyOf(e.send) !in s.inFlight && !BreaksIn(s, e)
    ensures forall id :: id in s.outstanding ==> KeyOf(s.outstanding[id]) != KeyOf(e.send)
  {
    forall id | id in s.outstanding ensures KeyOf(s.outstanding[id]) != KeyOf(e.send) {
      assert id in s.cleared ==> KeyOf(s.outstanding[id]) != KeyOf(e.send);
    }
  }

  lemma BroadcastKeepsInv(s: System, e: Event)
    requires Inv(s) && e.Broadcast? && !BreaksIn(s, e)
    ensures Inv(Next(s, e))
  {
    var s' := Next(s, e);
    if s' != s {
      FreeKey(s, e);
      BroadcastKeepsFlights(s, s', e.send);
      BroadcastKeepsHistory(s, s', e.send);
    }
  }

  lemma BroadcastKeepsHistory(s: System, s': System, send: Send)
    requires HistoryFits(s) && SendsDiffer(s)
    requires ShouldSend(s.lastFingerprint, s.inFlight, KeyOf(send), FingerprintOf(send.body))
    requires s'.outstanding == s.outstanding[s.started := send]
    requires s'.lastFingerprint == s.lastFingerprint && s'.returned == s.returned
    ensures HistoryFits(s') && SendsDiffer(s')
  {
    assert forall k :: ReturnsFor(s', k) == ReturnsFor(s, k);
  }

  lemma BroadcastKeepsFlights(s: System, s': System, send: Send)
    requires OnePerKey(s) && FlightsMatch(s) && s.started !in s.outstanding
    requires forall id :: id in s.outstanding ==> KeyOf(s.outstanding[id]) != KeyOf(send)
    requires s'.outstanding == s.outstanding[s.started := send] && s'.inFlight == s.inFlight + {KeyOf(send)}
    requires s'.cleared == s.cleared && s'.lastFingerprint == s.lastFingerprint
    ensures OnePerKey(s') && FlightsMatch(s')
  {
    forall id | id in s'.cleared
      ensures id in s'.outstanding && KeyOf(s'.outstanding[id]) !in s'.inFlight
              && KeyOf(s'.outstanding[id]) !in s'.lastFingerprint
    {
      assert id in s.outstanding && s'.outstanding[id] == s.outstanding[id];
    }
    forall k | k in s'.inFlight ensures exists id :: id in s'.outstanding && KeyOf(s'.outstanding[id]) == k {
      if k == KeyOf(send) {
        assert s.started in s'.outstanding;
      } else {
        var id :| id in s.outstanding && KeyOf(s.outstanding[id]) == k;
        assert id in s'.outstanding && s'.outstanding[id] == s.outstanding[id];
      }
    }
  }

  lemma BroadcastBreaks(s: System, e: Event)
    requires Inv(s) && BreaksIn(s, e)
    ensures !OnePerKey(Next(s, e))
  {
    var id :| id in s.cleared && id in s.outstanding && KeyOf(s.outstanding[id]) == KeyOf(e.send);
    var s' := Next(s, e);
    assert s'.outstanding[id] == s.outstanding[id] && s'.outstanding[s.started] == e.send && id != s.started;
  }

  // ----------------------------------------------------------------------- endings

  lemma EndKeepsFlights(s: System, s': System, id: nat)
    requires OnePerKey(s) && FlightsMatch(s) && id in s.outstanding
    requires s'.outstanding == s.outstanding - {id} && s'.inFlight == s.inFlight - {KeyOf(s.outstanding[id])}
    requires s'.cleared == s.cleared - {id}
    requires forall k :: k in s'.lastFingerprint ==> k in s.lastFingerprint || k == KeyOf(s.outstanding[id])
    ensures OnePerKey(s') && FlightsMatch(s')
  {
    forall k | k in s'.inFlight ensures exists i :: i in s'.outstanding && KeyOf(s'.outstanding[i]) == k {
      var i :| i in s.outstanding && KeyOf(s.outstanding[i]) == k;
      assert i in s'.outstanding;
    }
  }

  lemma FinishKeepsInv(s: System, e: Event)
    requires Inv(s) && e.Finish?
    ensures Inv(Next(s, e))
  {
    if e.id in s.outstanding {
      var s', send := Next(s, e), s.outstanding[e.id];
      EndKeepsFlights(s, s', e.id);
      if e.push.Raised? {
        assert forall k :: ReturnsFor(s', k) == ReturnsFor(s, k);
      } else {
        ReturnKeepsHistory(s, s', KeyOf(send), Return(FingerprintOf(send.body), e.push.codes != []));
        ReturnKeepsDiffering(s, s', e.id, FingerprintOf(send.body));
      }
    }
  }

  lemma AppendNoRepeats(history: seq<Return>, r: Return)
    requires NoRepeats(history) && (history == [] || history[|history| - 1].fingerprint != r.fingerprint)
    ensures NoRepeats(history + [r])
  {
  }

  lemma ReturnKeepsHistory(s: System, s': System, key: string, r: Return)
    requires HistoryFits(s) && (key in s.lastFingerprint ==> s.lastFingerprint[key] != r.fingerprint)
    requires s'.lastFingerprint == s.lastFingerprint[key := r.fingerprint]
    requires s'.returned == s.returned[key := ReturnsFor(s, key) + [r]]
    ensures HistoryFits(s')
  {
    AppendNoRepeats(ReturnsFor(s, key), r);
    forall k
      ensures NoRepeats(ReturnsFor(s', k))
      ensures k in s'.lastFingerprint <==> ReturnsFor(s', k) != []
      ensures k in s'.lastFingerprint ==>
                s'.lastFingerprint[k] == ReturnsFor(s', k)[|ReturnsFor(s', k)| - 1].fingerprint
    {
      assert ReturnsFor(s', k) == if k == key then ReturnsFor(s, key) + [r] else ReturnsFor(s, k);
    }
  }

  lemma ReturnKeepsDiffering(s: System, s': System, id: nat, fp: Fingerprint)
    requires OnePerKey(s) && SendsDiffer(s) && id in s.outstanding
    requires s'.lastFingerprint == s.lastFingerprint[KeyOf(s.outstanding[id]) := fp]
    requires s'.outstanding == s.outstanding - {id}
    ensures SendsDiffer(s')
  {
  }

  // ------------------------------------------------------------------------ clears

  lemma ClearKeepsFlights(s: System, prefix: string)
    requires FlightsMatch(s)
    ensures FlightsMatch(Cleared(s, prefix))
  {
    var s' := Cleared(s, prefix);
    forall k | k in s'.inFlight ensures exists i :: i in s'.outstanding && KeyOf(s'.outstanding[i]) == k {
      var i :| i in s.outstanding && KeyOf(s.outstanding[i]) == k;
      assert i in s'.outstanding;
    }
  }

  lemma ClearKeepsHistory(s: System, prefix: string)
    requires HistoryFits(s)
    ensures HistoryFits(Cleared(s, prefix))
  {
    var s' := Cleared(s, prefix);
    forall k
      ensures NoRepeats(ReturnsFor(s', k)) && (k in s'.lastFingerprint <==> ReturnsFor(s', k) != [])
      ensures k in s'.lastFingerprint ==>
                s'.lastFingerprint[k] == ReturnsFor(s', k)[|ReturnsFor(s', k)| - 1].fingerprint
    {
      assert ReturnsFor(s', k) == if StartsWith(k, prefix) then [] else ReturnsFor(s, k);
    }
  }

  lemma ClearKeepsInv(s: System, e: Event)
    requires Inv(s) && e.Clear?
    ensures Inv(Next(s, e))
  {
    ClearKeepsFlights(s, e.transactionId + ":");
    ClearKeepsHistory(s, e.transactionId + ":");
  }

  // ------------------------------------------------------------------ main results

  lemma StepKeepsInv(s: System, e: Event)
    requires Inv(s) && !BreaksIn(s, e)
    ensures Inv(Next(s, e))
  {
    match e
    case Broadcast(_) => BroadcastKeepsInv(s, e);
    case Finish(_, _) => FinishKeepsInv(s, e);
    case Clear(_) => ClearKeepsInv(s, e);
  }

  /** In every interleaving of broadcasts, ends of sends and clears, unless a broadcast of a key
      falls between a clear during one of its sends and that send's end: at most one send is
      under way for each key, and two consecutive ones that returned never have the same
      fingerprint. */
  lemma {:induction false} SendsAreSafe(events: seq<Event>)
    requires Undisturbed(events)
    ensures Inv(After(Initial, events))
  {
    if events != [] {
      SendsAreSafe(events[..|events| - 1]);
      StepKeepsInv(After(Initial, events[..|events| - 1]), events[|events| - 1]);
    }
  }

  /** The exact condition: at most one send a key is under way after every step if and only if
      no broadcast of a key falls between a clear during one of its sends and that send's
      end. */
  lemma {:induction false} OneSendExactly(events: seq<Event>)
    ensures OnePerKeyThroughout(events) <==> Undisturbed(events)
  {
    if events != [] {
      var before, e := events[..|events| - 1], events[|events| - 1];
      OneSendExactly(before);
      if Undisturbed(before) {
        SendsAreSafe(before);
        if BreaksIn(After(Initial, before), e) {
          BroadcastBreaks(After(Initial, before), e);
        } else {
          StepKeepsInv(After(Initial, before), e);
        }
      }
    }
  }

  lemma AtMostOneSend(events: seq<Event>, i: nat, j: nat)
    requires Undisturbed(events)
    ensures var s := After(Initial, events);
            i in s.outstanding && j in s.outstanding && i != j ==>
              (s.outstanding[i].transactionId, s.outstanding[i].partnerId, s.outstanding[i].verb)
              != (s.outstanding[j].transactionId, s.outstanding[j].partnerId, s.outstanding[j].verb)
  {
    SendsAreSafe(events);
  }

  /** A clear in the middle of a send lets a second one start: two sends with the very same
      body under way at once. */
  lemma ClearDuringSendAllowsTwo(send: Send)
    ensures var s := After(Initial, [Broadcast(send), Clear(send.transactionId), Broadcast(send)]);
            0 in s.outstanding && 1 in s.outstanding && s.outstanding[0] == s.outstanding[1] == send
  {
    var e0, e1 := Broadcast(send), Clear(send.transactionId);
    var s1 := Next(Initial, e0);
    var s2 := Next(s1, e1);
    var prefix := send.transactionId + ":";
    assert KeyOf(send) == prefix + (Decimal(send.partnerId) + ":" + MethodText(send.verb));
    assert StartsWith(KeyOf(send), prefix);
    assert KeyOf(send) !in s2.inFlight && KeyOf(send) !in s2.lastFingerprint;
    AfterThree(e0, e1, e0);
  }

  lemma AfterThree(e0: Event, e1: Event, e2: Event)
    ensures After(Initial, [e0, e1, e2]) == Next(Next(Next(Initial, e0), e1), e2)
  {
    assert [e0, e1, e2][..2] == [e0, e1] && [e0, e1][..1] == [e0] && [e0][..0] == [];
    assert After(Initial, [e0]) == Next(Initial, e0);
    assert After(Initial, [e0, e1]) == Next(Next(Initial, e0), e1);
  }

  // ------------------------------------------------------------------ pushes that fail

  /** Whether the same body is sent again right after: exactly if the push raised. A push that
      came back is remembered, whether or not the partner answered. */
  lemma ResentExactly(events: seq<Event>, id: nat, push: Push)
    requires Undisturbed(events) && id in After(Initial, events).outstanding
    ensures var s := After(Initial, events);
            var send, s' := s.outstanding[id], Next(s, Finish(id, push));
            && ShouldSend(s'.lastFingerprint, s'.inFlight, KeyOf(send), FingerprintOf(send.body)) == push.Raised?
            && (push.Answered? ==> Remembers(s', KeyOf(send), FingerprintOf(send.body)))
  {
    SendsAreSafe(events);
  }

  /** The fingerprint is the last one of its key, and no send of the key is under way. */
  ghost predicate Remembers(s: System, key: string, fp: Fingerprint) {
    && key in s.lastFingerprint && s.lastFingerprint[key] == fp
    && forall id :: id in s.outstanding ==> KeyOf(s.outstanding[id]) != key
  }

  /** Nothing that would make the service forget: no clear of the key, and no other body. */
  ghost predicate NothingNew(events: seq<Event>, key: string, fp: Fingerprint) {
    forall k :: 0 <= k < |events| ==>
                  && (events[k].Clear? ==> !StartsWith(key, events[k].transactionId + ":"))
                  && (events[k].Broadcast? && KeyOf(events[k].send) == key ==> FingerprintOf(events[k].send.body) == fp)
  }

  /** So a push the partner never answered, a PATCH say, is not sent again under that
      fingerprint, however often it is broadcast, until the transaction is cleared or something
      else is to be said. */
  lemma {:induction false} FailedPushIsNotResent(s: System, events: seq<Event>, key: string, fp: Fingerprint)
    requires Remembers(s, key, fp) && NothingNew(events, key, fp)
    ensures var t := After(s, events); Remembers(t, key, fp) && ReturnsFor(t, key) == ReturnsFor(s, key)
  {
    if events != [] {
      var before, e := events[..|events| - 1], events[|events| - 1];
      assert forall k :: 0 <= k < |before| ==> before[k] == events[k];
      FailedPushIsNotResent(s, before, key, fp);
      RememberStep(After(s, before), e, key, fp);
    }
  }

  lemma RememberStep(s: System, e: Event, key: string, fp: Fingerprint)
    requires Remembers(s, key, fp)
    requires e.Clear? ==> !StartsWith(key, e.transactionId + ":")
    requires e.Broadcast? && KeyOf(e.send) == key ==> FingerprintOf(e.send.body) == fp
    ensures Remembers(Next(s, e), key, fp) && ReturnsFor(Next(s, e), key) == ReturnsFor(s, key)
  {
  }

  /** Two sends of a key that the partner answered, none of those between having been answered,
      share a fingerprint only if one between, with another fingerprint, was not answered. */
  lemma RepeatNeedsAFailureBetween(events: seq<Event>, key: string, i: nat, j: nat)
    requires Undisturbed(events) && i < j < |ReturnsFor(After(Initial, events), key)|
    requires forall m :: i < m < j ==> !ReturnsFor(After(Initial, events), key)[m].answered
    requires ReturnsFor(After(Initial, events), key)[i].fingerprint
          == ReturnsFor(After(Initial, events), key)[j].fingerprint
    ensures var history := ReturnsFor(After(Initial, events), key);
            exists m :: i < m < j && !history[m].answered && history[m].fingerprint != history[i].fingerprint
  {
    SendsAreSafe(events);
    var history := ReturnsFor(After(Initial, events), key);
    assert NoRepeats(history);
    assert history[i].fingerprint != history[i + 1].fingerprint;
  }

  /** And then it happens: one body answered, another not, the first answered again. */
  lemma AnsweredTwice(a: Send, b: Send)
    requires KeyOf(a) == KeyOf(b) && FingerprintOf(a.body) != FingerprintOf(b.body)
    ensures var yes, no := Answered([Some(1000)], false, false), Answered([], true, true);
            var s3 := Next(Next(Next(Next(Initial, Broadcast(a)), Finish(0, yes)), Broadcast(b)), Finish(1, no));
            var s := Next(Next(s3, Broadcast(a)), Finish(2, yes));
            var fa, fb := FingerprintOf(a.body), FingerprintOf(b.body);
            ReturnsFor(s, KeyOf(a)) == [Return(fa, true), Return(fb, false), Return(fa, true)]
  {
    var yes, no := Answered([Some(1000)], false, false), Answered([], true, true);
    var k := KeyOf(a);
    var s1 := Next(Next(Initial, Broadcast(a)), Finish(0, yes));
    assert s1.outstanding == map[] && s1.inFlight == {} && s1.started == 1;
    assert ReturnsFor(s1, k) == [Return(FingerprintOf(a.body), true)];
    var s2 := Next(Next(s1, Broadcast(b)), Finish(1, no));
    assert s2.outstanding == map[] && s2.inFlight == {} && s2.started == 2;
    assert ReturnsFor(s2, k) == [Return(FingerprintOf(a.body), true), Return(FingerprintOf(b.body), false)];
  }
}
