/**
 What pulling a location makes of its EVSEs and connectors: an upsert writes those the partner
 sent (LocationReceiverService), and a reconciliation removes those it did not send
 (LocationsPullService).
 */
module LocationTables {
  import opened Numbers

  datatype Location = Location(
    ocpiId: Option<string>,
    partnerId: nat,
    roamingPartnerId: Option<nat>,
    deletedAt: Option<int>)
  datatype Evse = Evse(locationId: nat, ocpiUid: Option<string>, ocpiStatus: string, removed: Option<bool>)
  datatype Connector = Connector(evseId: nat, ocpiId: Option<string>, deletedAt: Option<int>)

  type Locations = map<nat, Location>
  type Evses = map<nat, Evse>
  type Connectors = map<nat, Connector>

  /** An EVSE as the partner sends it. */
  datatype EvseDTO = EvseDTO(uid: string, status: string, connectors: seq<string>)

  const REMOVED := "REMOVED"

  // ---------------------------------------------------------------- reconciliation

  /** The connector ids listed under each uid. Filling a Map, a repeated uid overwrites. */
  function Listed(payload: seq<EvseDTO>): map<string, set<string>> {
    if payload == [] then map[]
    else
      var last := payload[|payload| - 1];
      Listed(payload[..|payload| - 1])[last.uid := set c | c in last.connectors]
  }

  /** The EVSEs of a location that are looked at. */
  predicate Examined(evse: Evse, locationId: nat) {
    evse.locationId == locationId && evse.ocpiUid.Some? && evse.removed != Some(true)
  }

  predicate EvseGone(evse: Evse, payload: seq<EvseDTO>, full: bool) {
    full && evse.ocpiUid.Some? && evse.ocpiUid.value !in Listed(payload)
  }

  /** The connector ids the payload lists for an EVSE, none if the EVSE is not in it. */
  function ListedFor(evse: Evse, payload: seq<EvseDTO>): set<string> {
    if evse.ocpiUid.Some? && evse.ocpiUid.value in Listed(payload) then Listed(payload)[evse.ocpiUid.value] else {}
  }

  /** What a reconciliation makes of one EVSE and of one connector. */
  function EvseAfter(evse: Evse, locationId: nat, payload: seq<EvseDTO>, full: bool): Evse {
    if Examined(evse, locationId) && EvseGone(evse, payload, full) then evse.(ocpiStatus := REMOVED) else evse
  }

  function ConnectorAfter(c: Connector, evses: Evses, locationId: nat, payload: seq<EvseDTO>, full: bool,
                          now: int): Connector {
    if c.evseId in evses && Examined(evses[c.evseId], locationId) && !EvseGone(evses[c.evseId], payload, full)
    then Unlisted(c, ListedFor(evses[c.evseId], payload), now)
    else c
  }

  function EvsesAfter(evses: Evses, locationId: nat, payload: seq<EvseDTO>, full: bool): Evses {
    map id | id in evses :: EvseAfter(evses[id], locationId, payload, full)
  }

  function ConnectorsAfter(connectors: Connectors, evses: Evses, locationId: nat, payload: seq<EvseDTO>, full: bool,
                           now: int)
    : Connectors
  {
    map id | id in connectors :: ConnectorAfter(connectors[id], evses, locationId, payload, full, now)
  }

  /** A connector once its EVSE's listed ids are settled. */
  function Unlisted(c: Connector, listed: set<string>, now: int): Connector {
    if c.deletedAt.None? && !(c.ocpiId.Some? && c.ocpiId.value in listed) then c.(deletedAt := Some(now)) else c
  }

  /** Rows as a reconciliation that stopped on the way leaves them: each as before or done. */
  ghost predicate PartlyDone<T>(rows: map<nat, T>, before: map<nat, T>, done: map<nat, T>) {
    rows.Keys == before.Keys == done.Keys && forall id :: id in rows ==> rows[id] == before[id] || rows[id] == done[id]
  }

  /** The connectors of one EVSE settled, or only some of them. */
  ghost predicate UnlistedFrom(connectors: Connectors, connectors': Connectors, evseId: nat, listed: set<string>,
                               now: int, ok: bool) {
    && connectors'.Keys == connectors.Keys
    && (forall c :: c in connectors ==>
                      if connectors[c].evseId != evseId then connectors'[c] == connectors[c]
                      else connectors'[c] == Unlisted(connectors[c], listed, now)
                           || (!ok && connectors'[c] == connectors[c]))
  }

  // ------------------------------------------------------------------------ upserts

  /** The status a payload leaves an EVSE with: that of the last one with its uid. */
  function Statuses(payload: seq<EvseDTO>): map<string, string> {
    if payload == [] then map[]
    else Statuses(payload[..|payload| - 1])[payload[|payload| - 1].uid := payload[|payload| - 1].status]
  }

  function NamedBy(uid: string, names: seq<string>): set<(string, string)> {
    set name | name in names :: (uid, name)
  }

  /** Every connector a payload names, with the uid of its EVSE. */
  function Named(payload: seq<EvseDTO>): set<(string, string)> {
    if payload == [] then {}
    else
      var last := payload[|payload| - 1];
      Named(payload[..|payload| - 1]) + NamedBy(last.uid, last.connectors)
  }

  predicate IsEvse(evse: Evse, locationId: nat, uid: string) {
    evse.locationId == locationId && evse.ocpiUid == Some(uid)
  }

  predicate IsConnector(c: Connector, evses: Evses, locationId: nat, uid: string, name: string) {
    c.evseId in evses && IsEvse(evses[c.evseId], locationId, uid) && c.ocpiId == Some(name)
  }

  ghost predicate HasEvse(evses: Evses, locationId: nat, uid: string) {
    exists e :: e in evses && IsEvse(evses[e], locationId, uid)
  }

  ghost predicate HasConnector(connectors: Connectors, evses: Evses, locationId: nat, uid: string, name: string) {
    exists c :: c in connectors && IsConnector(connectors[c], evses, locationId, uid, name)
  }

  function WithStatus(evse: Evse, locationId: nat, statuses: map<string, string>): Evse {
    if evse.locationId == locationId && evse.ocpiUid.Some? && evse.ocpiUid.value in statuses
    then evse.(ocpiStatus := statuses[evse.ocpiUid.value])
    else evse
  }

  /** The EVSEs of a location upserted with these statuses: those it has take on theirs, new ones
      are not removed, and each of them has a row. */
  ghost predicate EvsesUpserted(evses: Evses, evses': Evses, locationId: nat, statuses: map<string, string>) {
    && (forall e :: e in evses ==> e in evses' && evses'[e] == WithStatus(evses[e], locationId, statuses))
    && (forall e :: e in evses' && e !in evses ==>
                      && evses'[e].ocpiUid.Some? && evses'[e].ocpiUid.value in statuses
                      && evses'[e] == Evse(locationId, evses'[e].ocpiUid, statuses[evses'[e].ocpiUid.value], None))
    && (forall uid {:trigger HasEvse(evses', locationId, uid)} :: uid in statuses ==> HasEvse(evses', locationId, uid))
  }

  /** The connectors of a location upserted: each has a row, those there were are as they were, a
      deletion mark included. */
  ghost predicate ConnectorsUpserted(connectors: Connectors, connectors': Connectors, evses: Evses, locationId: nat,
                                     named: set<(string, string)>) {
    && (forall c :: c in connectors ==> c in connectors' && connectors'[c] == connectors[c])
    && (forall c :: c in connectors' && c !in connectors ==> IsNamed(connectors'[c], evses, locationId, named))
    && (forall uid, name {:trigger HasConnector(connectors', evses, locationId, uid, name)} ::
          (uid, name) in named ==> HasConnector(connectors', evses, locationId, uid, name))
  }

  predicate IsNamed(c: Connector, evses: Evses, locationId: nat, named: set<(string, string)>) {
    && c.deletedAt.None? && c.evseId in evses && c.ocpiId.Some?
    && evses[c.evseId].locationId == locationId && evses[c.evseId].ocpiUid.Some?
    && (evses[c.evseId].ocpiUid.value, c.ocpiId.value) in named
  }

  /** The unique keys of the two tables. */
  ghost predicate UniqueEvses(evses: Evses) {
    forall e, f, locationId, uid ::
      e in evses && f in evses && IsEvse(evses[e], locationId, uid) && IsEvse(evses[f], locationId, uid) ==> e == f
  }

  predicate SameConnector(c: Connector, d: Connector) {
    c.ocpiId.Some? && c.ocpiId == d.ocpiId && c.evseId == d.evseId
  }

  ghost predicate UniqueConnectors(connectors: Connectors) {
    forall c, d :: c in connectors && d in connectors && SameConnector(connectors[c], connectors[d]) ==> c == d
  }

  /** Rows keep their location and uid. */
  ghost predicate EvsesStay(evses: Evses, evses': Evses) {
    forall e :: e in evses ==>
                  e in evses' && evses'[e].locationId == evses[e].locationId && evses'[e].ocpiUid == evses[e].ocpiUid
  }

  lemma NextEvse(evses: Evses, mid: Evses, after: Evses, locationId: nat, statuses: map<string, string>, uid: string,
                 status: string)
    requires EvsesUpserted(evses, mid, locationId, statuses)
    requires EvsesUpserted(mid, after, locationId, map[uid := status])
    ensures EvsesUpserted(evses, after, locationId, statuses[uid := status])
  {
    forall u | u in statuses && u != uid ensures HasEvse(after, locationId, u) {
      EvseIsKept(mid, after, locationId, u);
    }
    assert HasEvse(after, locationId, uid);
  }

  lemma EvseIsKept(evses: Evses, evses': Evses, locationId: nat, uid: string)
    requires HasEvse(evses, locationId, uid) && EvsesStay(evses, evses')
    ensures HasEvse(evses', locationId, uid)
  {
    var e :| e in evses && IsEvse(evses[e], locationId, uid);
    assert IsEvse(evses'[e], locationId, uid);
  }

  lemma ConnectorsStay(connectors: Connectors, connectors': Connectors, evses: Evses, evses': Evses, locationId: nat,
                       named: set<(string, string)>)
    requires ConnectorsUpserted(connectors, connectors', evses, locationId, named) && EvsesStay(evses, evses')
    ensures ConnectorsUpserted(connectors, connectors', evses', locationId, named)
  {
    forall uid, name | (uid, name) in named ensures HasConnector(connectors', evses', locationId, uid, name) {
      ConnectorIsKept(connectors', connectors', evses, evses', locationId, uid, name);
    }
  }

  lemma ConnectorIsKept(connectors: Connectors, connectors': Connectors, evses: Evses, evses': Evses, locationId: nat,
                        uid: string, name: string)
    requires HasConnector(connectors, evses, locationId, uid, name) && EvsesStay(evses, evses')
    requires RowsStay(connectors, connectors')
    ensures HasConnector(connectors', evses', locationId, uid, name)
  {
    var c :| c in connectors && IsConnector(connectors[c], evses, locationId, uid, name);
    assert IsConnector(connectors'[c], evses', locationId, uid, name);
  }

  /** Rows keep their EVSE and id. */
  ghost predicate RowsStay(connectors: Connectors, connectors': Connectors) {
    forall c :: c in connectors ==>
                  && c in connectors' && connectors'[c].evseId == connectors[c].evseId
                  && connectors'[c].ocpiId == connectors[c].ocpiId
  }

  lemma NextConnector(connectors: Connectors, mid: Connectors, after: Connectors, evses: Evses, locationId: nat,
                      named: set<(string, string)>, uid: string, name: string)
    requires ConnectorsUpserted(connectors, mid, evses, locationId, named)
    requires ConnectorsUpserted(mid, after, evses, locationId, {(uid, name)})
    ensures ConnectorsUpserted(connectors, after, evses, locationId, named + {(uid, name)})
  {
    forall u, n | (u, n) in named ensures HasConnector(after, evses, locationId, u, n) {
      ConnectorIsKept(mid, after, evses, evses, locationId, u, n);
    }
  }

  lemma NamedNext(payload: seq<EvseDTO>, k: nat)
    requires k < |payload|
    ensures Statuses(payload[..k + 1]) == Statuses(payload[..k])[payload[k].uid := payload[k].status]
    ensures Named(payload[..k + 1]) == Named(payload[..k]) + NamedBy(payload[k].uid, payload[k].connectors)
  {
    assert payload[..k + 1][..k] == payload[..k];
  }

  lemma NamedByNext(uid: string, names: seq<string>, k: nat)
    requires k < |names|
    ensures NamedBy(uid, names[..k + 1]) == NamedBy(uid, names[..k]) + {(uid, names[k])}
  {
    assert names[..k + 1] == names[..k] + [names[k]];
  }

  lemma {:induction false} NamedPrefix(payload: seq<EvseDTO>, k: nat)
    requires k <= |payload|
    ensures Named(payload[..k]) <= Named(payload)
  {
    if k == |payload| {
      assert payload[..k] == payload;
    } else {
      assert payload[..|payload| - 1][..k] == payload[..k];
      NamedPrefix(payload[..|payload| - 1], k);
    }
  }

  /** What is listed has a status, and what is listed for an EVSE is named. */
  lemma {:induction false} ListedIsNamed(payload: seq<EvseDTO>)
    ensures Statuses(payload).Keys == Listed(payload).Keys
    ensures forall uid, name :: uid in Listed(payload) && name in Listed(payload)[uid] ==> (uid, name) in Named(payload)
  {
    if payload != [] {
      ListedIsNamed(payload[..|payload| - 1]);
    }
  }

  // ---- the loop of a reconciliation: the EVSEs still to do are as they were, the rest done

  datatype Reconciliation = Reconciliation(
    evses: Evses,
    connectors: Connectors,
    locationId: nat,
    payload: seq<EvseDTO>,
    full: bool,
    now: int)
  {
    ghost function EvseDone(id: nat): Evse requires id in evses { EvseAfter(evses[id], locationId, payload, full) }

    ghost function ConnectorDone(c: nat): Connector requires c in connectors {
      ConnectorAfter(connectors[c], evses, locationId, payload, full, now)
    }
  }

  ghost predicate Progress(r: Reconciliation, evses: Evses, connectors: Connectors, todo: set<nat>) {
    && evses.Keys == r.evses.Keys && connectors.Keys == r.connectors.Keys
    && (forall id :: id in todo ==> id in evses && Examined(r.evses[id], r.locationId))
    && (forall id :: id in evses ==> evses[id] == if id in todo then r.evses[id] else r.EvseDone(id))
    && (forall c :: c in connectors ==>
                      connectors[c] == if r.connectors[c].evseId in todo then r.connectors[c] else r.ConnectorDone(c))
  }

  lemma StartProgress(r: Reconciliation, todo: set<nat>)
    requires todo == set id | id in r.evses && Examined(r.evses[id], r.locationId)
    ensures Progress(r, r.evses, r.connectors, todo)
  {
  }

  lemma StopProgress(r: Reconciliation, evses: Evses, connectors: Connectors, todo: set<nat>)
    requires Progress(r, evses, connectors, todo)
    ensures PartlyDone(evses, r.evses, EvsesAfter(r.evses, r.locationId, r.payload, r.full))
    ensures PartlyDone(connectors, r.connectors,
                       ConnectorsAfter(r.connectors, r.evses, r.locationId, r.payload, r.full, r.now))
    ensures todo == {} ==>
              && evses == EvsesAfter(r.evses, r.locationId, r.payload, r.full)
              && connectors == ConnectorsAfter(r.connectors, r.evses, r.locationId, r.payload, r.full, r.now)
  {
  }

  lemma EvseProgress(r: Reconciliation, evses: Evses, evses': Evses, connectors: Connectors, todo: set<nat>, id: nat)
    requires Progress(r, evses, connectors, todo) && id in todo && EvseGone(r.evses[id], r.payload, r.full)
    requires evses' == evses[id := r.evses[id].(ocpiStatus := REMOVED)]
    ensures Progress(r, evses', connectors, todo - {id})
  {
  }

  lemma ConnectorProgress(r: Reconciliation, evses: Evses, connectors: Connectors, connectors': Connectors,
                          todo: set<nat>, id: nat, ok: bool)
    requires Progress(r, evses, connectors, todo) && id in todo && !EvseGone(r.evses[id], r.payload, r.full)
    requires UnlistedFrom(connectors, connectors', id, ListedFor(r.evses[id], r.payload), r.now, ok)
    ensures ok ==> Progress(r, evses, connectors', todo - {id})
    ensures PartlyDone(evses, r.evses, EvsesAfter(r.evses, r.locationId, r.payload, r.full))
    ensures PartlyDone(connectors', r.connectors,
                       ConnectorsAfter(r.connectors, r.evses, r.locationId, r.payload, r.full, r.now))
  {
  }

  predicate SameButForTime(c: Connector, d: Connector) {
    c.(deletedAt := None) == d.(deletedAt := None) && (c.deletedAt.None? <==> d.deletedAt.None?)
  }

  predicate Live(evse: Evse) {
    evse.removed != Some(true) && evse.ocpiStatus != REMOVED
  }

  /** The last EVSE of the payload with a uid decides which connectors it has. */
  lemma {:induction false} LastDuplicateWins(payload: seq<EvseDTO>, uid: string)
    ensures uid in Listed(payload) <==> exists k :: 0 <= k < |payload| && payload[k].uid == uid
    ensures forall k :: 0 <= k < |payload| && payload[k].uid == uid
                        && (forall j :: k < j < |payload| ==> payload[j].uid != uid) ==>
                          Listed(payload)[uid] == set c | c in payload[k].connectors
  {
    if payload != [] {
      var rest := payload[..|payload| - 1];
      LastDuplicateWins(rest, uid);
      assert forall k :: 0 <= k < |rest| ==> rest[k] == payload[k];
    }
  }

  /** The EVSEs of a location with a uid and not flagged as removed are looked at, no others. */
  lemma ExaminedExactly(evse: Evse, locationId: nat)
    ensures Examined(evse, locationId)
       <==> evse.locationId == locationId && evse.ocpiUid != None && evse.removed != Some(true)
  {
  }

  /** A full reconciliation is exact: of the EVSEs looked at, those still live are those that
      were live and are in the payload. */
  lemma FullModeIsExact(evses: Evses, locationId: nat, payload: seq<EvseDTO>, id: nat)
    requires id in evses && Examined(evses[id], locationId)
    ensures Live(EvsesAfter(evses, locationId, payload, true)[id]) <==>
            Live(evses[id]) && exists k :: 0 <= k < |payload| && payload[k].uid == evses[id].ocpiUid.value
  {
    LastDuplicateWins(payload, evses[id].ocpiUid.value);
  }

  /** A partial one removes no EVSE, and either leaves the EVSEs it does not look at alone,
      with their connectors. */
  lemma EvsesLeftAlone(evses: Evses, connectors: Connectors, locationId: nat, payload: seq<EvseDTO>, full: bool,
                       now: int)
    ensures EvsesAfter(evses, locationId, payload, false) == evses
    ensures forall id :: id in evses
                         && (evses[id].locationId != locationId || evses[id].ocpiUid.None?
                             || evses[id].removed == Some(true)) ==>
                           EvsesAfter(evses, locationId, payload, full)[id] == evses[id]
    ensures forall c :: c in connectors
                        && (connectors[c].evseId in evses ==>
                              var evse := evses[connectors[c].evseId];
                              evse.locationId != locationId || evse.ocpiUid.None? || evse.removed == Some(true)) ==>
                          ConnectorsAfter(connectors, evses, locationId, payload, full, now)[c] == connectors[c]
  {
  }

  /** Which connectors of an EVSE remain: all of them when a full reconciliation removes the
      EVSE; otherwise those the payload lists for the EVSE. A partial payload that leaves an
      EVSE out lists none for it. */
  lemma ConnectorsAreExact(evses: Evses, connectors: Connectors, locationId: nat, payload: seq<EvseDTO>, full: bool,
                           now: int, id: nat)
    requires id in connectors && connectors[id].evseId in evses && Examined(evses[connectors[id].evseId], locationId)
    ensures var evse, c := evses[connectors[id].evseId], connectors[id];
            var uid := evse.ocpiUid.value;
            ConnectorsAfter(connectors, evses, locationId, payload, full, now)[id].deletedAt.None? <==>
            && c.deletedAt.None?
            && ((full && uid !in Listed(payload))
                || (c.ocpiId.Some? && uid in Listed(payload) && c.ocpiId.value in Listed(payload)[uid]))
  {
  }

  /** A partial pull that mentions the location but not one of its EVSEs leaves the EVSE live
      and deletes all its connectors. */
  lemma PartialModeStripsUnlistedEvse(evses: Evses, connectors: Connectors, locationId: nat, payload: seq<EvseDTO>,
                                      now: int, id: nat)
    requires id in evses && Examined(evses[id], locationId)
    requires forall k :: 0 <= k < |payload| ==> payload[k].uid != evses[id].ocpiUid.value
    ensures EvsesAfter(evses, locationId, payload, false)[id] == evses[id]
    ensures forall c :: c in connectors && connectors[c].evseId == id ==>
                          ConnectorsAfter(connectors, evses, locationId, payload, false, now)[c].deletedAt.Some?
  {
    LastDuplicateWins(payload, evses[id].ocpiUid.value);
  }

  /** A reconciliation that breaks off on the way and is repeated with the same payload ends
      as if it had gone through at once, but for the time in a deletion mark. */
  lemma RepeatCompletes(evses: Evses, connectors: Connectors, evses': Evses, connectors': Connectors,
                        locationId: nat, payload: seq<EvseDTO>, full: bool, now: int, later: int)
    requires PartlyDone(evses', evses, EvsesAfter(evses, locationId, payload, full))
    requires PartlyDone(connectors', connectors, ConnectorsAfter(connectors, evses, locationId, payload, full, now))
    ensures EvsesAfter(evses', locationId, payload, full) == EvsesAfter(evses, locationId, payload, full)
    ensures var again := ConnectorsAfter(connectors', evses', locationId, payload, full, later);
            var once := ConnectorsAfter(connectors, evses, locationId, payload, full, now);
            && again.Keys == once.Keys
            && forall c :: c in once ==> SameButForTime(again[c], once[c])
  {
    forall id | id in evses
      ensures EvseAfter(evses'[id], locationId, payload, full) == EvseAfter(evses[id], locationId, payload, full)
    {
    }
    forall c | c in connectors
      ensures var again := ConnectorAfter(connectors'[c], evses', locationId, payload, full, later);
              var once := ConnectorAfter(connectors[c], evses, locationId, payload, full, now);
              SameButForTime(again, once)
    {
      RepeatOnConnector(connectors[c], connectors'[c], evses, evses', locationId, payload, full, now, later);
    }
  }

  lemma RepeatOnConnector(c: Connector, c': Connector, evses: Evses, evses': Evses,
                          locationId: nat, payload: seq<EvseDTO>, full: bool, now: int, later: int)
    requires PartlyDone(evses', evses, EvsesAfter(evses, locationId, payload, full))
    requires c' == c || c' == ConnectorAfter(c, evses, locationId, payload, full, now)
    ensures var again := ConnectorAfter(c', evses', locationId, payload, full, later);
            var once := ConnectorAfter(c, evses, locationId, payload, full, now);
            SameButForTime(again, once)
  {
    if c.evseId in evses {
      assert evses'[c.evseId].(ocpiStatus := REMOVED) == evses[c.evseId].(ocpiStatus := REMOVED);
    }
  }

  /** A second reconciliation changes nothing at all, whenever it runs. */
  lemma SecondRunChangesNothing(evses: Evses, connectors: Connectors, locationId: nat, payload: seq<EvseDTO>,
                                full: bool, now: int, later: int)
    ensures var evses', connectors' := EvsesAfter(evses, locationId, payload, full),
                                       ConnectorsAfter(connectors, evses, locationId, payload, full, now);
            && EvsesAfter(evses', locationId, payload, full) == evses'
            && ConnectorsAfter(connectors', evses', locationId, payload, full, later) == connectors'
  {
    var evses', connectors' := EvsesAfter(evses, locationId, payload, full),
                               ConnectorsAfter(connectors, evses, locationId, payload, full, now);
    forall c | c in connectors
      ensures ConnectorAfter(connectors'[c], evses', locationId, payload, full, later) == connectors'[c]
    {
      var id := connectors[c].evseId;
      if id in evses {
        assert evses'[id].(ocpiStatus := REMOVED) == evses[id].(ocpiStatus := REMOVED);
      }
    }
  }

  // --------------------------------------------------------- upsert and reconciliation

  /** A location pulled without a failure, in either mode: of its EVSEs not flagged as removed,
      those live afterwards are the ones listed with a status other than REMOVED, and, after a
      partial pull, the ones that were live and are not listed. */
  lemma PulledEvsesAreExact(evses: Evses, mid: Evses, locationId: nat, payload: seq<EvseDTO>, full: bool, e: nat)
    requires EvsesUpserted(evses, mid, locationId, Statuses(payload)) && e in mid && Examined(mid[e], locationId)
    ensures var statuses, uid := Statuses(payload), mid[e].ocpiUid.value;
            Live(EvsesAfter(mid, locationId, payload, full)[e])
            <==> if uid in statuses then statuses[uid] != REMOVED else !full && e in evses && Live(evses[e])
  {
    ListedIsNamed(payload);
  }

  /** And of their connectors, those that were not deleted before and are listed for the EVSE last;
      all that were not, if the EVSE is one a full pull removes. A connector that was deleted stays
      deleted though the partner lists it again. */
  lemma PulledConnectorsAreExact(connectors: Connectors, mid: Connectors, mids: Evses, locationId: nat,
                                 payload: seq<EvseDTO>, full: bool, now: int, c: nat)
    requires ConnectorsUpserted(connectors, mid, mids, locationId, Named(payload)) && c in mid
    requires mid[c].evseId in mids && Examined(mids[mid[c].evseId], locationId)
    ensures var listed, uid := Listed(payload), mids[mid[c].evseId].ocpiUid.value;
            ConnectorsAfter(mid, mids, locationId, payload, full, now)[c].deletedAt.None?
            <==> (c in connectors ==> connectors[c].deletedAt.None?)
                 && if uid in listed then mid[c].ocpiId.Some? && mid[c].ocpiId.value in listed[uid] else full
  {
  }

  /** So a connector that comes back has no row that is not deleted: there is one row for it. */
  lemma ReturningConnectorStaysDeleted(connectors: Connectors, mid: Connectors, mids: Evses, locationId: nat,
                                       payload: seq<EvseDTO>, full: bool, now: int, c: nat)
    requires ConnectorsUpserted(connectors, mid, mids, locationId, Named(payload)) && UniqueConnectors(mid)
    requires c in connectors && connectors[c].ocpiId.Some? && connectors[c].deletedAt.Some?
    ensures forall d :: d in mid && mid[d].evseId == connectors[c].evseId && mid[d].ocpiId == connectors[c].ocpiId ==>
                          ConnectorsAfter(mid, mids, locationId, payload, full, now)[d].deletedAt.Some?
  {
  }

  /** What a payload says of a location holds of its EVSEs: each one listed has a row, and of those
      not flagged as removed the live ones are as the payload says. */
  ghost predicate EvsesFit(evses: Evses, locationId: nat, payload: seq<EvseDTO>, full: bool) {
    && (forall uid {:trigger HasEvse(evses, locationId, uid)} ::
          uid in Statuses(payload) ==> HasEvse(evses, locationId, uid))
    && (forall e :: e in evses && Examined(evses[e], locationId) ==> EvseFits(evses[e], payload, full))
  }

  /** And of its connectors: each one listed for an EVSE has a row, and none is live that is not
      listed for its EVSE. */
  ghost predicate ConnectorsFit(evses: Evses, connectors: Connectors, locationId: nat, payload: seq<EvseDTO>) {
    && (forall uid, name {:trigger HasConnector(connectors, evses, locationId, uid, name)} ::
          uid in Listed(payload) && name in Listed(payload)[uid] ==>
            HasConnector(connectors, evses, locationId, uid, name))
    && (forall c :: c in connectors && connectors[c].deletedAt.None? && connectors[c].evseId in evses
                    && Examined(evses[connectors[c].evseId], locationId) ==>
                      ConnectorFits(connectors[c], evses[connectors[c].evseId], payload))
  }

  predicate EvseFits(evse: Evse, payload: seq<EvseDTO>, full: bool)
    requires evse.ocpiUid.Some?
  {
    if evse.ocpiUid.value in Statuses(payload) then
      Live(evse) <==> Statuses(payload)[evse.ocpiUid.value] != REMOVED
    else full ==> !Live(evse)
  }

  predicate ConnectorFits(c: Connector, evse: Evse, payload: seq<EvseDTO>)
    requires evse.ocpiUid.Some?
  {
    evse.ocpiUid.value in Listed(payload) ==>
      c.ocpiId.Some? && c.ocpiId.value in Listed(payload)[evse.ocpiUid.value]
  }

  lemma PulledEvsesFit(evses: Evses, mids: Evses, locationId: nat, payload: seq<EvseDTO>, full: bool)
    requires EvsesUpserted(evses, mids, locationId, Statuses(payload))
    ensures EvsesFit(EvsesAfter(mids, locationId, payload, full), locationId, payload, full)
  {
    var evses' := EvsesAfter(mids, locationId, payload, full);
    forall uid | uid in Statuses(payload) ensures HasEvse(evses', locationId, uid) {
      EvseIsKept(mids, evses', locationId, uid);
    }
    forall e | e in evses' && Examined(evses'[e], locationId) ensures EvseFits(evses'[e], payload, full) {
      PulledEvsesAreExact(evses, mids, locationId, payload, full, e);
    }
  }

  lemma PulledConnectorsFit(connectors: Connectors, mid: Connectors, mids: Evses, locationId: nat,
                            payload: seq<EvseDTO>, full: bool, now: int)
    requires ConnectorsUpserted(connectors, mid, mids, locationId, Named(payload))
    ensures ConnectorsFit(EvsesAfter(mids, locationId, payload, full),
                          ConnectorsAfter(mid, mids, locationId, payload, full, now), locationId, payload)
  {
    var evses', connectors' := EvsesAfter(mids, locationId, payload, full),
                               ConnectorsAfter(mid, mids, locationId, payload, full, now);
    ListedAreThere(connectors, mid, connectors', mids, evses', locationId, payload);
    LiveConnectorsFit(mid, mids, locationId, payload, full, now);
  }

  lemma ListedAreThere(connectors: Connectors, mid: Connectors, after: Connectors, mids: Evses, evses: Evses,
                       locationId: nat, payload: seq<EvseDTO>)
    requires ConnectorsUpserted(connectors, mid, mids, locationId, Named(payload))
    requires EvsesStay(mids, evses) && RowsStay(mid, after)
    ensures forall uid, name {:trigger HasConnector(after, evses, locationId, uid, name)} ::
              uid in Listed(payload) && name in Listed(payload)[uid] ==>
                HasConnector(after, evses, locationId, uid, name)
  {
    forall uid, name | uid in Listed(payload) && name in Listed(payload)[uid]
      ensures HasConnector(after, evses, locationId, uid, name)
    {
      ListedIsNamed(payload);
      ConnectorIsKept(mid, after, mids, evses, locationId, uid, name);
    }
  }

  lemma LiveConnectorsFit(mid: Connectors, mids: Evses, locationId: nat, payload: seq<EvseDTO>, full: bool, now: int)
    ensures var evses', connectors' := EvsesAfter(mids, locationId, payload, full),
                                       ConnectorsAfter(mid, mids, locationId, payload, full, now);
            forall c :: c in connectors' && connectors'[c].deletedAt.None? && connectors'[c].evseId in evses'
                        && Examined(evses'[connectors'[c].evseId], locationId) ==>
                          ConnectorFits(connectors'[c], evses'[connectors'[c].evseId], payload)
  {
    var evses', connectors' := EvsesAfter(mids, locationId, payload, full),
                               ConnectorsAfter(mid, mids, locationId, payload, full, now);
    forall c | c in connectors' && connectors'[c].deletedAt.None? && connectors'[c].evseId in evses'
               && Examined(evses'[connectors'[c].evseId], locationId)
      ensures ConnectorFits(connectors'[c], evses'[connectors'[c].evseId], payload)
    {
      LiveConnectorFits(mid[c], mids, locationId, payload, full, now);
    }
  }

  lemma LiveConnectorFits(c: Connector, evses: Evses, locationId: nat, payload: seq<EvseDTO>, full: bool, now: int)
    requires c.evseId in evses && Examined(evses[c.evseId], locationId)
    requires ConnectorAfter(c, evses, locationId, payload, full, now).deletedAt.None?
    ensures ConnectorFits(ConnectorAfter(c, evses, locationId, payload, full, now), evses[c.evseId], payload)
  {
  }

  /** Only EVSEs of these locations, and their connectors, change or are new. */
  ghost predicate OthersKept(evses: Evses, connectors: Connectors, evses': Evses, connectors': Connectors,
                             rows: set<nat>) {
    && EvsesStay(evses, evses') && RowsStay(connectors, connectors')
    && (forall e :: e in evses && evses[e].locationId !in rows ==> evses'[e] == evses[e])
    && (forall e :: e in evses' && e !in evses ==> evses'[e].locationId in rows)
    && (forall c :: c in connectors && connectors[c].evseId in evses
                    && evses[connectors[c].evseId].locationId !in rows ==>
                      connectors'[c] == connectors[c])
    && (forall c :: c in connectors' && c !in connectors && connectors'[c].evseId in evses' ==>
                      evses'[connectors'[c].evseId].locationId in rows)
  }

  lemma OthersStillFit(evses: Evses, connectors: Connectors, evses': Evses, connectors': Connectors, rows: set<nat>,
                       locationId: nat, payload: seq<EvseDTO>, full: bool)
    requires OthersKept(evses, connectors, evses', connectors', rows) && locationId !in rows
    ensures EvsesFit(evses, locationId, payload, full) ==> EvsesFit(evses', locationId, payload, full)
    ensures ConnectorsFit(evses, connectors, locationId, payload) ==>
              ConnectorsFit(evses', connectors', locationId, payload)
  {
    if EvsesFit(evses, locationId, payload, full) {
      forall uid | uid in Statuses(payload) ensures HasEvse(evses', locationId, uid) {
        EvseIsKept(evses, evses', locationId, uid);
      }
    }
    if ConnectorsFit(evses, connectors, locationId, payload) {
      forall uid, name | uid in Listed(payload) && name in Listed(payload)[uid]
        ensures HasConnector(connectors', evses', locationId, uid, name)
      {
        ConnectorIsKept(connectors, connectors', evses, evses', locationId, uid, name);
      }
    }
  }

  lemma UpsertKeepsOthers(evses: Evses, connectors: Connectors, evses': Evses, connectors': Connectors,
                          locationId: nat, statuses: map<string, string>, named: set<(string, string)>)
    requires EvsesUpserted(evses, evses', locationId, statuses)
    requires ConnectorsUpserted(connectors, connectors', evses', locationId, named)
    ensures OthersKept(evses, connectors, evses', connectors', {locationId})
  {
  }

  lemma ReconcileKeepsOthers(evses: Evses, connectors: Connectors, evses': Evses, connectors': Connectors,
                             locationId: nat, payload: seq<EvseDTO>, full: bool, now: int)
    requires PartlyDone(evses', evses, EvsesAfter(evses, locationId, payload, full))
    requires PartlyDone(connectors', connectors, ConnectorsAfter(connectors, evses, locationId, payload, full, now))
    ensures OthersKept(evses, connectors, evses', connectors', {locationId})
  {
  }

  lemma OthersKeptTwice(evses: Evses, connectors: Connectors, mids: Evses, mid: Connectors, evses': Evses,
                        connectors': Connectors, a: set<nat>, b: set<nat>)
    requires OthersKept(evses, connectors, mids, mid, a) && OthersKept(mids, mid, evses', connectors', b)
    ensures OthersKept(evses, connectors, evses', connectors', a + b)
  {
  }

  /** A reconciliation, complete or not, keeps the unique keys. */
  lemma PartlyUnique(evses: Evses, connectors: Connectors, evses': Evses, connectors': Connectors, locationId: nat,
                     payload: seq<EvseDTO>, full: bool, now: int)
    requires UniqueEvses(evses) && UniqueConnectors(connectors)
    requires PartlyDone(evses', evses, EvsesAfter(evses, locationId, payload, full))
    requires PartlyDone(connectors', connectors, ConnectorsAfter(connectors, evses, locationId, payload, full, now))
    ensures UniqueEvses(evses') && UniqueConnectors(connectors')
  {
  }
}
