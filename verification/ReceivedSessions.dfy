/**
 Sessions received from partners (SessionsService, ReceivedSessionMapper): a PUT inserts or
 updates a row, a PATCH updates one, appending its charging periods to the stored ones
 (section 9.2.2 of OCPI 2.2.1).
 */
module ReceivedSessions {
  import opened Numbers
  import opened ChargingPeriods
  import IncrementalSessions
  import SessionStream

  /** The fields a request may change, other than charging_periods. */
  datatype Field =
    | StartDateTime | EndDateTime | Kwh | CdrToken | AuthMethod | AuthorizationReference | LocationId
    | EvseUid | ConnectorId | MeterId | Currency | TotalCost | Status | LastUpdated

  /** A stored value: null, or anything else. */
  datatype Value = Null | Json(text: string)

  /** charging_periods in a request: left out, null, or a list. */
  datatype SuppliedPeriods = Absent | NullPeriods | Given(periods: seq<ChargingPeriod>)

  /** Partial<Session>: the supplied fields and no others. */
  datatype PartialSession = PartialSession(fields: map<Field, Value>, chargingPeriods: SuppliedPeriods)

  datatype Session = Session(countryCode: string, partyId: string, id: string, body: PartialSession)

  /** A row; a field that is not set reads as null. */
  datatype Row = Row(countryCode: string, partyId: string, id: string,
                     fields: map<Field, Value>, chargingPeriods: Option<seq<ChargingPeriod>>)

  datatype RoamingPartner = RoamingPartner(id: int, countryCode: string, partyId: string)

  datatype TenantPartner = TenantPartner(
    id: int,
    countryCode: string,
    partyId: string,
    roamingPartners: seq<RoamingPartner>)

  /** The find queries select by session, tenant partner and roaming partner (or none). */
  datatype RowKey = RowKey(sessionId: string, tenantPartnerId: int, roamingPartnerId: Option<int>)

  datatype Error = PartnerMismatch | NotFound

  datatype Result<+T> = Ok(value: T) | Err(error: Error)

  type Rows = map<RowKey, Row>

  // ------------------------------------------------------------- single requests

  /** getRoamingPartner: the first with the given identity. */
  function FindRoaming(partners: seq<RoamingPartner>, countryCode: string, partyId: string): Option<RoamingPartner> {
    if partners == [] then None
    else if partners[0].countryCode == countryCode && partners[0].partyId == partyId then Some(partners[0])
    else FindRoaming(partners[1..], countryCode, partyId)
  }

  function KeyFor(partner: TenantPartner, countryCode: string, partyId: string, sessionId: string): RowKey {
    var roaming := FindRoaming(partner.roamingPartners, countryCode, partyId);
    RowKey(sessionId, partner.id, if roaming.Some? then Some(roaming.value.id) else None)
  }

  function InsertedRow(session: Session): Row {
    Row(session.countryCode, session.partyId, session.id, session.body.fields,
        if session.body.chargingPeriods.Given? then Some(session.body.chargingPeriods.periods) else None)
  }

  const AllFields: set<Field> :=
    {StartDateTime, EndDateTime, Kwh, CdrToken, AuthMethod, AuthorizationReference, LocationId,
     EvseUid, ConnectorId, MeterId, Currency, TotalCost, Status, LastUpdated}

  function Reads(fields: map<Field, Value>, field: Field): Value {
    if field in fields then fields[field] else Null
  }

  /** mapToOcpi: every field is there, null where nothing is stored. */
  function MapToOcpi(row: Row): Session {
    Session(row.countryCode, row.partyId, row.id,
            PartialSession(map field | field in AllFields :: Reads(row.fields, field),
                           if row.chargingPeriods.Some? then Given(row.chargingPeriods.value) else NullPeriods))
  }

  /** mapPartialFromOcpi followed by the update: exactly the supplied fields are set. */
  function Updated(row: Row, partial: PartialSession): Row {
    row.(fields := row.fields + partial.fields,
         chargingPeriods := match partial.chargingPeriods
           case Absent => row.chargingPeriods
           case NullPeriods => None
           case Given(periods) => Some(periods))
  }

  /** patchSession's edit of the partial: a non-empty list is appended to the stored one,
      anything else leaves the stored list alone. */
  function Merged(row: Row, partial: PartialSession): PartialSession {
    if partial.chargingPeriods.Given? && |partial.chargingPeriods.periods| > 0 then
      partial.(chargingPeriods :=
        Given((if row.chargingPeriods.Some? then row.chargingPeriods.value else []) + partial.chargingPeriods.periods))
    else partial.(chargingPeriods := Absent)
  }

  datatype Request =
    | Put(partner: TenantPartner, session: Session)
    | Patch(partner: TenantPartner, countryCode: string, partyId: string, sessionId: string, partial: PartialSession)

  function KeyOf(request: Request): RowKey {
    match request
    case Put(partner, s) => KeyFor(partner, s.countryCode, s.partyId, s.id)
    case Patch(partner, countryCode, partyId, id, _) => KeyFor(partner, countryCode, partyId, id)
  }

  predicate Accepted(partner: TenantPartner, countryCode: string, partyId: string) {
    (partner.countryCode == countryCode && partner.partyId == partyId)
    || FindRoaming(partner.roamingPartners, countryCode, partyId).Some?
  }

  /** The row a request leaves behind, given the one it finds. */
  function RowAfter(found: Option<Row>, request: Request): Option<Row> {
    match request
    case Put(partner, s) =>
      if !Accepted(partner, s.countryCode, s.partyId) then found
      else if found.None? then Some(InsertedRow(s))
      else Some(Updated(found.value, s.body))
    case Patch(_, _, _, _, partial) =>
      if found.None? then None else Some(Updated(found.value, Merged(found.value, partial)))
  }

  function Lookup(rows: Rows, key: RowKey): Option<Row> {
    if key in rows then Some(rows[key]) else None
  }

  /** What a GET answers. */
  function Got(rows: Rows, key: RowKey): Option<Session> {
    match Lookup(rows, key)
    case None => None
    case Some(row) => Some(MapToOcpi(row))
  }

  function Apply(rows: Rows, request: Request): Rows {
    match RowAfter(Lookup(rows, KeyOf(request)), request)
    case None => rows
    case Some(row) => rows[KeyOf(request) := row]
  }

  /** The receiver's table of sessions. */
  class SessionStore {
    var rows: Rows

    constructor ()
      ensures rows == map[]
    {
      rows := map[];
    }

    method GetSession(partner: TenantPartner, countryCode: string, partyId: string, sessionId: string)
      returns (session: Option<Session>)
      ensures session == Got(rows, KeyFor(partner, countryCode, partyId, sessionId))
    {
      var key := KeyFor(partner, countryCode, partyId, sessionId);
      if key in rows {
        session := Some(MapToOcpi(rows[key]));
      } else {
        session := None;
      }
    }

    method UpsertSession(partner: TenantPartner, session: Session) returns (result: Result<Session>)
      modifies this
      ensures rows == Apply(old(rows), Put(partner, session))
      ensures !Accepted(partner, session.countryCode, session.partyId) ==> result == Err(PartnerMismatch)
      ensures Accepted(partner, session.countryCode, session.partyId) ==>
                Got(rows, KeyOf(Put(partner, session))).Some?
                && result == Ok(Got(rows, KeyOf(Put(partner, session))).value)
    {
      var roaming := FindRoaming(partner.roamingPartners, session.countryCode, session.partyId);
      if (partner.countryCode != session.countryCode || partner.partyId != session.partyId) && roaming.None? {
        return Err(PartnerMismatch);
      }
      var key := RowKey(session.id, partner.id, if roaming.Some? then Some(roaming.value.id) else None);
      if key !in rows {
        rows := rows[key := InsertedRow(session)];
      } else {
        rows := rows[key := Updated(rows[key], session.body)];
      }
      result := Ok(MapToOcpi(rows[key]));
    }

    method PatchSession(partner: TenantPartner, countryCode: string, partyId: string, sessionId: string,
                        partial: PartialSession)
      returns (result: Result<Session>)
      modifies this
      ensures rows == Apply(old(rows), Patch(partner, countryCode, partyId, sessionId, partial))
      ensures result == (match Got(rows, KeyFor(partner, countryCode, partyId, sessionId))
                         case None => Err(NotFound) case Some(session) => Ok(session))
    {
      var existing := GetSession(partner, countryCode, partyId, sessionId);
      if existing.None? {
        return Err(NotFound);
      }
      var mergedPartial := partial;
      if mergedPartial.chargingPeriods.Given? && |mergedPartial.chargingPeriods.periods| > 0 {
        var periods := existing.value.body.chargingPeriods;
        var stored := if periods.Given? then periods.periods else [];
        mergedPartial := mergedPartial.(chargingPeriods := Given(stored + mergedPartial.chargingPeriods.periods));
      } else {
        mergedPartial := mergedPartial.(chargingPeriods := Absent);
      }
      var key := KeyFor(partner, countryCode, partyId, sessionId);
      rows := rows[key := Updated(rows[key], mergedPartial)];
      result := Ok(MapToOcpi(rows[key]));
    }
  }

  // ------------------------------------------------------------- which row is whose

  /** Roaming partner k is the first one with the identity. */
  ghost predicate RoamsAs(partners: seq<RoamingPartner>, countryCode: string, partyId: string, k: int) {
    && 0 <= k < |partners| && partners[k].countryCode == countryCode && partners[k].partyId == partyId
    && forall i :: 0 <= i < k ==> !(partners[i].countryCode == countryCode && partners[i].partyId == partyId)
  }

  lemma {:induction false} RoamingIsFirst(partners: seq<RoamingPartner>, countryCode: string, partyId: string)
    ensures forall k :: RoamsAs(partners, countryCode, partyId, k) ==>
                          FindRoaming(partners, countryCode, partyId) == Some(partners[k])
    ensures FindRoaming(partners, countryCode, partyId).Some? ==>
              exists k :: RoamsAs(partners, countryCode, partyId, k)
  {
    if partners != [] {
      RoamingIsFirst(partners[1..], countryCode, partyId);
      if partners[0].countryCode == countryCode && partners[0].partyId == partyId {
        assert RoamsAs(partners, countryCode, partyId, 0);
      } else {
        forall k | RoamsAs(partners, countryCode, partyId, k)
          ensures FindRoaming(partners, countryCode, partyId) == Some(partners[k])
        {
          assert RoamsAs(partners[1..], countryCode, partyId, k - 1);
        }
        if FindRoaming(partners[1..], countryCode, partyId).Some? {
          var k :| RoamsAs(partners[1..], countryCode, partyId, k);
          assert forall i :: 0 < i <= k + 1 ==> partners[i] == partners[1..][i - 1];
          assert RoamsAs(partners, countryCode, partyId, k + 1);
        }
      }
    }
  }

  /** The id of the roaming partner a request is for, if it is for one. */
  ghost predicate IsFor(partner: TenantPartner, countryCode: string, partyId: string, roaming: Option<int>) {
    match roaming
    case None => forall k :: !RoamsAs(partner.roamingPartners, countryCode, partyId, k)
    case Some(id) =>
      exists k :: RoamsAs(partner.roamingPartners, countryCode, partyId, k) && partner.roamingPartners[k].id == id
  }

  /** Which row a request addresses: that of the session's id, of the tenant partner, and of the
      first of its roaming partners with the identity in the request, or of none. */
  lemma RowOf(partner: TenantPartner, countryCode: string, partyId: string, sessionId: string, key: RowKey)
    ensures KeyFor(partner, countryCode, partyId, sessionId) == key
       <==> key.sessionId == sessionId && key.tenantPartnerId == partner.id
            && IsFor(partner, countryCode, partyId, key.roamingPartnerId)
  {
    RoamingIsFirst(partner.roamingPartners, countryCode, partyId);
  }

  /** So two requests address the same row if and only if they agree in all three. */
  lemma SameRowExactly(a: Request, b: Request)
    ensures KeyOf(a) == KeyOf(b)
       <==> && SessionId(a) == SessionId(b) && a.partner.id == b.partner.id
            && forall roaming :: IsFor(a.partner, CountryCode(a), PartyId(a), roaming)
                                 <==> IsFor(b.partner, CountryCode(b), PartyId(b), roaming)
  {
    var k, l := KeyOf(a), KeyOf(b);
    RowOf(a.partner, CountryCode(a), PartyId(a), SessionId(a), k);
    RowOf(b.partner, CountryCode(b), PartyId(b), SessionId(b), l);
    forall roaming
      ensures IsFor(a.partner, CountryCode(a), PartyId(a), roaming) <==> roaming == k.roamingPartnerId
      ensures IsFor(b.partner, CountryCode(b), PartyId(b), roaming) <==> roaming == l.roamingPartnerId
    {
      RowOf(a.partner, CountryCode(a), PartyId(a), SessionId(a), k.(roamingPartnerId := roaming));
      RowOf(b.partner, CountryCode(b), PartyId(b), SessionId(b), l.(roamingPartnerId := roaming));
    }
  }

  function SessionId(request: Request): string {
    match request case Put(_, s) => s.id case Patch(_, _, _, id, _) => id
  }

  function CountryCode(request: Request): string {
    match request case Put(_, s) => s.countryCode case Patch(_, countryCode, _, _, _) => countryCode
  }

  function PartyId(request: Request): string {
    match request case Put(_, s) => s.partyId case Patch(_, _, partyId, _, _) => partyId
  }

  /** A PUT is accepted from the tenant partner itself, and for any of its roaming partners. */
  lemma AcceptedExactly(partner: TenantPartner, countryCode: string, partyId: string)
    ensures Accepted(partner, countryCode, partyId)
       <==> || (partner.countryCode == countryCode && partner.partyId == partyId)
            || exists r :: r in partner.roamingPartners && r.countryCode == countryCode && r.partyId == partyId
  {
    RoamingFound(partner.roamingPartners, countryCode, partyId);
  }

  lemma {:induction false} RoamingFound(partners: seq<RoamingPartner>, countryCode: string, partyId: string)
    ensures FindRoaming(partners, countryCode, partyId).Some?
       <==> exists r :: r in partners && r.countryCode == countryCode && r.partyId == partyId
  {
    if partners != [] {
      RoamingFound(partners[1..], countryCode, partyId);
      assert partners == [partners[0]] + partners[1..];
    }
  }

  // ---------------------------------------------------------------- runs of requests

  function Run(rows: Rows, requests: seq<Request>): Rows {
    if requests == [] then rows
    else Apply(Run(rows, requests[..|requests| - 1]), requests[|requests| - 1])
  }

  function ForKey(requests: seq<Request>, key: RowKey): seq<Request> {
    if requests == [] then []
    else
      ForKey(requests[..|requests| - 1], key)
      + if KeyOf(requests[|requests| - 1]) == key then [requests[|requests| - 1]] else []
  }

  function RowAfterAll(found: Option<Row>, requests: seq<Request>): Option<Row> {
    if requests == [] then found
    else RowAfter(RowAfterAll(found, requests[..|requests| - 1]), requests[|requests| - 1])
  }

  lemma {:induction false} RowAfterAllConcat(found: Option<Row>, a: seq<Request>, b: seq<Request>)
    ensures RowAfterAll(found, a + b) == RowAfterAll(RowAfterAll(found, a), b)
  {
    if b == [] {
      assert a + b == a;
    } else {
      assert (a + b)[..|a + b| - 1] == a + b[..|b| - 1];
      RowAfterAllConcat(found, a, b[..|b| - 1]);
    }
  }

  /** A session's row depends only on the requests that address it. */
  lemma {:induction false} RunIsPerSession(rows: Rows, requests: seq<Request>, key: RowKey)
    ensures Lookup(Run(rows, requests), key) == RowAfterAll(Lookup(rows, key), ForKey(requests, key))
  {
    if requests != [] {
      var before, last := requests[..|requests| - 1], requests[|requests| - 1];
      RunIsPerSession(rows, before, key);
      ApplyAt(Run(rows, before), last, key);
      assert KeyOf(last) == key ==> (ForKey(before, key) + [last])[..|ForKey(before, key)|] == ForKey(before, key);
      assert KeyOf(last) != key ==> ForKey(requests, key) == ForKey(before, key);
    }
  }

  lemma ApplyAt(rows: Rows, request: Request, key: RowKey)
    ensures Lookup(Apply(rows, request), key)
         == if KeyOf(request) == key then RowAfter(Lookup(rows, key), request) else Lookup(rows, key)
  {
  }

  /** Every row is of the session it is found by. */
  ghost predicate RowsAreTheirs(rows: Rows) {
    forall key :: key in rows ==> rows[key].id == key.sessionId
  }

  lemma {:induction false} RunKeepsIds(rows: Rows, requests: seq<Request>)
    requires RowsAreTheirs(rows)
    ensures RowsAreTheirs(Run(rows, requests))
  {
    if requests != [] {
      RunKeepsIds(rows, requests[..|requests| - 1]);
    }
  }

  /** After any run from the empty table a GET answers with a session of the id asked for, if with
      any. */
  lemma GetAnswersItsId(requests: seq<Request>, partner: TenantPartner, countryCode: string, partyId: string,
                        sessionId: string)
    ensures var got := Got(Run(map[], requests), KeyFor(partner, countryCode, partyId, sessionId));
            got.Some? ==> got.value.id == sessionId
  {
    RunKeepsIds(map[], requests);
    RowOf(partner, countryCode, partyId, sessionId, KeyFor(partner, countryCode, partyId, sessionId));
  }

  /** And requests for other sessions, from other partners, or for other roaming partners leave
      the answer alone. */
  lemma {:induction false} OthersLeaveTheAnswer(rows: Rows, requests: seq<Request>, partner: TenantPartner,
                                                countryCode: string, partyId: string, sessionId: string)
    requires forall r :: r in requests ==>
                           || SessionId(r) != sessionId || r.partner.id != partner.id
                           || exists roaming :: IsFor(partner, countryCode, partyId, roaming)
                                                && !IsFor(r.partner, CountryCode(r), PartyId(r), roaming)
    ensures var key := KeyFor(partner, countryCode, partyId, sessionId);
            Got(Run(rows, requests), key) == Got(rows, key)
  {
    if requests != [] {
      var r, key := requests[|requests| - 1], KeyFor(partner, countryCode, partyId, sessionId);
      OthersLeaveTheAnswer(rows, requests[..|requests| - 1], partner, countryCode, partyId, sessionId);
      assert r in requests;
      OtherKey(r, partner, countryCode, partyId, sessionId);
      ApplyAt(Run(rows, requests[..|requests| - 1]), r, key);
    }
  }

  lemma OtherKey(r: Request, partner: TenantPartner, countryCode: string, partyId: string, sessionId: string)
    requires || SessionId(r) != sessionId || r.partner.id != partner.id
             || exists roaming :: IsFor(partner, countryCode, partyId, roaming)
                                  && !IsFor(r.partner, CountryCode(r), PartyId(r), roaming)
    ensures KeyOf(r) != KeyFor(partner, countryCode, partyId, sessionId)
  {
    var key := KeyOf(r);
    RowOf(r.partner, CountryCode(r), PartyId(r), SessionId(r), key);
    RowOf(partner, countryCode, partyId, sessionId, key);
    forall roaming | IsFor(partner, countryCode, partyId, roaming)
      ensures KeyFor(partner, countryCode, partyId, sessionId).roamingPartnerId == roaming
    {
      RowOf(partner, countryCode, partyId, sessionId, RowKey(sessionId, partner.id, roaming));
    }
  }

  /** The two mappers undo each other: a GET after the first PUT of a session answers what was
      put, with null for every field that was left out. */
  lemma GetAnswersPut(rows: Rows, put: Request)
    requires put.Put? && Effective(put) && KeyOf(put) !in rows
    ensures var got := Got(Apply(rows, put), KeyOf(put));
            && got.Some?
            && (got.value.countryCode, got.value.partyId, got.value.id)
               == (put.session.countryCode, put.session.partyId, put.session.id)
            && got.value.body.fields.Keys == AllFields
            && (forall f :: f in AllFields ==> got.value.body.fields[f] == Reads(put.session.body.fields, f))
            && got.value.body.chargingPeriods
               == if put.session.body.chargingPeriods.Given? then put.session.body.chargingPeriods else NullPeriods
  {
  }

  /** And putting back what a GET has answered changes nothing a GET can see. */
  lemma PuttingBackChangesNothing(rows: Rows, partner: TenantPartner, key: RowKey)
    requires Got(rows, key).Some? && KeyOf(Put(partner, Got(rows, key).value)) == key
    ensures Got(Apply(rows, Put(partner, Got(rows, key).value)), key) == Got(rows, key)
  {
    var session := Got(rows, key).value;
    var after := Got(Apply(rows, Put(partner, session)), key).value;
    FieldsAreAll();
    assert after.body.fields == session.body.fields;
  }

  lemma FieldsAreAll()
    ensures forall f: Field :: f in AllFields
  {
    forall f: Field ensures f in AllFields {
      match f
      case StartDateTime => case EndDateTime => case Kwh => case CdrToken => case AuthMethod =>
      case AuthorizationReference => case LocationId => case EvseUid => case ConnectorId => case MeterId =>
      case Currency => case TotalCost => case Status => case LastUpdated =>
    }
  }

  /** The identity of a row is the one it was first stored under. */
  lemma {:induction false} IdentityIsFixed(row: Row, requests: seq<Request>)
    ensures RowAfterAll(Some(row), requests).Some?
    ensures RowAfterAll(Some(row), requests).value.countryCode == row.countryCode
    ensures RowAfterAll(Some(row), requests).value.partyId == row.partyId
    ensures RowAfterAll(Some(row), requests).value.id == row.id
  {
    if requests != [] {
      IdentityIsFixed(row, requests[..|requests| - 1]);
    }
  }

  function PartialOf(request: Request): PartialSession {
    match request case Put(_, s) => s.body case Patch(_, _, _, _, partial) => partial
  }

  /** The request is not refused. */
  predicate Effective(request: Request) {
    request.Put? ==> Accepted(request.partner, request.session.countryCode, request.session.partyId)
  }

  predicate Supplies(request: Request, field: Field) {
    Effective(request) && field in PartialOf(request).fields
  }

  lemma {:induction false} FieldUntouched(row: Row, requests: seq<Request>, field: Field)
    requires forall r :: r in requests ==> !Supplies(r, field)
    ensures var after := RowAfterAll(Some(row), requests);
            after.Some? && (field in after.value.fields <==> field in row.fields)
            && (field in row.fields ==> after.value.fields[field] == row.fields[field])
  {
    if requests != [] {
      FieldUntouched(row, requests[..|requests| - 1], field);
      assert !Supplies(requests[|requests| - 1], field);
    }
  }

  /** Every field holds the value supplied last. */
  lemma LastSuppliedWins(found: Option<Row>, requests: seq<Request>, field: Field, i: nat)
    requires i < |requests| && Supplies(requests[i], field)
    requires forall j :: i < j < |requests| ==> !Supplies(requests[j], field)
    requires requests[i].Put? || RowAfterAll(found, requests[..i]).Some?
    ensures var after := RowAfterAll(found, requests);
            after.Some? && field in after.value.fields
            && after.value.fields[field] == PartialOf(requests[i]).fields[field]
  {
    assert requests == requests[..i + 1] + requests[i + 1..];
    assert requests[..i + 1][..i] == requests[..i];
    RowAfterAllConcat(found, requests[..i + 1], requests[i + 1..]);
    FieldUntouched(RowAfterAll(found, requests[..i + 1]).value, requests[i + 1..], field);
  }

  /** An accepted PUT that says something about charging periods, be it null. */
  predicate ReplacesPeriods(request: Request) {
    request.Put? && Effective(request) && !request.session.body.chargingPeriods.Absent?
  }

  function PutPeriods(request: Request): seq<ChargingPeriod>
    requires request.Put?
  {
    if request.session.body.chargingPeriods.Given? then request.session.body.chargingPeriods.periods else []
  }

  function PatchedBy(request: Request): seq<ChargingPeriod> {
    if request.Patch? && request.partial.chargingPeriods.Given? then request.partial.chargingPeriods.periods else []
  }

  /** The charging periods of all PATCHes, in order. */
  function Patched(requests: seq<Request>): seq<ChargingPeriod> {
    if requests == [] then []
    else Patched(requests[..|requests| - 1]) + PatchedBy(requests[|requests| - 1])
  }

  function PeriodsOf(row: Row): seq<ChargingPeriod> {
    if row.chargingPeriods.Some? then row.chargingPeriods.value else []
  }

  /** A row is there and stores these periods. */
  ghost predicate Stores(row: Option<Row>, periods: seq<ChargingPeriod>) {
    row.Some? && PeriodsOf(row.value) == periods
  }

  lemma {:induction false} PatchesAppend(row: Row, requests: seq<Request>)
    requires forall r :: r in requests ==> !ReplacesPeriods(r)
    ensures Stores(RowAfterAll(Some(row), requests), PeriodsOf(row) + Patched(requests))
  {
    if requests == [] {
      assert PeriodsOf(row) + [] == PeriodsOf(row);
    } else {
      var before, last := requests[..|requests| - 1], requests[|requests| - 1];
      PatchesAppend(row, before);
      RequestAppends(RowAfterAll(Some(row), before), PeriodsOf(row) + Patched(before), last);
      assert PeriodsOf(row) + Patched(before) + PatchedBy(last) == PeriodsOf(row) + (Patched(before) + PatchedBy(last));
    }
  }

  lemma RequestAppends(row: Option<Row>, periods: seq<ChargingPeriod>, request: Request)
    requires Stores(row, periods) && !ReplacesPeriods(request)
    ensures Stores(RowAfter(row, request), periods + PatchedBy(request))
  {
  }

  /** A PATCH appends its periods to the stored ones; without any, be it that the list is left out,
      null or empty, what is stored stays as it is, null included. */
  lemma PatchKeepsPeriods(row: Row, request: Request)
    requires request.Patch?
    ensures var after := RowAfter(Some(row), request);
            && after.Some?
            && after.value.chargingPeriods
               == if PatchedBy(request) == [] then row.chargingPeriods else Some(PeriodsOf(row) + PatchedBy(request))
  {
  }

  /** The stored charging periods are those of the last PUT that carried any, followed by
      those of every later PATCH, in order. */
  lemma PeriodsAreLastPutAndPatches(found: Option<Row>, requests: seq<Request>, i: nat)
    requires i < |requests| && ReplacesPeriods(requests[i])
    requires forall j :: i < j < |requests| ==> !ReplacesPeriods(requests[j])
    ensures Stores(RowAfterAll(found, requests), PutPeriods(requests[i]) + Patched(requests[i + 1..]))
  {
    assert requests == requests[..i + 1] + requests[i + 1..];
    assert requests[..i + 1][..i] == requests[..i];
    RowAfterAllConcat(found, requests[..i + 1], requests[i + 1..]);
    PatchesAppend(RowAfterAll(found, requests[..i + 1]).value, requests[i + 1..]);
  }

  // ------------------------------------------------- sender and receiver together

  /** The PATCH the sender builds from its current list: the key charging_periods is left out
      when there is no period to send. */
  function PatchRequest(put: Request, periods: seq<ChargingPeriod>, fields: map<Field, Value>): Request
    requires put.Put?
  {
    var sent := IncrementalSessions.PatchPeriods(periods);
    Patch(put.partner, put.session.countryCode, put.session.partyId, put.session.id,
          PartialSession(fields, if sent == [] then Absent else Given(sent)))
  }

  /** The requests of a session that get to the receiver: the PUT with the sender's list, and the
      PATCHes that are sent and arrive. */
  function SessionRequests(put: Request, periods: seq<ChargingPeriod>, steps: seq<SessionStream.Step>,
                           fields: seq<map<Field, Value>>): seq<Request>
    requires put.Put? && |fields| == |steps|
  {
    if steps == [] then [put]
    else
      var n := |steps| - 1;
      SessionRequests(put, periods, steps[..n], fields[..n])
      + if SessionStream.Arrives(periods, steps) then [PatchRequest(put, steps[n].sent, fields[n])] else []
  }

  lemma {:induction false} ReceiverHoldsArrived(put: Request, periods: seq<ChargingPeriod>,
                                                steps: seq<SessionStream.Step>, fields: seq<map<Field, Value>>)
    requires put.Put? && Effective(put) && |fields| == |steps| && put.session.body.chargingPeriods == Given(periods)
    ensures Stores(RowAfterAll(None, SessionRequests(put, periods, steps, fields)),
                   SessionStream.Arrived(periods, steps))
  {
    var requests := SessionRequests(put, periods, steps, fields);
    if steps == [] {
      assert requests[..0] == [];
    } else {
      var n := |steps| - 1;
      var before := SessionRequests(put, periods, steps[..n], fields[..n]);
      ReceiverHoldsArrived(put, periods, steps[..n], fields[..n]);
      if SessionStream.Arrives(periods, steps) {
        assert requests[..|requests| - 1] == before;
        RequestAppends(RowAfterAll(None, before), SessionStream.Arrived(periods, steps[..n]),
                       PatchRequest(put, steps[n].sent, fields[n]));
      } else {
        assert requests == before;
      }
    }
  }

  /** All these requests address the row of the PUT. */
  lemma {:induction false} SessionRequestsShareAKey(put: Request, periods: seq<ChargingPeriod>,
                                                    steps: seq<SessionStream.Step>, fields: seq<map<Field, Value>>)
    requires put.Put? && |fields| == |steps|
    ensures forall r :: r in SessionRequests(put, periods, steps, fields) ==> KeyOf(r) == KeyOf(put)
  {
    if steps != [] {
      SessionRequestsShareAKey(put, periods, steps[..|steps| - 1], fields[..|steps| - 1]);
    }
  }

  /** End to end, for every transaction with its updates in order of time, whichever PATCHes are
      skipped, sent or lost: what the receiving instance stores for the session is the sending
      instance's full list of charging periods if and only if the receiver's track holds its last
      one. */
  lemma ReplicaIsExact(put: Request, ctx: IncrementalSessions.Context, changes: seq<SessionStream.Change>,
                       fields: seq<map<Field, Value>>)
    requires put.Put? && Effective(put) && |fields| == |changes|
    requires put.session.body.chargingPeriods == Given(IncrementalSessions.Sent(ctx, []))
    requires IncrementalSessions.InOrderOfTime(ctx, SessionStream.Updates(changes))
    ensures var first, steps := IncrementalSessions.Sent(ctx, []), SessionStream.StepsOf(ctx, changes);
            var sent := IncrementalSessions.Sent(ctx, SessionStream.Updates(changes));
            Stores(RowAfterAll(None, SessionRequests(put, first, steps, fields)), sent)
            <==> SessionStream.TrackOf(first, steps)
                 == if sent == [] then SessionStream.Empty else SessionStream.Holds(sent[|sent| - 1])
  {
    var first, steps := IncrementalSessions.Sent(ctx, []), SessionStream.StepsOf(ctx, changes);
    ReceiverHoldsArrived(put, first, steps, fields);
    SessionStream.TransactionInTime(ctx, changes);
    SessionStream.ArrivedExactly(first, steps);
  }

  /** So when every PATCH is sent and arrives, if and only if every one closed exactly one
      period. */
  lemma ReplicaIfEachArrives(put: Request, ctx: IncrementalSessions.Context, changes: seq<SessionStream.Change>,
                             fields: seq<map<Field, Value>>)
    requires put.Put? && Effective(put) && |fields| == |changes|
    requires put.session.body.chargingPeriods == Given(IncrementalSessions.Sent(ctx, []))
    requires IncrementalSessions.InOrderOfTime(ctx, SessionStream.Updates(changes))
    requires SessionStream.EachArrives(IncrementalSessions.Sent(ctx, []), SessionStream.StepsOf(ctx, changes))
    ensures var steps := SessionStream.StepsOf(ctx, changes);
            Stores(RowAfterAll(None, SessionRequests(put, IncrementalSessions.Sent(ctx, []), steps, fields)),
                   IncrementalSessions.Sent(ctx, SessionStream.Updates(changes)))
            <==> IncrementalSessions.EachClosesOnePeriod(ctx, SessionStream.Updates(changes))
  {
    var steps := SessionStream.StepsOf(ctx, changes);
    ReceiverHoldsArrived(put, IncrementalSessions.Sent(ctx, []), steps, fields);
    SessionStream.ArrivedIsReceived(ctx, changes);
    IncrementalSessions.PatchesRebuildTheList(ctx, SessionStream.Updates(changes));
  }
}
