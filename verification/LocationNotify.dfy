/**
 The database trigger LocationNotify: every insert of a location is announced in full, every
 update by the fields that changed, unless only fields that are sent along anyway changed.
 */
module LocationNotify {
  import opened Numbers

  /** The columns of a location, and the name the tenant's row is sent under. */
  datatype Column = Id | TenantId | UpdatedAt | OwnerTenantPartnerId | DisableOCPI | Other(name: string) | Tenant

  /** The row of a location as JSON. */
  type Value = string
  type Row = map<Column, Value>

  const RequiredFields := {Id, TenantId, UpdatedAt, OwnerTenantPartnerId, DisableOCPI}

  datatype Operation = Insert(row: Row) | Update(before: Row, after: Row)

  function Only(row: Row, fields: set<Column>): Row {
    map f | f in row && f in fields :: row[f]
  }

  function Changed(before: Row, after: Row): Row {
    map f | f in after && f in before && after[f] != before[f] && f !in RequiredFields :: after[f]
  }

  /** The announcement of an operation, with the tenant's row if there is one. */
  method Notify(op: Operation, tenant: Option<Value>) returns (payload: Option<Row>)
    ensures payload == Announced(op, tenant)
  {
    var data: Row;
    match op {
      case Insert(row) =>
        data := row;
      case Update(before, after) =>
        var requiredData := map f | f in after && f in RequiredFields :: after[f];
        var changedData :=
          map f | f in after && f in before && after[f] != before[f] && f !in RequiredFields :: after[f];
        if changedData == map[] {
          return None;
        }
        data := requiredData + changedData;
    }
    if tenant.Some? {
      data := data[Tenant := tenant.value];
    }
    return Some(data);
  }

  function Announced(op: Operation, tenant: Option<Value>): Option<Row> {
    var data := match op
      case Insert(row) => row
      case Update(before, after) => Only(after, RequiredFields) + Changed(before, after);
    if op.Update? && Changed(op.before, op.after) == map[] then None
    else Some(if tenant.Some? then data[Tenant := tenant.value] else data)
  }

  predicate SentAlong(f: Column) {
    f == Id || f == TenantId || f == UpdatedAt || f == OwnerTenantPartnerId || f == DisableOCPI
  }

  /** Whether an update is announced: exactly if a field changed that is not sent along anyway. */
  lemma AnnouncedExactly(before: Row, after: Row, tenant: Option<Value>)
    ensures Announced(Update(before, after), tenant).Some?
       <==> exists f :: f in before && f in after && before[f] != after[f] && !SentAlong(f)
  {
    if f :| f in before && f in after && before[f] != after[f] && !SentAlong(f) {
      assert f in Changed(before, after);
    } else {
      assert Changed(before, after) == map[];
    }
  }

  /** And what an announcement holds: the tenant's row, if there is one; and of the location's row
      all of it at an insert, at an update what changed and what is always sent along. */
  lemma AnnouncementHolds(op: Operation, tenant: Option<Value>, f: Column)
    requires Announced(op, tenant).Some?
    ensures var payload, row := Announced(op, tenant).value, if op.Insert? then op.row else op.after;
            if f == Tenant && tenant.Some? then f in payload && payload[f] == tenant.value
            else
              && (f in payload <==>
                    f in row && (op.Insert? || SentAlong(f) || (f in op.before && op.before[f] != row[f])))
              && (f in payload ==> payload[f] == row[f])
  {
  }

  // --------------------------------------------------------------------- a replica

  /** What a listener holds that merges every payload over what it had. */
  function Merged(replica: Row, payload: Option<Row>): Row {
    if payload.Some? then replica + payload.value else replica
  }

  /** A row and its versions: same columns throughout, none of them taken for the tenant. */
  ghost predicate Versions(rows: seq<Row>) {
    && rows != [] && Tenant !in rows[0] && RequiredFields <= rows[0].Keys
    && forall k :: 0 <= k < |rows| ==> rows[k].Keys == rows[0].Keys
  }

  /** The replica once the row has gone through all its versions; tenants[k] is the tenant's
      row at version k. */
  function Replica(rows: seq<Row>, tenants: seq<Option<Value>>): Row
    requires rows != [] && |tenants| == |rows|
  {
    var n := |rows| - 1;
    if n == 0 then Merged(map[], Announced(Insert(rows[0]), tenants[0]))
    else Merged(Replica(rows[..n], tenants[..n]), Announced(Update(rows[n - 1], rows[n]), tenants[n]))
  }

  /** The last version that was announced. */
  function LastAnnounced(rows: seq<Row>): (k: nat)
    requires rows != []
    ensures k < |rows|
  {
    var n := |rows| - 1;
    if n == 0 || Announced(Update(rows[n - 1], rows[n]), None).Some? then n else LastAnnounced(rows[..n])
  }

  lemma AnnouncedAlike(op: Operation, tenant: Option<Value>)
    ensures Announced(op, tenant).Some? <==> Announced(op, None).Some?
  {
  }

  ghost predicate AgreesOn(replica: Row, row: Row, fields: set<Column>) {
    forall f :: f in row && f in fields ==> f in replica && replica[f] == row[f]
  }

  /** The replica has the last announced version, and the row is still that but for required
      fields. */
  ghost predicate Follows(replica: Row, announced: Row, row: Row) {
    && announced.Keys == row.Keys
    && AgreesOn(replica, announced, announced.Keys)
    && AgreesOn(row, announced, announced.Keys - RequiredFields)
  }

  lemma UpdateFollows(replica: Row, announced: Row, before: Row, after: Row, tenant: Option<Value>)
    requires Follows(replica, announced, before) && before.Keys == after.Keys && Tenant !in after
    ensures var payload := Announced(Update(before, after), tenant);
            Follows(Merged(replica, payload), if payload.Some? then after else announced, after)
  {
    var payload := Announced(Update(before, after), tenant);
    if payload.None? {
      assert forall f :: f in after && f !in RequiredFields && after[f] != before[f] ==> f in Changed(before, after);
    } else {
      forall f | f in after ensures f in Merged(replica, payload) && Merged(replica, payload)[f] == after[f] {
        assert f in payload.value <==> f in RequiredFields || after[f] != before[f];
      }
    }
  }

  lemma {:induction false} ReplicaHasLastAnnounced(rows: seq<Row>, tenants: seq<Option<Value>>)
    requires Versions(rows) && |tenants| == |rows|
    ensures Follows(Replica(rows, tenants), rows[LastAnnounced(rows)], rows[|rows| - 1])
  {
    var n := |rows| - 1;
    if n > 0 {
      ReplicaHasLastAnnounced(rows[..n], tenants[..n]);
      UpdateFollows(Replica(rows[..n], tenants[..n]), rows[LastAnnounced(rows[..n])], rows[n - 1], rows[n], tenants[n]);
      AnnouncedAlike(Update(rows[n - 1], rows[n]), tenants[n]);
    }
  }

  /** After every version of every run the replica agrees with the row on all but the required
      fields; on all fields, exactly if the required ones are still those of the last
      announced version. */
  lemma ReplicaFollows(rows: seq<Row>, tenants: seq<Option<Value>>)
    requires Versions(rows) && |tenants| == |rows|
    ensures var row, announced := rows[|rows| - 1], rows[LastAnnounced(rows)];
            && AgreesOn(Replica(rows, tenants), row, row.Keys - RequiredFields)
            && (AgreesOn(Replica(rows, tenants), row, row.Keys) <==> AgreesOn(announced, row, RequiredFields))
  {
    ReplicaHasLastAnnounced(rows, tenants);
  }

  /** Switching a location off for OCPI, or on again, and nothing else, is not announced: the
      replica keeps the old setting. */
  lemma SwitchingOffIsNotAnnounced(row: Row, off: Value, updatedAt: Value, tenants: seq<Option<Value>>)
    requires Versions([row]) && row[DisableOCPI] != off && |tenants| == 2
    ensures var rows := [row, row[DisableOCPI := off][UpdatedAt := updatedAt]];
            && Versions(rows) && LastAnnounced(rows) == 0
            && !AgreesOn(Replica(rows, tenants), rows[1], {DisableOCPI})
  {
    var after := row[DisableOCPI := off][UpdatedAt := updatedAt];
    var rows := [row, after];
    assert rows[..1] == [row];
    assert after.Keys == row.Keys;
    assert Changed(row, after) == map[];
    assert after[DisableOCPI] == off;
    ReplicaHasLastAnnounced(rows, tenants);
  }
}
