/**
 The outbox of failed Gireve pushes (GireveBroadcastRetryOutbox): a table with one row per
 resource and partner, written by live failures and emptied by the retry worker.

 A request is tagged with the write that queued it, so that two alike are told apart. Instants
 are milliseconds.
 */
module RetryOutbox {
  import opened Numbers
  import opened RetryBackoff
  import ClientBroadcast

  datatype ModuleId = Sessions | Cdrs | Tariffs | OtherModule(name: string)

  /** The dedupe key. */
  datatype Key = Key(moduleId: ModuleId, partnerId: int, resourceType: string, resourceId: string)

  /** What the INSERT of a row stores for good: the method, and on whose behalf. */
  datatype Envelope = Envelope(verb: ClientBroadcast.HttpMethod, cpoCountryCode: string, cpoPartyId: string)

  /** A push that failed: what is to be sent to the partner, how and where. */
  datatype Push = Push(envelope: Envelope, path: Option<string>, body: string)

  datatype Request = Request(push: Push, write: nat)

  /** What a row holds after a newer request was written over an older one: the UPDATE sets the
      path and the body, and leaves the envelope of the row as it is. */
  function OnRow(older: Request, newer: Request): Request {
    Request(newer.push.(envelope := older.push.envelope), newer.write)
  }

  datatype Status = Pending | Processing | Sent

  datatype Row = Row(
    key: Key,
    request: Request,
    status: Status,
    attemptCount: int,
    nextRetryAt: int,
    lockedAt: Option<int>)

  type Rows = map<nat, Row>

  /** What FIND_GIREVE_RETRY_QUEUE returns of a row. */
  datatype Found = Found(id: nat, status: Status, attemptCount: int)

  /** What a claim returns of a row. */
  datatype Item = Item(id: nat, key: Key, request: Request, attemptCount: int)

  datatype Config = Config(backoff: BackoffOptions, staleLockSeconds: int)

  // ------------------------------------------------------------------ the queries

  predicate Holds(rows: Rows, id: nat, key: Key) {
    id in rows && rows[id].key == key
  }

  function FoundRow(rows: Rows, id: nat): Found
    requires id in rows
  {
    Found(id, rows[id].status, rows[id].attemptCount)
  }

  /** The attempt count an upsert writes: kept, unless the row was found already sent. */
  function UpsertAttempts(found: Option<Found>): int {
    if found.None? || found.value.status == Sent then 0 else found.value.attemptCount
  }

  /** The INSERT or UPDATE of an upsert; an update leaves the lock timestamp alone. */
  function Upserted(rows: Rows, found: Option<Found>, id: nat, key: Key, request: Request, now: int,
                    config: Config): Rows
    requires found.Some? ==> found.value.id in rows
  {
    var attempts := UpsertAttempts(found);
    var nextRetryAt := NextRetryAt(attempts, config.backoff, now);
    if found.None? then rows[id := Row(key, request, Pending, 0, nextRetryAt, None)]
    else
      var row := rows[found.value.id];
      rows[found.value.id :=
        row.(request := OnRow(row.request, request), status := Pending, attemptCount := attempts,
             nextRetryAt := nextRetryAt)]
  }

  predicate Stale(row: Row, now: int, config: Config) {
    row.status == Processing && row.lockedAt.Some? && row.lockedAt.value < now - config.staleLockSeconds * 1000
  }

  function Released(rows: Rows, now: int, config: Config): Rows {
    map id | id in rows ::
      if Stale(rows[id], now, config) then rows[id].(status := Pending, lockedAt := None) else rows[id]
  }

  predicate Due(row: Row, now: int) {
    row.status == Pending && row.nextRetryAt <= now
  }

  /** The ids can be claimed together: distinct rows, all pending and due. */
  ghost predicate Claimable(rows: Rows, ids: seq<nat>, now: int) {
    && (forall i, j :: 0 <= i < j < |ids| ==> ids[i] != ids[j])
    && (forall i :: 0 <= i < |ids| ==> ids[i] in rows && Due(rows[ids[i]], now))
  }

  function Claimed(rows: Rows, ids: seq<nat>, now: int): Rows {
    map id | id in rows :: if id in ids then rows[id].(status := Processing, lockedAt := Some(now)) else rows[id]
  }

  function Items(rows: Rows, ids: seq<nat>): (items: seq<Item>)
    requires forall i :: 0 <= i < |ids| ==> ids[i] in rows
  {
    seq(|ids|, i requires 0 <= i < |ids| =>
      Item(ids[i], rows[ids[i]].key, rows[ids[i]].request, rows[ids[i]].attemptCount))
  }

  /** MARK_GIREVE_RETRY_SENT: only a row still in processing is touched. */
  function MarkedSent(rows: Rows, id: nat): Rows {
    if id in rows && rows[id].status == Processing
    then rows[id := rows[id].(status := Sent, lockedAt := None)]
    else rows
  }

  /** RESCHEDULE_GIREVE_RETRY: only a row still in processing is touched. */
  function Rescheduled(rows: Rows, id: nat, attemptCount: int, nextRetryAt: int): Rows {
    if id in rows && rows[id].status == Processing
    then rows[id := rows[id].(status := Pending, attemptCount := attemptCount, nextRetryAt := nextRetryAt,
                              lockedAt := None)]
    else rows
  }

  // ------------------------------------------------------------------- the service

  class Outbox {
    const config: Config
    var rows: Rows
    var writes: nat

    ghost predicate Valid()
      reads this
    {
      forall id :: id in rows ==> id < writes && rows[id].request.write < writes
    }

    constructor (config: Config)
      ensures Valid() && rows == map[] && this.config == config
    {
      this.config := config;
      rows := map[];
      writes := 0;
    }

    method Find(key: Key) returns (found: Option<Found>)
      ensures found.None? ==> forall id :: id in rows ==> rows[id].key != key
      ensures found.Some? ==> Holds(rows, found.value.id, key) && found.value == FoundRow(rows, found.value.id)
    {
      if id :| id in rows && rows[id].key == key {
        found := Some(Found(id, rows[id].status, rows[id].attemptCount));
      } else {
        found := None;
      }
    }

    /** upsertOnFailure: the find and the write, here with nothing in between. */
    method UpsertOnFailure(key: Key, push: Push, now: int)
      requires Valid()
      modifies this
      ensures Valid() && writes == old(writes) + 1
      ensures (exists found: Option<Found> ::
                 (found.Some? ==>
                    Holds(old(rows), found.value.id, key) && found.value == FoundRow(old(rows), found.value.id))
                 && (found.None? ==> forall id :: id in old(rows) ==> old(rows)[id].key != key)
                 && rows == Upserted(old(rows), found, old(writes), key, Request(push, old(writes)), now, config))
    {
      var found := Find(key);
      var request := Request(push, writes);
      if found.None? {
        rows := rows[writes := Row(key, request, Pending, 0, NextRetryAt(0, config.backoff, now), None)];
      } else {
        var id := found.value.id;
        var attemptCount := if found.value.status == Sent then 0 else found.value.attemptCount;
        var push' := Push(rows[id].request.push.envelope, push.path, push.body);
        rows := rows[id := rows[id].(request := Request(push', writes), status := Pending,
                                     attemptCount := attemptCount,
                                     nextRetryAt := NextRetryAt(attemptCount, config.backoff, now))];
      }
      writes := writes + 1;
      assert rows == Upserted(old(rows), found, old(writes), key, request, now, config);
    }

    method ReleaseStaleLocks(now: int) returns (released: nat)
      requires Valid()
      modifies this`rows
      ensures Valid() && rows == Released(old(rows), now, config)
      ensures released == |set id | id in old(rows) && Stale(old(rows)[id], now, config)|
    {
      released := |set id | id in rows && Stale(rows[id], now, config)|;
      rows := Released(rows, now, config);
    }

    /** claimDueRetries: due rows up to the limit, and all of them if they fit. */
    method ClaimDueRetries(limit: nat, now: int) returns (items: seq<Item>)
      requires Valid()
      modifies this`rows
      ensures Valid()
      ensures exists ids :: Claimable(old(rows), ids, now) && |ids| <= limit
                && items == Items(old(rows), ids) && rows == Claimed(old(rows), ids, now)
                && (|ids| < limit ==> forall id :: id in rows ==> !Due(rows[id], now))
    {
      var ids: seq<nat> := [];
      var open := true;
      while open && |ids| < limit
        invariant Claimable(rows, ids, now) && |ids| <= limit
        invariant !open ==> forall id :: id in rows && Due(rows[id], now) ==> id in ids
        decreases open, limit - |ids|
      {
        if id :| id in rows && Due(rows[id], now) && id !in ids {
          ids := ids + [id];
        } else {
          open := false;
        }
      }
      items := Items(rows, ids);
      rows := Claimed(rows, ids, now);
    }

    method MarkSent(id: nat)
      requires Valid()
      modifies this`rows
      ensures Valid() && rows == MarkedSent(old(rows), id)
    {
      if id in rows && rows[id].status == Processing {
        rows := rows[id := rows[id].(status := Sent, lockedAt := None)];
      }
    }

    method Reschedule(id: nat, attemptCount: int, nextRetryAt: int)
      requires Valid()
      modifies this`rows
      ensures Valid() && rows == Rescheduled(old(rows), id, attemptCount, nextRetryAt)
    {
      if id in rows && rows[id].status == Processing {
        rows := rows[id := rows[id].(status := Pending, attemptCount := attemptCount, nextRetryAt := nextRetryAt,
                                     lockedAt := None)];
      }
    }
  }
}
