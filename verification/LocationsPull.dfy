/**
 A pull of a partner's locations (LocationsPullService): every location on the pages is upserted
 and reconciled, and a full pull marks the locations the partner no longer lists.
 */
module LocationsPull {
  import opened Numbers
  import opened LocationTables

  // --------------------------------------------------------------------- full pull

  /** Whose locations a pull is about: all of the partner's, or those of one of its roaming
      partners, which may be unknown. */
  datatype Scope = Whole | Roaming(id: nat) | UnknownRoaming

  /** How the work on one location ends: refused before anything is stored; broken off once the
      row is stored, by the time so many EVSEs and connectors, and perhaps a removal mark, are
      written; or done. */
  datatype Outcome = Refused | Interrupted(writes: nat) | Done

  /** An item of a page: something that is not a location, or a location, perhaps of one of the
      partner's roaming partners. */
  datatype Item =
    | Invalid
    | Pulled(id: string, roamingPartnerId: Option<nat>, evses: seq<EvseDTO>, outcome: Outcome)

  /** What a request for the next page comes to. */
  datatype Page = Page(items: seq<Item>) | RequestFails

  datatype Summary = Summary(processed: nat, succeeded: nat, failed: nat, skipped: nat,
                             markedRemoved: Option<nat>, markRemovedFailed: Option<nat>)

  predicate Known(l: Location, partnerId: nat, scope: Scope) {
    l.partnerId == partnerId && l.ocpiId.Some? && (scope.Roaming? ==> l.roamingPartnerId == Some(scope.id))
  }

  predicate Missing(l: Location, partnerId: nat, scope: Scope, seen: set<string>) {
    Known(l, partnerId, scope) && l.ocpiId.value !in seen
  }

  predicate Matches(l: Location, partnerId: nat, ocpiId: string, roamingPartnerId: Option<nat>) {
    && l.partnerId == partnerId && l.ocpiId == Some(ocpiId)
    && (roamingPartnerId.Some? ==> l.roamingPartnerId == roamingPartnerId)
  }

  /** All EVSEs of the pulled location are removed. */
  predicate AllRemoved(evses: seq<EvseDTO>) {
    evses != [] && forall k :: 0 <= k < |evses| ==> evses[k].status == REMOVED
  }

  lemma AllRemovedExactly(evses: seq<EvseDTO>)
    ensures AllRemoved(evses) <==> evses != [] && forall e :: e in evses ==> e.status == "REMOVED"
  {
    if evses != [] && !AllRemoved(evses) {
      var k :| 0 <= k < |evses| && evses[k].status != REMOVED;
      assert evses[k] in evses;
    }
  }

  /** The roaming partner for which a pulled location is looked up again: that of the pull, or
      its own. */
  function LookedUpFor(scope: Scope, item: Item): Option<nat>
    requires item.Pulled?
  {
    if scope.Roaming? then Some(scope.id) else item.roamingPartnerId
  }

  /** Without a roaming partner to look it up for, no location can be reconciled. */
  ghost predicate Possible(items: seq<Item>, scope: Scope) {
    scope.UnknownRoaming? ==> forall i :: i in items ==> !IsDone(i)
  }

  /** What the upsert of an item did: the row it was for, the tables it left, which EVSEs of the
      payload it got to, and which connectors. */
  datatype Upsert = Upsert(row: nat, evses: Evses, connectors: Connectors, upTo: nat, named: set<(string, string)>)

  /** The upsert got through the payload, or some way, and left all that is not in it alone. */
  ghost predicate UpsertFits(evses: Evses, connectors: Connectors, u: Upsert, item: Item)
    requires item.Pulled?
  {
    && u.upTo <= |item.evses| && u.named <= Named(item.evses)
    && EvsesUpserted(evses, u.evses, u.row, Statuses(item.evses[..u.upTo]))
    && ConnectorsUpserted(connectors, u.connectors, u.evses, u.row, u.named)
    && (item.outcome.Done? ==> u.upTo == |item.evses| && u.named == Named(item.evses))
  }

  /** The EVSEs and connectors of a row with the item's identity, if there is one, are reconciled
      with the item, or some of them if the work was broken off; all others are as the upsert
      left them. */
  ghost predicate Reconciled(locations: Locations, evses: Evses, connectors: Connectors, u: Upsert, item: Item,
                             partnerId: nat, scope: Scope, full: bool, now: int)
    requires item.Pulled?
  {
    var roaming := LookedUpFor(scope, item);
    if exists id :: id in locations && Matches(locations[id], partnerId, item.id, roaming) then
      exists id :: id in locations && Matches(locations[id], partnerId, item.id, roaming)
                   && ReconciledFor(evses, connectors, u, item, id, full, now)
    else evses == u.evses && connectors == u.connectors
  }

  ghost predicate ReconciledFor(evses: Evses, connectors: Connectors, u: Upsert, item: Item, id: nat, full: bool,
                                now: int)
    requires item.Pulled?
  {
    var evsesDone := EvsesAfter(u.evses, id, item.evses, full);
    var connectorsDone := ConnectorsAfter(u.connectors, u.evses, id, item.evses, full, now);
    && PartlyDone(evses, u.evses, evsesDone) && PartlyDone(connectors, u.connectors, connectorsDone)
    && (item.outcome.Done? ==> evses == evsesDone && connectors == connectorsDone)
  }

  /** The rows of the locations with an id. */
  function RowsOf(locations: Locations, partnerId: nat, ocpiId: string): set<nat> {
    set id | id in locations && Matches(locations[id], partnerId, ocpiId, None)
  }

  /** No item after it stores the same location. */
  ghost predicate LastOfItsId(items: seq<Item>, k: nat)
    requires k < |items| && items[k].Pulled?
  {
    forall j :: k < j < |items| && items[j].Pulled? && !items[j].outcome.Refused? ==> items[j].id != items[k].id
  }

  /** The row is the only one the item is upserted to, and the only one it is looked up as: for the
      roaming partner of the pull, if it is for one, else for the item's own, if it has one. */
  ghost predicate OnlyRow(locations: Locations, partnerId: nat, scope: Scope, item: Item, row: nat)
    requires item.Pulled?
  {
    var roaming := if scope.Roaming? then Some(scope.id) else item.roamingPartnerId;
    && row in RowsOf(locations, partnerId, item.id)
    && (forall id :: id in RowsOf(locations, partnerId, item.id) ==>
          && (id == row <==> item.roamingPartnerId.None? || locations[id].roamingPartnerId == item.roamingPartnerId)
          && (id == row <==> roaming.None? || locations[id].roamingPartnerId == roaming))
  }

  /** The EVSEs and connectors of every location are what the last item says that stored it, if
      that was done without a failure. */
  ghost predicate Settled(locations: Locations, evses: Evses, connectors: Connectors, items: seq<Item>,
                          partnerId: nat, scope: Scope, full: bool) {
    forall k, row :: 0 <= k < |items| && IsDone(items[k]) && LastOfItsId(items, k)
                     && OnlyRow(locations, partnerId, scope, items[k], row) ==>
                       Fits(evses, connectors, row, items[k], full)
  }

  ghost predicate Fits(evses: Evses, connectors: Connectors, row: nat, item: Item, full: bool)
    requires item.Pulled?
  {
    EvsesFit(evses, row, item.evses, full) && ConnectorsFit(evses, connectors, row, item.evses)
  }

  function AllItems(pages: seq<Page>): seq<Item> {
    if pages == [] then []
    else AllItems(pages[..|pages| - 1]) + (var p := pages[|pages| - 1]; if p.Page? then p.items else [])
  }

  function SeenIds(items: seq<Item>): set<string> {
    set i | i in items && i.Pulled? :: i.id
  }

  function Count(items: seq<Item>, wanted: Item -> bool): nat {
    if items == [] then 0
    else Count(items[..|items| - 1], wanted) + if wanted(items[|items| - 1]) then 1 else 0
  }

  const IsDone: Item -> bool := (i: Item) => i.Pulled? && i.outcome.Done?
  const IsFailed: Item -> bool := (i: Item) => i.Pulled? && !i.outcome.Done?
  const IsInvalid: Item -> bool := (i: Item) => i.Invalid?

  /** What the pages of a pull do to the table: new rows, unmarked, for ids on the pages; and,
      in partial mode only, marks on locations whose EVSEs the partner has all removed. */
  ghost predicate PagesEffect(before: Locations, after: Locations, partnerId: nat, items: seq<Item>, full: bool,
                              now: int) {
    && (forall id :: id in before ==>
                       && id in after
                       && (after[id] == before[id]
                           || (!full && SomeItemRemoves(before[id], items)
                               && after[id] == before[id].(deletedAt := Some(now)))))
    && (forall id :: id in after && id !in before ==>
                       && after[id].partnerId == partnerId
                       && after[id].ocpiId.Some? && after[id].ocpiId.value in SeenIds(items)
                       && (full ==> after[id].deletedAt.None?))
  }

  ghost predicate SomeItemRemoves(l: Location, items: seq<Item>) {
    exists i :: i in items && i.Pulled? && l.ocpiId == Some(i.id) && AllRemoved(i.evses)
  }

  /** Every location pulled and not refused has a row. */
  ghost predicate Stored(locations: Locations, partnerId: nat, items: seq<Item>) {
    forall i :: i in items && i.Pulled? && !i.outcome.Refused? ==>
                  exists id :: id in locations && Matches(locations[id], partnerId, i.id, i.roamingPartnerId)
  }

  /** What a full pull that reached the last page does to the rows there were before: it marks
      the missing ones, but for those whose mark could not be written, and nothing else. */
  ghost predicate FullPull(before: Locations, after: Locations, partnerId: nat, scope: Scope, seen: set<string>,
                           failing: set<nat>, now: int) {
    && (forall id :: id in before ==>
                       && id in after
                       && after[id] == if Missing(before[id], partnerId, scope, seen) && id !in failing
                                       then before[id].(deletedAt := Some(now)) else before[id])
    && (forall id :: id in after && id !in before ==>
                       after[id].partnerId == partnerId && after[id].ocpiId.Some? && after[id].ocpiId.value in seen
                       && after[id].deletedAt.None?)
  }

  function OneLess(writes: Option<nat>): Option<nat> {
    if writes.Some? && writes.value > 0 then Some(writes.value - 1) else writes
  }

  class PullService {
    var locations: Locations
    var evses: Evses
    var connectors: Connectors
    /** The ids of the next rows. */
    var nextId: nat
    var nextEvse: nat
    var nextConnector: nat

    constructor (locations: Locations, evses: Evses, connectors: Connectors, nextId: nat, nextEvse: nat,
                 nextConnector: nat)
      requires UniqueEvses(evses) && UniqueConnectors(connectors)
      requires forall id :: id in locations ==> id < nextId
      requires forall e :: e in evses ==> e < nextEvse
      requires forall c :: c in connectors ==> c < nextConnector
      ensures Valid() && this.locations == locations && this.evses == evses && this.connectors == connectors
    {
      this.locations, this.evses, this.connectors := locations, evses, connectors;
      this.nextId, this.nextEvse, this.nextConnector := nextId, nextEvse, nextConnector;
    }

    ghost predicate Valid() reads this {
      && UniqueEvses(evses) && UniqueConnectors(connectors)
      && (forall id :: id in locations ==> id < nextId)
      && (forall e :: e in evses ==> e < nextEvse)
      && (forall c :: c in connectors ==> c < nextConnector)
    }

    /** The part of reconcileEvsesForLocation about the connectors of one EVSE. */
    method DeleteUnlisted(evseId: nat, listed: set<string>, now: int, writes: Option<nat>)
      returns (ok: bool, left: Option<nat>)
      modifies this`connectors
      ensures writes.None? ==> ok && left.None?
      ensures UnlistedFrom(old(connectors), connectors, evseId, listed, now, ok)
    {
      left := writes;
      var todo := set c | c in connectors && connectors[c].evseId == evseId && connectors[c].deletedAt.None?;
      ghost var all := todo;
      while todo != {}
        invariant todo <= all && connectors.Keys == old(connectors).Keys
        invariant forall c :: c in connectors ==>
                                connectors[c] == if c in all && c !in todo
                                                 then Unlisted(old(connectors)[c], listed, now)
                                                 else old(connectors)[c]
        invariant writes.None? ==> left.None?
        decreases todo
      {
        var c :| c in todo;
        if connectors[c].ocpiId.None? || connectors[c].ocpiId.value !in listed {
          if left == Some(0) {
            return false, left;
          }
          left := OneLess(left);
          connectors := connectors[c := connectors[c].(deletedAt := Some(now))];
        }
        todo := todo - {c};
      }
      return true, left;
    }

    /** reconcileEvsesForLocation, for the location found; the database takes any number of
        updates, or so many and raises at the next. */
    method ReconcileEvses(locationId: nat, payload: seq<EvseDTO>, full: bool, now: int, writes: Option<nat>)
      returns (ok: bool)
      modifies this`evses, this`connectors
      ensures writes.None? ==> ok
      ensures ok ==> evses == EvsesAfter(old(evses), locationId, payload, full)
                     && connectors == ConnectorsAfter(old(connectors), old(evses), locationId, payload, full, now)
      ensures PartlyDone(evses, old(evses), EvsesAfter(old(evses), locationId, payload, full))
      ensures PartlyDone(connectors, old(connectors),
                         ConnectorsAfter(old(connectors), old(evses), locationId, payload, full, now))
    {
      var listed := Listed(payload);
      var left := writes;
      ghost var r := Reconciliation(evses, connectors, locationId, payload, full, now);
      var todo := set id | id in evses && Examined(evses[id], locationId);
      StartProgress(r, todo);
      while todo != {}
        invariant Progress(r, evses, connectors, todo) && (writes.None? ==> left.None?)
        decreases todo
      {
        var id :| id in todo;
        var evse := evses[id];
        ghost var evsesWere, connectorsWere := evses, connectors;
        if full && evse.ocpiUid.value !in listed {
          if left == Some(0) {
            StopProgress(r, evses, connectors, todo);
            return false;
          }
          left := OneLess(left);
          evses := evses[id := evse.(ocpiStatus := REMOVED)];
          EvseProgress(r, evsesWere, evses, connectors, todo, id);
          todo := todo - {id};
          continue;
        }
        var listedHere := if evse.ocpiUid.value in listed then listed[evse.ocpiUid.value] else {};
        var done;
        done, left := DeleteUnlisted(id, listedHere, now, left);
        ConnectorProgress(r, evses, connectorsWere, connectors, todo, id, done);
        if !done {
          return false;
        }
        todo := todo - {id};
      }
      StopProgress(r, evses, connectors, todo);
      return true;
    }

    // ----------------------------------------------------------------------- upserts

    /** The row of an EVSE: its status is what the partner sent, whatever else there is in it stays. */
    method UpsertEvse(locationId: nat, uid: string, status: string) returns (id: nat)
      requires Valid()
      modifies this`evses, this`nextEvse
      ensures Valid() && id in evses && IsEvse(evses[id], locationId, uid)
      ensures EvsesUpserted(old(evses), evses, locationId, map[uid := status])
    {
      if known :| known in evses && IsEvse(evses[known], locationId, uid) {
        id := known;
        evses := evses[id := evses[id].(ocpiStatus := status)];
      } else {
        id := nextEvse;
        evses := evses[id := Evse(locationId, Some(uid), status, None)];
        nextEvse := nextEvse + 1;
      }
      assert IsEvse(evses[id], locationId, uid);
      assert HasEvse(evses, locationId, uid);
    }

    /** The row of a connector. An update leaves all fields modelled here as they are, a deletion
        mark included. */
    method UpsertConnector(evseId: nat, ghost locationId: nat, ghost uid: string, name: string)
      requires Valid() && evseId in evses && IsEvse(evses[evseId], locationId, uid)
      modifies this`connectors, this`nextConnector
      ensures Valid() && ConnectorsUpserted(old(connectors), connectors, evses, locationId, {(uid, name)})
    {
      if known :| known in connectors && connectors[known].evseId == evseId && connectors[known].ocpiId == Some(name) {
        assert HasConnector(connectors, evses, locationId, uid, name);
      } else {
        connectors := connectors[nextConnector := Connector(evseId, Some(name), None)];
        assert IsConnector(connectors[nextConnector], evses, locationId, uid, name);
        nextConnector := nextConnector + 1;
      }
    }

    /** The connectors of one EVSE. The database takes any number of writes, or so many and raises
        at the next. */
    method UpsertConnectors(evseId: nat, ghost locationId: nat, ghost uid: string, names: seq<string>,
                            writes: Option<nat>, ghost before: Connectors, ghost named: set<(string, string)>)
      returns (ok: bool, left: Option<nat>, ghost now: set<(string, string)>)
      requires Valid() && evseId in evses && IsEvse(evses[evseId], locationId, uid)
      requires ConnectorsUpserted(before, connectors, evses, locationId, named)
      modifies this`connectors, this`nextConnector
      ensures Valid() && (writes.None? ==> ok && left.None?)
      ensures ConnectorsUpserted(before, connectors, evses, locationId, now)
      ensures named <= now <= named + NamedBy(uid, names) && (ok ==> now == named + NamedBy(uid, names))
    {
      left := writes;
      now := named;
      for j := 0 to |names|
        invariant Valid() && (writes.None? ==> left.None?)
        invariant ConnectorsUpserted(before, connectors, evses, locationId, now)
        invariant now == named + NamedBy(uid, names[..j])
      {
        if left == Some(0) {
          return false, left, now;
        }
        left := OneLess(left);
        ghost var mid := connectors;
        UpsertConnector(evseId, locationId, uid, names[j]);
        NextConnector(before, mid, connectors, evses, locationId, now, uid, names[j]);
        NamedByNext(uid, names, j);
        now := now + {(uid, names[j])};
      }
      assert names[..|names|] == names;
      return true, left, now;
    }

    /** One EVSE with its connectors, after others of the location. */
    method UpsertEvseForPartner(locationId: nat, evse: EvseDTO, writes: Option<nat>, ghost evsesBefore: Evses,
                                ghost before: Connectors, ghost statuses: map<string, string>,
                                ghost named: set<(string, string)>)
      returns (ok: bool, left: Option<nat>, ghost now: set<(string, string)>)
      requires Valid() && EvsesUpserted(evsesBefore, evses, locationId, statuses)
      requires ConnectorsUpserted(before, connectors, evses, locationId, named)
      modifies this`evses, this`connectors, this`nextEvse, this`nextConnector
      ensures Valid() && (writes.None? ==> ok && left.None?)
      ensures EvsesUpserted(evsesBefore, evses, locationId, statuses[evse.uid := evse.status])
      ensures ConnectorsUpserted(before, connectors, evses, locationId, now)
      ensures now <= named + NamedBy(evse.uid, evse.connectors)
      ensures ok ==> now == named + NamedBy(evse.uid, evse.connectors)
    {
      ghost var mid := evses;
      var id := UpsertEvse(locationId, evse.uid, evse.status);
      NextEvse(evsesBefore, mid, evses, locationId, statuses, evse.uid, evse.status);
      ConnectorsStay(before, connectors, mid, evses, locationId, named);
      ok, left, now := UpsertConnectors(id, locationId, evse.uid, evse.connectors, writes, before, named);
    }

    /** The EVSEs of a location, each with its connectors. */
    method UpsertEvses(locationId: nat, payload: seq<EvseDTO>, writes: Option<nat>)
      returns (ok: bool, left: Option<nat>, ghost upTo: nat, ghost named: set<(string, string)>)
      requires Valid()
      modifies this`evses, this`connectors, this`nextEvse, this`nextConnector
      ensures Valid() && (writes.None? ==> ok && left.None?)
      ensures upTo <= |payload| && EvsesUpserted(old(evses), evses, locationId, Statuses(payload[..upTo]))
      ensures named <= Named(payload) && ConnectorsUpserted(old(connectors), connectors, evses, locationId, named)
      ensures ok ==> upTo == |payload| && named == Named(payload)
    {
      left, upTo, named := writes, 0, {};
      for i := 0 to |payload|
        invariant Valid() && (writes.None? ==> left.None?) && upTo == i && named == Named(payload[..i])
        invariant EvsesUpserted(old(evses), evses, locationId, Statuses(payload[..i]))
        invariant ConnectorsUpserted(old(connectors), connectors, evses, locationId, named)
      {
        NamedPrefix(payload, i);
        if left == Some(0) {
          return false, left, i, named;
        }
        left := OneLess(left);
        NamedNext(payload, i);
        NamedPrefix(payload, i + 1);
        ok, left, named := UpsertEvseForPartner(locationId, payload[i], left, old(evses), old(connectors),
                                                Statuses(payload[..i]), named);
        upTo := i + 1;
        if !ok {
          return false, left, upTo, named;
        }
      }
      assert payload[..|payload|] == payload;
      return true, left, upTo, named;
    }

    // ------------------------------------------------------------------- whole pull

    /** The row the upsert of a location finds or adds. An update leaves all fields modelled
        here as they are, a removal mark included. */
    method UpsertLocation(partnerId: nat, ocpiId: string, roamingPartnerId: Option<nat>) returns (id: nat)
      requires Valid()
      modifies this`locations, this`nextId
      ensures Valid() && id in locations && Matches(locations[id], partnerId, ocpiId, roamingPartnerId)
      ensures var row := locations[id];
              row.partnerId == partnerId && row.ocpiId == Some(ocpiId)
              && (roamingPartnerId.Some? ==> row.roamingPartnerId == roamingPartnerId)
      ensures locations == old(locations)
              || (id !in old(locations)
                  && locations == old(locations)[id := Location(Some(ocpiId), partnerId, roamingPartnerId, None)])
      ensures locations != old(locations) ==>
                forall k :: k in old(locations) ==>
                  var row := old(locations)[k];
                  row.partnerId != partnerId || row.ocpiId != Some(ocpiId)
                  || (roamingPartnerId.Some? && row.roamingPartnerId != roamingPartnerId)
    {
      if known :| known in locations && Matches(locations[known], partnerId, ocpiId, roamingPartnerId) {
        return known;
      }
      id := nextId;
      locations := locations[id := Location(Some(ocpiId), partnerId, roamingPartnerId, None)];
      nextId := nextId + 1;
    }

    method MarkLocationRemoved(id: nat, now: int)
      requires Valid() && id in locations
      modifies this`locations
      ensures Valid() && locations == old(locations)[id := old(locations)[id].(deletedAt := Some(now))]
    {
      locations := locations[id := locations[id].(deletedAt := Some(now))];
    }

    /** The end of the work on a location: it is looked up again, and reconciled if found. */
    method ReconcileItem(ghost u: Upsert, item: Item, partnerId: nat, scope: Scope, full: bool, now: int,
                         writes: Option<nat>)
      requires Valid() && item.Pulled? && evses == u.evses && connectors == u.connectors
      requires item.outcome.Done? ==> writes.None?
      modifies this`evses, this`connectors
      ensures Valid() && Reconciled(locations, evses, connectors, u, item, partnerId, scope, full, now)
    {
      var roaming := LookedUpFor(scope, item);
      if id :| id in locations && Matches(locations[id], partnerId, item.id, roaming) {
        var _ := ReconcileEvses(id, item.evses, full, now, writes);
        PartlyUnique(u.evses, u.connectors, evses, connectors, id, item.evses, full, now);
        assert ReconciledFor(evses, connectors, u, item, id, full, now);
      }
    }

    /** upsertLocationForPartner: the row of a location, and its EVSEs and connectors. */
    method UpsertItem(item: Item, partnerId: nat, writes: Option<nat>)
      returns (row: nat, ok: bool, left: Option<nat>, ghost u: Upsert)
      requires Valid() && item.Pulled? && (item.outcome.Done? ==> writes.None?)
      modifies this
      ensures Valid() && (writes.None? ==> ok && left.None?)
      ensures u.row == row && u.evses == evses && u.connectors == connectors
      ensures u.row in locations && Matches(locations[u.row], partnerId, item.id, item.roamingPartnerId)
      ensures locations == old(locations)
              || (u.row !in old(locations)
                  && locations
                     == old(locations)[u.row := Location(Some(item.id), partnerId, item.roamingPartnerId, None)])
      ensures UpsertFits(old(evses), old(connectors), u, item)
    {
      row := UpsertLocation(partnerId, item.id, item.roamingPartnerId);
      ghost var upTo, named;
      ok, left, upTo, named := UpsertEvses(row, item.evses, writes);
      u := Upsert(row, evses, connectors, upTo, named);
    }

    /** The removal mark a partial pull may set, and the reconciliation. */
    method FinishItem(ghost u: Upsert, row: nat, item: Item, partnerId: nat, scope: Scope, full: bool, now: int,
                      writes: Option<nat>)
      requires Valid() && item.Pulled? && Possible([item], scope) && (item.outcome.Done? ==> writes.None?)
      requires evses == u.evses && connectors == u.connectors && row in locations
      modifies this
      ensures Valid()
      ensures locations == old(locations)
              || (!full && AllRemoved(item.evses)
                  && locations == old(locations)[row := old(locations)[row].(deletedAt := Some(now))])
      ensures !full && AllRemoved(item.evses) && item.outcome.Done? ==> locations[row].deletedAt == Some(now)
      ensures Reconciled(locations, evses, connectors, u, item, partnerId, scope, full, now)
    {
      var left := writes;
      if !full && AllRemoved(item.evses) {
        if left == Some(0) {
          NotReconciled(locations, u, item, partnerId, scope, full, now);
          return;
        }
        left := OneLess(left);
        MarkLocationRemoved(row, now);
      }
      assert item in [item];
      if scope.UnknownRoaming? {
        NotReconciled(locations, u, item, partnerId, scope, full, now);
      } else {
        ReconcileItem(u, item, partnerId, scope, full, now, left);
      }
    }

    /** One location of a page: its row, its EVSEs and connectors, the removal mark a partial pull
        may set, and the reconciliation. */
    method PullItem(item: Item, partnerId: nat, scope: Scope, full: bool, now: int) returns (ghost u: Upsert)
      requires Valid() && item.Pulled? && Possible([item], scope)
      modifies this
      ensures Valid() && PagesEffect(old(locations), locations, partnerId, [item], full, now)
      ensures Stored(locations, partnerId, [item])
      ensures !full && item.evses != [] && (forall e :: e in item.evses ==> e.status == "REMOVED")
              && item.outcome.Done? ==>
                u.row in locations && locations[u.row].deletedAt == Some(now)
      ensures full || item.evses == [] || (exists e :: e in item.evses && e.status != "REMOVED") ==>
                forall id :: id in old(locations) ==> id in locations && locations[id] == old(locations)[id]
      ensures item.outcome.Refused? ==>
                locations == old(locations) && evses == old(evses) && connectors == old(connectors)
      ensures !item.outcome.Refused? ==>
                && u.row in locations && Matches(locations[u.row], partnerId, item.id, item.roamingPartnerId)
                && UpsertFits(old(evses), old(connectors), u, item)
                && Reconciled(locations, evses, connectors, u, item, partnerId, scope, full, now)
    {
      u := Upsert(0, evses, connectors, 0, {});
      if item.outcome.Refused? {
        return;
      }
      var row, ok, left;
      row, ok, left, u :=
        UpsertItem(item, partnerId, if item.outcome.Interrupted? then Some(item.outcome.writes) else None);
      ghost var mid := locations;
      if ok {
        FinishItem(u, row, item, partnerId, scope, full, now, left);
      } else {
        NotReconciled(locations, u, item, partnerId, scope, full, now);
      }
      AllRemovedExactly(item.evses);
      ItemEffect(old(locations), mid, locations, u.row, item, partnerId, full, now);
    }

    /** The loop over the items of one page, after those of the pages before. */
    method PullPage(ghost earlier: seq<Item>, items: seq<Item>, partnerId: nat, scope: Scope, full: bool, now: int)
      returns (seen: set<string>, succeeded: nat, failed: nat, skipped: nat)
      requires Valid() && Possible(items, scope)
      requires Settled(locations, evses, connectors, earlier, partnerId, scope, full)
      modifies this
      ensures Valid() && PagesEffect(old(locations), locations, partnerId, items, full, now)
      ensures Stored(locations, partnerId, items) && seen == SeenIds(items)
      ensures Settled(locations, evses, connectors, earlier + items, partnerId, scope, full)
      ensures Counts(items, succeeded, failed, skipped)
    {
      seen, succeeded, failed, skipped := {}, 0, 0, 0;
      assert earlier + items[..0] == earlier;
      for i := 0 to |items|
        invariant Valid() && PagesEffect(old(locations), locations, partnerId, items[..i], full, now)
        invariant Stored(locations, partnerId, items[..i])
        invariant Settled(locations, evses, connectors, earlier + items[..i], partnerId, scope, full)
        invariant seen == SeenIds(items[..i]) && Counts(items[..i], succeeded, failed, skipped)
      {
        var item := items[i];
        NextItem(items, i);
        assert earlier + items[..i + 1] == (earlier + items[..i]) + [item];
        ghost var mid, evsesWere, connectorsWere := locations, evses, connectors;
        if item.Invalid? {
          skipped := skipped + 1;
        } else {
          seen := seen + {item.id};
          ghost var u := PullItem(item, partnerId, scope, full, now);
          if !item.outcome.Refused? {
            ItemSettles(mid, evsesWere, connectorsWere, locations, evses, connectors, u, earlier + items[..i], item,
                        partnerId, scope, full, now);
          }
          if item.outcome.Done? {
            succeeded := succeeded + 1;
          } else {
            failed := failed + 1;
          }
        }
        if item.Invalid? || item.outcome.Refused? {
          NothingSettles(locations, evses, connectors, earlier + items[..i], item, partnerId, scope, full);
        }
        EffectAppend(old(locations), mid, locations, partnerId, items[..i], [item], full, now);
      }
      assert items[..|items|] == items;
    }

    /** The loop over the pages: the ids seen, failed ones included, and the counters. A request
        that raises ends it. */
    method PullPages(pages: seq<Page>, partnerId: nat, scope: Scope, full: bool, now: int)
      returns (ok: bool, seen: set<string>, succeeded: nat, failed: nat, skipped: nat)
      requires Valid() && Possible(AllItems(pages), scope)
      modifies this
      ensures Valid() && PagesEffect(old(locations), locations, partnerId, AllItems(pages), full, now)
      ensures ok <==> RequestFails !in pages
      ensures ok ==> && seen == SeenIds(AllItems(pages)) && Stored(locations, partnerId, AllItems(pages))
                     && Settled(locations, evses, connectors, AllItems(pages), partnerId, scope, full)
                     && Counts(AllItems(pages), succeeded, failed, skipped)
    {
      seen, succeeded, failed, skipped := {}, 0, 0, 0;
      for p := 0 to |pages|
        invariant Valid() && PagesEffect(old(locations), locations, partnerId, AllItems(pages[..p]), full, now)
        invariant Stored(locations, partnerId, AllItems(pages[..p])) && RequestFails !in pages[..p]
        invariant Settled(locations, evses, connectors, AllItems(pages[..p]), partnerId, scope, full)
        invariant seen == SeenIds(AllItems(pages[..p])) && Counts(AllItems(pages[..p]), succeeded, failed, skipped)
      {
        ghost var done := AllItems(pages[..p]);
        EarlierPages(pages, p);
        if pages[p].RequestFails? {
          MoreItems(old(locations), locations, partnerId, done, AllItems(pages), full, now);
          return false, seen, succeeded, failed, skipped;
        }
        var items := pages[p].items;
        NextPage(pages, p);
        EarlierPages(pages, p + 1);
        ghost var mid := locations;
        var pageSeen, pageSucceeded, pageFailed, pageSkipped := PullPage(done, items, partnerId, scope, full, now);
        EffectAppend(old(locations), mid, locations, partnerId, done, items, full, now);
        CountsAppend(done, items);
        seen := seen + pageSeen;
        succeeded, failed, skipped := succeeded + pageSucceeded, failed + pageFailed, skipped + pageSkipped;
      }
      assert pages[..|pages|] == pages;
      return true, seen, succeeded, failed, skipped;
    }

    /** syncDeletedLocations; the marks of the rows in `failing` cannot be written. */
    method SyncDeleted(partnerId: nat, scope: Scope, seen: set<string>, failing: set<nat>, now: int)
      returns (markedRemoved: nat, markRemovedFailed: nat)
      requires Valid() && !scope.UnknownRoaming?
      modifies this`locations
      ensures Valid() && FullPull(old(locations), locations, partnerId, scope, seen, failing, now)
      ensures locations.Keys == old(locations).Keys
      ensures markRemovedFailed == |MissingIds(old(locations), partnerId, scope, seen) * failing|
      ensures markedRemoved + markRemovedFailed == |MissingIds(old(locations), partnerId, scope, seen)|
    {
      markedRemoved, markRemovedFailed := 0, 0;
      var todo := MissingIds(locations, partnerId, scope, seen);
      ghost var missing := todo;
      while todo != {}
        invariant Valid() && locations.Keys == old(locations).Keys && todo <= old(locations).Keys
        invariant Marking(old(locations), locations, missing, todo, failing, now, markedRemoved, markRemovedFailed)
        decreases todo
      {
        var id :| id in todo;
        MarkOne(old(locations), locations, missing, todo, failing, now, markedRemoved, markRemovedFailed, id);
        if id in failing {
          markRemovedFailed := markRemovedFailed + 1;
        } else {
          MarkLocationRemoved(id, now);
          markedRemoved := markedRemoved + 1;
        }
        todo := todo - {id};
      }
      AllMarked(old(locations), locations, partnerId, scope, seen, failing, now, markedRemoved, markRemovedFailed);
    }

    /** PullPartnerLocations: a pull without date bounds is a full one. None stands for a pull
        that raises; a full pull that raises has marked nothing. */
    method PullPartnerLocations(pages: seq<Page>, partnerId: nat, scope: Scope, full: bool, failing: set<nat>, now: int)
      returns (summary: Option<Summary>)
      requires Valid() && Possible(AllItems(pages), scope)
      modifies this
      ensures Valid()
      ensures summary.None? <==> RequestFails in pages || (full && scope.UnknownRoaming?)
      ensures summary.None? || !full ==> PagesEffect(old(locations), locations, partnerId, AllItems(pages), full, now)
      ensures summary.Some? && full ==>
                FullPull(old(locations), locations, partnerId, scope, SeenIds(AllItems(pages)), failing, now)
      ensures summary.Some? ==>
                && Stored(locations, partnerId, AllItems(pages))
                && Settled(locations, evses, connectors, AllItems(pages), partnerId, scope, full)
      ensures summary.Some? ==>
                var s, items := summary.value, AllItems(pages);
                && s.processed == |items| == s.succeeded + s.failed + s.skipped
                && Counts(items, s.succeeded, s.failed, s.skipped)
                && (s.markedRemoved.Some? <==> full) && (s.markRemovedFailed.Some? <==> full)
      ensures summary.Some? && full ==>
                var missing := MissingIds(old(locations), partnerId, scope, SeenIds(AllItems(pages)));
                && summary.value.markRemovedFailed == Some(|missing * failing|)
                && summary.value.markedRemoved == Some(|missing| - |missing * failing|)
    {
      var ok, seen, succeeded, failed, skipped := PullPages(pages, partnerId, scope, full, now);
      if !ok {
        return None;
      }
      var processed := succeeded + failed + skipped;
      CountsAddUp(AllItems(pages));
      if !full {
        return Some(Summary(processed, succeeded, failed, skipped, None, None));
      }
      if scope.UnknownRoaming? {
        return None;
      }
      ghost var mid := locations;
      var markedRemoved, markRemovedFailed := SyncDeleted(partnerId, scope, seen, failing, now);
      NewRowsAreSeen(old(locations), mid, locations, partnerId, scope, AllItems(pages), failing, now);
      MarksKeepStored(mid, locations, partnerId, scope, AllItems(pages), failing, now);
      MarksKeepSettled(mid, locations, evses, connectors, partnerId, scope, AllItems(pages), failing, now);
      return Some(Summary(processed, succeeded, failed, skipped, Some(markedRemoved), Some(markRemovedFailed)));
    }
  }

  function MissingIds(locations: Locations, partnerId: nat, scope: Scope, seen: set<string>): set<nat> {
    set id | id in locations && Missing(locations[id], partnerId, scope, seen)
  }

  predicate Counts(items: seq<Item>, succeeded: nat, failed: nat, skipped: nat) {
    succeeded == Count(items, IsDone) && failed == Count(items, IsFailed) && skipped == Count(items, IsInvalid)
  }

  lemma {:induction false} CountAppend(items: seq<Item>, more: seq<Item>, wanted: Item -> bool)
    ensures Count(items + more, wanted) == Count(items, wanted) + Count(more, wanted)
  {
    if more == [] {
      assert items + more == items;
    } else {
      assert (items + more)[..|items + more| - 1] == items + more[..|more| - 1];
      CountAppend(items, more[..|more| - 1], wanted);
    }
  }

  lemma CountsAppend(items: seq<Item>, more: seq<Item>)
    ensures Count(items + more, IsDone) == Count(items, IsDone) + Count(more, IsDone)
    ensures Count(items + more, IsFailed) == Count(items, IsFailed) + Count(more, IsFailed)
    ensures Count(items + more, IsInvalid) == Count(items, IsInvalid) + Count(more, IsInvalid)
  {
    CountAppend(items, more, IsDone);
    CountAppend(items, more, IsFailed);
    CountAppend(items, more, IsInvalid);
  }

  lemma NextItem(items: seq<Item>, i: nat)
    requires i < |items|
    ensures items[..i + 1] == items[..i] + [items[i]]
    ensures SeenIds(items[..i + 1]) == SeenIds(items[..i]) + if items[i].Pulled? then {items[i].id} else {}
    ensures forall s: nat, f: nat, k: nat :: Counts(items[..i], s, f, k) ==>
                                Counts(items[..i + 1], s + if IsDone(items[i]) then 1 else 0,
                                       f + if IsFailed(items[i]) then 1 else 0,
                                       k + if IsInvalid(items[i]) then 1 else 0)
  {
    assert items[..i + 1] == items[..i] + [items[i]];
    CountsAppend(items[..i], [items[i]]);
    assert [items[i]][..0] == [];
  }

  lemma NextPage(pages: seq<Page>, p: nat)
    requires p < |pages| && pages[p].Page?
    ensures AllItems(pages[..p + 1]) == AllItems(pages[..p]) + pages[p].items
  {
    assert pages[..p + 1][..p] == pages[..p];
  }

  /** The loop of syncDeletedLocations: `to` is `from` with the missing rows but those in
      `todo` and `failing` marked, and the counters say how many have been dealt with. */
  ghost predicate Marking(from: Locations, to: Locations, missing: set<nat>, todo: set<nat>, failing: set<nat>,
                          now: int, marked: nat, failed: nat) {
    && todo <= missing <= from.Keys == to.Keys
    && (forall id :: id in to ==>
                       to[id] == if id in missing && id !in todo && id !in failing
                                 then from[id].(deletedAt := Some(now)) else from[id])
    && failed == |(missing - todo) * failing|
    && marked + failed == |missing - todo|
  }

  lemma MarkOne(from: Locations, to: Locations, missing: set<nat>, todo: set<nat>, failing: set<nat>, now: int,
                marked: nat, failed: nat, id: nat)
    requires Marking(from, to, missing, todo, failing, now, marked, failed) && id in todo
    ensures id in failing ==> Marking(from, to, missing, todo - {id}, failing, now, marked, failed + 1)
    ensures id !in failing ==>
              Marking(from, to[id := to[id].(deletedAt := Some(now))],
                      missing, todo - {id}, failing, now, marked + 1, failed)
  {
    var done := missing - todo;
    assert missing - (todo - {id}) == done + {id};
    assert (done + {id}) * failing == if id in failing then done * failing + {id} else done * failing;
  }

  lemma AllMarked(from: Locations, to: Locations, partnerId: nat, scope: Scope, seen: set<string>, failing: set<nat>,
                  now: int, marked: nat, failed: nat)
    requires Marking(from, to, MissingIds(from, partnerId, scope, seen), {}, failing, now, marked, failed)
    ensures FullPull(from, to, partnerId, scope, seen, failing, now)
    ensures failed == |MissingIds(from, partnerId, scope, seen) * failing|
    ensures marked + failed == |MissingIds(from, partnerId, scope, seen)|
  {
    assert MissingIds(from, partnerId, scope, seen) - {} == MissingIds(from, partnerId, scope, seen);
  }

  lemma {:induction false} CountsAddUp(items: seq<Item>)
    ensures Count(items, IsDone) + Count(items, IsFailed) + Count(items, IsInvalid) == |items|
  {
    if items != [] {
      CountsAddUp(items[..|items| - 1]);
    }
  }

  lemma {:induction false} EarlierPages(pages: seq<Page>, p: nat)
    requires p <= |pages|
    ensures forall i :: i in AllItems(pages[..p]) ==> i in AllItems(pages)
  {
    if p == |pages| {
      assert pages[..p] == pages;
    } else {
      EarlierPages(pages[..|pages| - 1], p);
      assert pages[..|pages| - 1][..p] == pages[..p];
    }
  }

  lemma MoreItems(before: Locations, after: Locations, partnerId: nat, items: seq<Item>, more: seq<Item>, full: bool,
                  now: int)
    requires PagesEffect(before, after, partnerId, items, full, now)
    requires forall i :: i in items ==> i in more
    ensures PagesEffect(before, after, partnerId, more, full, now)
  {
    assert SeenIds(items) <= SeenIds(more);
  }

  lemma EffectAppend(before: Locations, mid: Locations, after: Locations, partnerId: nat, items: seq<Item>,
                     more: seq<Item>, full: bool, now: int)
    requires PagesEffect(before, mid, partnerId, items, full, now)
    requires PagesEffect(mid, after, partnerId, more, full, now)
    requires Stored(mid, partnerId, items) && Stored(after, partnerId, more)
    ensures PagesEffect(before, after, partnerId, items + more, full, now)
    ensures Stored(after, partnerId, items + more)
  {
    MoreItems(before, mid, partnerId, items, items + more, full, now);
    MoreItems(mid, after, partnerId, more, items + more, full, now);
    forall i | i in items && i.Pulled? && !i.outcome.Refused?
      ensures exists id :: id in after && Matches(after[id], partnerId, i.id, i.roamingPartnerId)
    {
      var id :| id in mid && Matches(mid[id], partnerId, i.id, i.roamingPartnerId);
      assert id in after && Matches(after[id], partnerId, i.id, i.roamingPartnerId);
    }
  }

  lemma NewRowsAreSeen(before: Locations, mid: Locations, after: Locations, partnerId: nat, scope: Scope,
                       items: seq<Item>, failing: set<nat>, now: int)
    requires PagesEffect(before, mid, partnerId, items, true, now)
    requires FullPull(mid, after, partnerId, scope, SeenIds(items), failing, now) && after.Keys == mid.Keys
    ensures FullPull(before, after, partnerId, scope, SeenIds(items), failing, now)
    ensures MissingIds(before, partnerId, scope, SeenIds(items)) == MissingIds(mid, partnerId, scope, SeenIds(items))
  {
  }

  lemma MarksKeepStored(mid: Locations, after: Locations, partnerId: nat, scope: Scope, items: seq<Item>,
                        failing: set<nat>, now: int)
    requires Stored(mid, partnerId, items) && FullPull(mid, after, partnerId, scope, SeenIds(items), failing, now)
    ensures Stored(after, partnerId, items)
  {
    forall i | i in items && i.Pulled? && !i.outcome.Refused?
      ensures exists id :: id in after && Matches(after[id], partnerId, i.id, i.roamingPartnerId)
    {
      var id :| id in mid && Matches(mid[id], partnerId, i.id, i.roamingPartnerId);
      assert id in after && Matches(after[id], partnerId, i.id, i.roamingPartnerId);
    }
  }

  lemma ItemEffect(before: Locations, mid: Locations, after: Locations, row: nat, item: Item, partnerId: nat,
                   full: bool, now: int)
    requires item.Pulled? && row in mid && Matches(mid[row], partnerId, item.id, item.roamingPartnerId)
    requires mid == before
             || (row !in before
                 && mid == before[row := Location(Some(item.id), partnerId, item.roamingPartnerId, None)])
    requires after == mid
             || (!full && AllRemoved(item.evses) && after == mid[row := mid[row].(deletedAt := Some(now))])
    ensures PagesEffect(before, after, partnerId, [item], full, now) && Stored(after, partnerId, [item])
    ensures row in after && Matches(after[row], partnerId, item.id, item.roamingPartnerId)
  {
    assert item in [item];
  }

  lemma NotReconciled(locations: Locations, u: Upsert, item: Item, partnerId: nat, scope: Scope, full: bool, now: int)
    requires item.Pulled?
    ensures !item.outcome.Done? ==>
              Reconciled(locations, u.evses, u.connectors, u, item, partnerId, scope, full, now)
  {
    if id :| id in locations && Matches(locations[id], partnerId, item.id, LookedUpFor(scope, item)) {
      assert !item.outcome.Done? ==> ReconciledFor(u.evses, u.connectors, u, item, id, full, now);
    }
  }

  // ------------------------------------------- EVSEs and connectors over a whole pull

  lemma NothingSettles(locations: Locations, evses: Evses, connectors: Connectors, items: seq<Item>, item: Item,
                       partnerId: nat, scope: Scope, full: bool)
    requires Settled(locations, evses, connectors, items, partnerId, scope, full) && !IsDone(item)
    ensures Settled(locations, evses, connectors, items + [item], partnerId, scope, full)
  {
    forall k, row | 0 <= k < |items + [item]| && IsDone((items + [item])[k]) && LastOfItsId(items + [item], k)
                    && OnlyRow(locations, partnerId, scope, (items + [item])[k], row)
      ensures Fits(evses, connectors, row, (items + [item])[k], full)
    {
      EarlierLast(items, item, k);
    }
  }

  lemma EarlierLast(items: seq<Item>, item: Item, k: nat)
    requires k < |items| && items[k].Pulled? && LastOfItsId(items + [item], k)
    ensures (items + [item])[k] == items[k] && LastOfItsId(items, k)
    ensures item.Pulled? && !item.outcome.Refused? ==> item.id != items[k].id
  {
    assert (items + [item])[|items|] == item;
    assert forall j :: 0 <= j < |items| ==> (items + [item])[j] == items[j];
  }

  /** A row of another id is as it was before the item. */
  lemma EarlierRow(before: Locations, after: Locations, partnerId: nat, scope: Scope, item: Item, other: Item,
                   full: bool, now: int, row: nat)
    requires PagesEffect(before, after, partnerId, [item], full, now) && item.Pulled?
    requires other.Pulled? && other.id != item.id && OnlyRow(after, partnerId, scope, other, row)
    ensures OnlyRow(before, partnerId, scope, other, row) && row !in RowsOf(after, partnerId, item.id)
  {
    assert row in before;
    assert row in RowsOf(before, partnerId, other.id);
    forall id | id in RowsOf(before, partnerId, other.id)
      ensures id in RowsOf(after, partnerId, other.id) && after[id].roamingPartnerId == before[id].roamingPartnerId
    {
    }
  }

  lemma WorkKeepsOthers(locations: Locations, evses: Evses, connectors: Connectors, evses': Evses,
                        connectors': Connectors, u: Upsert, item: Item, partnerId: nat, scope: Scope, full: bool,
                        now: int)
    requires item.Pulled? && UpsertFits(evses, connectors, u, item)
    requires u.row in RowsOf(locations, partnerId, item.id)
    requires Reconciled(locations, evses', connectors', u, item, partnerId, scope, full, now)
    ensures exists rows :: rows <= RowsOf(locations, partnerId, item.id)
                           && OthersKept(evses, connectors, evses', connectors', rows)
  {
    UpsertKeepsOthers(evses, connectors, u.evses, u.connectors, u.row, Statuses(item.evses[..u.upTo]), u.named);
    var roaming := LookedUpFor(scope, item);
    if exists id :: id in locations && Matches(locations[id], partnerId, item.id, roaming) {
      var id :| id in locations && Matches(locations[id], partnerId, item.id, roaming)
                && ReconciledFor(evses', connectors', u, item, id, full, now);
      ReconcileKeepsOthers(u.evses, u.connectors, evses', connectors', id, item.evses, full, now);
      OthersKeptTwice(evses, connectors, u.evses, u.connectors, evses', connectors', {u.row}, {id});
      assert {u.row} + {id} <= RowsOf(locations, partnerId, item.id);
    } else {
      assert {u.row} <= RowsOf(locations, partnerId, item.id);
    }
  }

  /** An item done without a failure leaves its location as it says. */
  lemma WorkFits(locations: Locations, evses: Evses, connectors: Connectors, evses': Evses, connectors': Connectors,
                 u: Upsert, item: Item, partnerId: nat, scope: Scope, full: bool, now: int, row: nat)
    requires IsDone(item) && UpsertFits(evses, connectors, u, item)
    requires u.row in locations && Matches(locations[u.row], partnerId, item.id, item.roamingPartnerId)
    requires OnlyRow(locations, partnerId, scope, item, row)
    requires Reconciled(locations, evses', connectors', u, item, partnerId, scope, full, now)
    ensures Fits(evses', connectors', row, item, full)
  {
    assert item.evses[..|item.evses|] == item.evses;
    assert u.row in RowsOf(locations, partnerId, item.id) && u.row == row;
    var id :| id in locations && Matches(locations[id], partnerId, item.id, LookedUpFor(scope, item))
              && ReconciledFor(evses', connectors', u, item, id, full, now);
    assert id in RowsOf(locations, partnerId, item.id);
    PulledEvsesFit(evses, u.evses, row, item.evses, full);
    PulledConnectorsFit(connectors, u.connectors, u.evses, row, item.evses, full, now);
  }

  lemma ItemSettles(before: Locations, evses: Evses, connectors: Connectors, after: Locations, evses': Evses,
                    connectors': Connectors, u: Upsert, items: seq<Item>, item: Item, partnerId: nat, scope: Scope,
                    full: bool, now: int)
    requires Settled(before, evses, connectors, items, partnerId, scope, full) && item.Pulled?
    requires PagesEffect(before, after, partnerId, [item], full, now) && UpsertFits(evses, connectors, u, item)
    requires u.row in after && Matches(after[u.row], partnerId, item.id, item.roamingPartnerId)
    requires !item.outcome.Refused?
    requires Reconciled(after, evses', connectors', u, item, partnerId, scope, full, now)
    ensures Settled(after, evses', connectors', items + [item], partnerId, scope, full)
  {
    var all := items + [item];
    forall k, row | 0 <= k < |all| && IsDone(all[k]) && LastOfItsId(all, k)
                    && OnlyRow(after, partnerId, scope, all[k], row)
      ensures Fits(evses', connectors', row, all[k], full)
    {
      if k == |items| {
        WorkFits(after, evses, connectors, evses', connectors', u, item, partnerId, scope, full, now, row);
      } else {
        EarlierLast(items, item, k);
        EarlierRow(before, after, partnerId, scope, item, items[k], full, now, row);
        WorkKeepsOthers(after, evses, connectors, evses', connectors', u, item, partnerId, scope, full, now);
        var rows :| rows <= RowsOf(after, partnerId, item.id)
                    && OthersKept(evses, connectors, evses', connectors', rows);
        OthersStillFit(evses, connectors, evses', connectors', rows, row, items[k].evses, full);
      }
    }
  }

  lemma MarksKeepSettled(mid: Locations, after: Locations, evses: Evses, connectors: Connectors, partnerId: nat,
                         scope: Scope, items: seq<Item>, failing: set<nat>, now: int)
    requires Settled(mid, evses, connectors, items, partnerId, scope, true) && after.Keys == mid.Keys
    requires FullPull(mid, after, partnerId, scope, SeenIds(items), failing, now)
    ensures Settled(after, evses, connectors, items, partnerId, scope, true)
  {
    forall k, row | 0 <= k < |items| && IsDone(items[k]) && LastOfItsId(items, k)
                    && OnlyRow(after, partnerId, scope, items[k], row)
      ensures Fits(evses, connectors, row, items[k], true)
    {
      assert RowsOf(mid, partnerId, items[k].id) == RowsOf(after, partnerId, items[k].id);
    }
  }

  /** Which rows a full pull marks, and which it leaves as they were: those of the partner, or
      of the one roaming partner it is for, that have an id the pages did not list. */
  lemma MarkedExactly(before: Locations, after: Locations, partnerId: nat, scope: Scope, seen: set<string>,
                      failing: set<nat>, now: int, id: nat)
    requires FullPull(before, after, partnerId, scope, seen, failing, now) && id in before
    requires !scope.UnknownRoaming?
    ensures var row := before[id];
            id in after
            && after[id] == if row.partnerId == partnerId && row.ocpiId.Some? && row.ocpiId.value !in seen
                               && (scope == Whole || row.roamingPartnerId == Some(scope.id)) && id !in failing
                            then row.(deletedAt := Some(now)) else row
  {
  }

  // ----------------------------------------------------------------- runs of pulls

  /** One full pull of a partner as far as deletion goes. */
  datatype Pull = Pull(scope: Scope, seen: set<string>, failing: set<nat>, now: int)

  /** tables[k + 1] is what pulls[k] makes of tables[k]. */
  ghost predicate Pulls(tables: seq<Locations>, pulls: seq<Pull>, partnerId: nat) {
    && |tables| == |pulls| + 1
    && forall k :: 0 <= k < |pulls| ==>
                     FullPull(tables[k], tables[k + 1], partnerId,
                              pulls[k].scope, pulls[k].seen, pulls[k].failing, pulls[k].now)
  }

  /** Which locations are left unmarked after any sequence of full pulls: those unmarked before
      that each pull either listed, was not about, or failed to mark. */
  lemma {:induction false} UnmarkedAfterPulls(tables: seq<Locations>, pulls: seq<Pull>, partnerId: nat, id: nat)
    requires Pulls(tables, pulls, partnerId) && id in tables[0]
    ensures id in tables[|pulls|]
    ensures tables[|pulls|][id].(deletedAt := None) == tables[0][id].(deletedAt := None)
    ensures tables[|pulls|][id].deletedAt.None? <==>
            && tables[0][id].deletedAt.None?
            && forall k :: 0 <= k < |pulls| ==>
                             !Missing(tables[0][id], partnerId, pulls[k].scope, pulls[k].seen) || id in pulls[k].failing
  {
    if pulls != [] {
      var n := |pulls| - 1;
      UnmarkedAfterPulls(tables[..n + 1], pulls[..n], partnerId, id);
      assert tables[..n + 1][n] == tables[n];
      assert Missing(tables[n][id], partnerId, pulls[n].scope, pulls[n].seen)
             <==> Missing(tables[0][id], partnerId, pulls[n].scope, pulls[n].seen);
    }
  }

  /** A location once marked stays marked although later pulls list and store it again: the
      upsert does not take the mark away. */
  lemma ReturningLocationStaysMarked(tables: seq<Locations>, pulls: seq<Pull>, partnerId: nat, id: nat)
    requires Pulls(tables, pulls, partnerId) && id in tables[0] && tables[0][id].deletedAt.Some?
    ensures id in tables[|pulls|] && tables[|pulls|][id].deletedAt.Some?
  {
    UnmarkedAfterPulls(tables, pulls, partnerId, id);
  }
}
