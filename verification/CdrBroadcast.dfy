/**
 Sending a CDR to the partner that owns the token (CdrBroadcaster, CdrsService): the CDR is
 stored before it is sent, sent under the id it was first stored with, and marked as sent
 once the partner has accepted it. A push that fails may leave the CDR in the retry outbox,
 from which the worker POSTs it on its own account.
 */
module CdrBroadcast {
  import opened Numbers
  import opened ClientBroadcast

  /** A row of the Cdrs table, as far as SentCdr looks at it. */
  datatype Row = Row(ocpiCdrId: string, partnerId: nat, transactionId: Option<nat>, successfullySentAt: Option<int>)

  type Table = map<nat, Row>

  /** The outbox key of a CDR. */
  datatype Key = Key(partnerId: nat, ocpiCdrId: string)

  /** The unsettled outbox entries, with the row whose CDR each holds. */
  type Queue = map<Key, nat>

  datatype Sender = Broadcaster | Worker

  /** A POST of a CDR, and whether a success answered it. */
  datatype Sending = Sending(sender: Sender, partnerId: nat, rowId: nat, ocpiCdrId: string, delivered: bool)

  predicate Delivered(push: Push) {
    push.Answered? && push.codes == [Some(1000)]
  }

  /** A request failed and was put in the outbox. */
  predicate GoesToQueue(push: Push) {
    push.Answered? && push.queued
  }

  /** One partner, one request at most: what is queued has failed, and has no answer. */
  predicate Sound(push: Push) {
    push.Answered? ==> (push.queued ==> push.failed) && (push.failed ==> push.codes == [])
  }

  /** insertSentCdr looks a CDR up by its transaction, or by its id where there is none. */
  predicate Matches(row: Row, transactionId: Option<nat>, partnerId: nat, mappedId: string) {
    && row.partnerId == partnerId
    && if transactionId.Some? then row.transactionId == transactionId else row.ocpiCdrId == mappedId
  }

  predicate Known(rows: Table, transactionId: Option<nat>, partnerId: nat, mappedId: string) {
    exists id :: id in rows && Matches(rows[id], transactionId, partnerId, mappedId)
  }

  function KeyOf(row: Row): Key {
    Key(row.partnerId, row.ocpiCdrId)
  }

  class CdrSender {
    var rows: Table
    var queue: Queue
    /** Every POST of a CDR so far, the broadcaster's and the worker's. */
    var sendings: seq<Sending>

    constructor (rows: Table, queue: Queue)
      ensures this.rows == rows && this.queue == queue && sendings == []
    {
      this.rows, this.queue := rows, queue;
      sendings := [];
    }

    function Now(): System
      reads this
    {
      System(rows, queue, sendings)
    }

    /** The id of a matching row, or of a new one. */
    method InsertSentCdr(transactionId: Option<nat>, partnerId: nat, mappedId: string, newId: nat) returns (id: nat)
      requires newId !in rows
      modifies this`rows
      ensures if Known(old(rows), transactionId, partnerId, mappedId)
              then rows == old(rows) && id in rows && Matches(rows[id], transactionId, partnerId, mappedId)
              else id == newId && rows == old(rows)[newId := Row(mappedId, partnerId, transactionId, None)]
    {
      if known :| known in rows && Matches(rows[known], transactionId, partnerId, mappedId) {
        return known;
      }
      rows := rows[newId := Row(mappedId, partnerId, transactionId, None)];
      return newId;
    }

    method MarkCdrAsSent(id: nat, now: int)
      modifies this`rows
      ensures rows == Marked(old(rows), id, now)
    {
      if id in rows {
        rows := rows[id := rows[id].(successfullySentAt := Some(now))];
      }
    }

    /** broadcastPostCdr, once there is an owning partner. Without an id of its transaction no
        CDR can be mapped and nothing happens. Neither a failed push nor a failed mark leaves
        the method. */
    method BroadcastPostCdr(transactionId: Option<nat>, partnerId: nat, mappedId: string, newId: nat,
                            push: Push, now: int, markFails: bool) returns (id: Option<nat>)
      requires newId !in rows && Sound(push)
      modifies this
      ensures id.None? <==> transactionId.None?
      ensures id.None? ==> Now() == old(Now())
      ensures id.Some? ==>
                var e := Broadcast(transactionId.value, partnerId, mappedId, id.value, push, now, markFails);
                Possible(old(Now()), e) && Now() == Next(old(Now()), e)
    {
      if transactionId.None? {
        return None;
      }
      var rowId := InsertSentCdr(transactionId, partnerId, mappedId, newId);
      id := Some(rowId);
      var stored := rows[rowId];
      if stored.successfullySentAt.Some? {
        return;
      }
      if Requested(push) {
        sendings := sendings + [Sending(Broadcaster, partnerId, rowId, stored.ocpiCdrId, Delivered(push))];
      }
      if GoesToQueue(push) {
        queue := queue[KeyOf(stored) := rowId];
      }
      if Delivered(push) && !markFails {
        MarkCdrAsSent(rowId, now);
      }
    }

    /** The worker's retry of a queued CDR. It looks at no mark. A success marks a row with the
        CDR's id; any answer settles the entry, unless that fails or the entry was refreshed. */
    method RetryCdr(key: Key, response: Option<Option<int>>, markFails: bool, settles: bool, now: int)
      returns (marked: Option<nat>)
      requires key in queue
      modifies this
      ensures var e := Retry(key, response, marked, settles && response.Some?, now);
              Possible(old(Now()), e) && Now() == Next(old(Now()), e)
      ensures marked.None? && response == Some(Some(1000)) && !markFails ==>
                !Known(rows, None, key.partnerId, key.ocpiCdrId)
    {
      marked := None;
      sendings := sendings + [Sending(Worker, key.partnerId, queue[key], key.ocpiCdrId, response == Some(Some(1000)))];
      if response == Some(Some(1000)) && !markFails {
        if known :| known in rows && Matches(rows[known], None, key.partnerId, key.ocpiCdrId) {
          MarkCdrAsSent(known, now);
          marked := Some(known);
        }
      }
      if settles && response.Some? {
        queue := queue - {key};
      }
    }
  }

  // ------------------------------------------------------------------------ runs

  function Marked(rows: Table, id: nat, now: int): Table {
    if id in rows then rows[id := rows[id].(successfullySentAt := Some(now))] else rows
  }

  datatype System = System(rows: Table, queue: Queue, sendings: seq<Sending>)

  /** A whole broadcast, with the row it stored or found and what its push came to; or a whole
      retry of the worker, with the answer, the row it marked, and whether it settled the
      entry. Lookups have no order, so any matching row may be the one found. */
  datatype Event =
    | Broadcast(transactionId: nat, partnerId: nat, mappedId: string, rowId: nat, push: Push, now: int, markFails: bool)
    | Retry(key: Key, response: Option<Option<int>>, marked: Option<nat>, settled: bool, now: int)

  predicate Possible(s: System, e: Event) {
    match e
    case Broadcast(t, p, mappedId, id, push, _, _) =>
      && Sound(push)
      && if Known(s.rows, Some(t), p, mappedId) then id in s.rows && Matches(s.rows[id], Some(t), p, mappedId)
         else id !in s.rows
    case Retry(key, response, marked, settled, _) =>
      && key in s.queue
      && (marked.Some? ==>
            && response == Some(Some(1000)) && marked.value in s.rows
            && Matches(s.rows[marked.value], None, key.partnerId, key.ocpiCdrId))
      && (settled ==> response.Some?)
  }

  function Next(s: System, e: Event): System {
    match e
    case Broadcast(t, p, mappedId, id, push, now, markFails) =>
      var rows := if id in s.rows then s.rows else s.rows[id := Row(mappedId, p, Some(t), None)];
      if rows[id].successfullySentAt.Some? then s.(rows := rows)
      else
        System(if Delivered(push) && !markFails then Marked(rows, id, now) else rows,
               if GoesToQueue(push) then s.queue[KeyOf(rows[id]) := id] else s.queue,
               s.sendings
               + if Requested(push) then [Sending(Broadcaster, p, id, rows[id].ocpiCdrId, Delivered(push))] else [])
    case Retry(key, response, marked, settled, now) =>
      System(if marked.Some? then Marked(s.rows, marked.value, now) else s.rows,
             if settled then s.queue - {key} else s.queue,
             s.sendings
             + [Sending(Worker, key.partnerId, if key in s.queue then s.queue[key] else 0, key.ocpiCdrId,
                        response == Some(Some(1000)))])
  }

  function After(s: System, events: seq<Event>): System {
    if events == [] then s else Next(After(s, events[..|events| - 1]), events[|events| - 1])
  }

  ghost predicate Run(s: System, events: seq<Event>) {
    events == []
    || (Run(s, events[..|events| - 1]) && Possible(After(s, events[..|events| - 1]), events[|events| - 1]))
  }

  /** Rows and outbox entries from earlier, nothing sent since. */
  function Start(rows: Table, queue: Queue): System {
    System(rows, queue, [])
  }

  // ------------------------------------------------------------------ stored once

  predicate SameCdr(a: Row, b: Row) {
    && a.partnerId == b.partnerId
    && a.transactionId == b.transactionId
    && (a.transactionId.Some? || a.ocpiCdrId == b.ocpiCdrId)
  }

  /** At most one CDR is stored for each transaction and partner; among those stored without a
      transaction, at most one for each id and partner. */
  ghost predicate StoredOnce(rows: Table) {
    forall i, j :: i in rows && j in rows && SameCdr(rows[i], rows[j]) ==> i == j
  }

  /** An outbox entry holds the CDR of a row with its partner and id. */
  ghost predicate QueueFits(s: System) {
    forall key :: key in s.queue ==> s.queue[key] in s.rows && KeyOf(s.rows[s.queue[key]]) == key
  }

  /** A row keeps everything but its mark, and a mark once set stays set. */
  ghost predicate Kept(before: Table, after: Table) {
    forall id :: id in before ==>
                   && id in after
                   && KeyOf(after[id]) == KeyOf(before[id]) && after[id].transactionId == before[id].transactionId
                   && (before[id].successfullySentAt.Some? ==> after[id].successfullySentAt.Some?)
  }

  /** Each POST went out under the id its row is stored with, to the row's partner. */
  ghost predicate SentAsStored(s: System) {
    forall k :: 0 <= k < |s.sendings| ==>
                  var x := s.sendings[k];
                  x.rowId in s.rows && KeyOf(s.rows[x.rowId]) == Key(x.partnerId, x.ocpiCdrId)
  }

  lemma StepKeepsRows(s: System, e: Event)
    requires Possible(s, e)
    ensures Kept(s.rows, Next(s, e).rows)
    ensures StoredOnce(s.rows) ==> StoredOnce(Next(s, e).rows)
  {
  }

  lemma StepKeepsQueue(s: System, e: Event)
    requires Possible(s, e) && QueueFits(s)
    ensures QueueFits(Next(s, e))
  {
    StepKeepsRows(s, e);
  }

  lemma StepKeepsSendings(s: System, e: Event)
    requires Possible(s, e) && QueueFits(s) && SentAsStored(s)
    ensures SentAsStored(Next(s, e))
  {
    StepKeepsRows(s, e);
    StepKeepsQueue(s, e);
  }

  lemma {:induction false} RunKeeps(rows: Table, queue: Queue, events: seq<Event>)
    requires StoredOnce(rows) && QueueFits(Start(rows, queue)) && Run(Start(rows, queue), events)
    ensures var s := After(Start(rows, queue), events);
            StoredOnce(s.rows) && QueueFits(s) && SentAsStored(s)
  {
    if events != [] {
      var s := After(Start(rows, queue), events[..|events| - 1]);
      RunKeeps(rows, queue, events[..|events| - 1]);
      StepKeepsRows(s, events[|events| - 1]);
      StepKeepsQueue(s, events[|events| - 1]);
      StepKeepsSendings(s, events[|events| - 1]);
    }
  }

  /** Whatever id the mapper comes up with each time, all POSTs for a transaction carry one id
      to a partner, the worker's too: that of the only row stored for the two. */
  lemma IdIsStable(rows: Table, queue: Queue, events: seq<Event>, j: nat, k: nat)
    requires StoredOnce(rows) && QueueFits(Start(rows, queue)) && Run(Start(rows, queue), events)
    requires j < |After(Start(rows, queue), events).sendings| && k < |After(Start(rows, queue), events).sendings|
    ensures var s := After(Start(rows, queue), events);
            var x, y := s.sendings[j], s.sendings[k];
            && x.rowId in s.rows && y.rowId in s.rows
            && (s.rows[x.rowId].transactionId.Some? && x.partnerId == y.partnerId
                && s.rows[x.rowId].transactionId == s.rows[y.rowId].transactionId ==>
                  x.rowId == y.rowId && x.ocpiCdrId == y.ocpiCdrId == s.rows[x.rowId].ocpiCdrId)
  {
    RunKeeps(rows, queue, events);
    var s := After(Start(rows, queue), events);
    assert SentAsStored(s);
    var a, b := s.rows[s.sendings[j].rowId], s.rows[s.sendings[k].rowId];
    assert KeyOf(a) == Key(s.sendings[j].partnerId, s.sendings[j].ocpiCdrId);
    assert KeyOf(b) == Key(s.sendings[k].partnerId, s.sendings[k].ocpiCdrId);
    if a.transactionId.Some? && a.transactionId == b.transactionId && a.partnerId == b.partnerId {
      assert SameCdr(a, b);
    }
  }

  // ------------------------------------------------------------------------ marks

  /** When a row becomes marked: by the broadcaster, only after exactly one answer came back
      and it was a success; by the worker, only after a success, and then a row it found. */
  lemma MarkFollowsDelivery(s: System, e: Event, id: nat)
    requires Possible(s, e)
    ensures var marked := id in s.rows && s.rows[id].successfullySentAt.Some?;
            var marked' := id in Next(s, e).rows && Next(s, e).rows[id].successfullySentAt.Some?;
            marked' <==> marked
                         || (e.Broadcast? && e.rowId == id && e.push.Answered? && e.push.codes == [Some(1000)]
                             && !e.markFails)
                         || (e.Retry? && e.response == Some(Some(1000)) && e.marked == Some(id))
    ensures id in s.rows ==>
              && id in Next(s, e).rows
              && Next(s, e).rows[id].successfullySentAt
                 == if e.Retry? && e.marked == Some(id) then Some(e.now)
                    else if s.rows[id].successfullySentAt.Some? then s.rows[id].successfullySentAt
                    else if e.Broadcast? && e.rowId == id && e.push.Answered? && e.push.codes == [Some(1000)]
                            && !e.markFails
                         then Some(e.now)
                    else None
  {
  }

  /** When a CDR is POSTed: at every retry; and by a broadcast of a row that is not marked, if the
      push came to a request, answered or failed. It goes out under the stored id. */
  lemma PostedExactly(s: System, e: Event)
    requires Possible(s, e)
    ensures var s' := Next(s, e);
            match e
            case Broadcast(_, p, _, id, push, _, _) =>
              id in s'.rows
              && s'.sendings
                 == if (id in s.rows ==> s.rows[id].successfullySentAt.None?)
                       && push.Answered? && (push.codes != [] || push.failed)
                    then s.sendings + [Sending(Broadcaster, p, id, s'.rows[id].ocpiCdrId,
                                               push.Answered? && push.codes == [Some(1000)])]
                    else s.sendings
            case Retry(key, response, _, _, _) =>
              s'.sendings
              == s.sendings
                 + [Sending(Worker, key.partnerId, s.queue[key], key.ocpiCdrId, response == Some(Some(1000)))]
  {
  }

  /** What is in the outbox: a failed push of an unmarked CDR that could be queued goes in, with the
      id it is stored under; a retry that settles takes it out; nothing else does either. */
  lemma QueuedExactly(s: System, e: Event, key: Key)
    requires Possible(s, e)
    ensures key in Next(s, e).queue
       <==> match e
            case Broadcast(_, p, _, id, push, _, _) =>
              key in s.queue
              || (push.Answered? && push.queued && id in Next(s, e).rows
                  && key == Key(p, Next(s, e).rows[id].ocpiCdrId)
                  && (id in s.rows ==> s.rows[id].successfullySentAt.None?))
            case Retry(k, _, _, settled, _) => key in s.queue && !(settled && k == key)
    ensures e.Retry? && key in Next(s, e).queue ==> Next(s, e).queue[key] == s.queue[key]
  {
  }

  function SendingsOf(sendings: seq<Sending>, id: nat): seq<Sending> {
    if sendings == [] then []
    else
      var last := sendings[|sendings| - 1];
      SendingsOf(sendings[..|sendings| - 1], id) + if last.rowId == id then [last] else []
  }

  function BroadcastsOf(sendings: seq<Sending>, id: nat): seq<Sending> {
    if sendings == [] then []
    else
      var last := sendings[|sendings| - 1];
      BroadcastsOf(sendings[..|sendings| - 1], id) + if last.rowId == id && last.sender.Broadcaster? then [last] else []
  }

  /** Once a CDR is marked, the broadcaster never POSTs it again. */
  lemma {:induction false} MarkedIsFinal(s: System, events: seq<Event>, id: nat)
    requires id in s.rows && s.rows[id].successfullySentAt.Some? && Run(s, events)
    ensures var t := After(s, events);
            && id in t.rows && t.rows[id].successfullySentAt.Some?
            && BroadcastsOf(t.sendings, id) == BroadcastsOf(s.sendings, id)
  {
    if events != [] {
      var t, e := After(s, events[..|events| - 1]), events[|events| - 1];
      MarkedIsFinal(s, events[..|events| - 1], id);
      MarkedStep(t, e, id);
    }
  }

  lemma MarkedStep(s: System, e: Event, id: nat)
    requires id in s.rows && s.rows[id].successfullySentAt.Some? && Possible(s, e)
    ensures var t := Next(s, e);
            && id in t.rows && t.rows[id].successfullySentAt.Some?
            && BroadcastsOf(t.sendings, id) == BroadcastsOf(s.sendings, id)
  {
    var t := Next(s, e);
    if t.sendings != s.sendings {
      assert t.sendings[..|s.sendings|] == s.sendings;
    }
  }

  // ------------------------------------------------------------------- sent again

  /** An outbox entry holds this very CDR. */
  predicate Queued(s: System, id: nat)
    requires id in s.rows
  {
    KeyOf(s.rows[id]) in s.queue && s.queue[KeyOf(s.rows[id])] == id
  }

  /** The CDR is not marked and belongs to a transaction, or it is queued. */
  predicate Pending(s: System, id: nat)
    requires id in s.rows
  {
    (s.rows[id].successfullySentAt.None? && s.rows[id].transactionId.Some?) || Queued(s, id)
  }

  lemma NotPendingStep(s: System, e: Event, id: nat)
    requires Possible(s, e) && QueueFits(s) && id in s.rows && !Pending(s, id)
    ensures var t := Next(s, e);
            id in t.rows && !Pending(t, id) && SendingsOf(t.sendings, id) == SendingsOf(s.sendings, id)
  {
    var t := Next(s, e);
    StepKeepsRows(s, e);
    if t.sendings != s.sendings {
      assert t.sendings[..|s.sendings|] == s.sendings;
      assert t.sendings[|s.sendings|].rowId != id;
    }
  }

  lemma {:induction false} NotPendingIsFinal(s: System, events: seq<Event>, id: nat)
    requires Run(s, events) && QueueFits(s) && id in s.rows && !Pending(s, id)
    ensures var t := After(s, events);
            && QueueFits(t) && id in t.rows && !Pending(t, id)
            && SendingsOf(t.sendings, id) == SendingsOf(s.sendings, id)
  {
    if events != [] {
      var t, e := After(s, events[..|events| - 1]), events[|events| - 1];
      NotPendingIsFinal(s, events[..|events| - 1], id);
      NotPendingStep(t, e, id);
      StepKeepsQueue(t, e);
    }
  }

  /** The event that POSTs a pending CDR. */
  function PostOf(s: System, id: nat): Event
    requires id in s.rows && Pending(s, id)
  {
    if Queued(s, id) then Retry(KeyOf(s.rows[id]), None, None, false, 0)
    else
      var row, push := s.rows[id], Answered([Some(1000)], false, false);
      Broadcast(row.transactionId.value, row.partnerId, "", id, push, 0, false)
  }

  lemma PostOfPosts(s: System, id: nat)
    requires id in s.rows && Pending(s, id)
    ensures Run(s, [PostOf(s, id)])
    ensures |SendingsOf(After(s, [PostOf(s, id)]).sendings, id)| == |SendingsOf(s.sendings, id)| + 1
  {
    var e := PostOf(s, id);
    assert [e][..0] == [] && After(s, []) == s && Run(s, []);
    assert e.Broadcast? ==> Matches(s.rows[id], Some(e.transactionId), e.partnerId, e.mappedId);
    assert After(s, [e]) == Next(s, e);
    assert Next(s, e).sendings[..|s.sendings|] == s.sendings;
  }

  /** The exact condition for a stored CDR, marked or delivered or not, to be POSTed again at
      any later time: it is still queued in the outbox, or it is not marked and belongs to a
      transaction. A marked one is POSTed again if and only if it is still queued. */
  lemma PostedAgainExactly(s: System, id: nat)
    requires QueueFits(s) && id in s.rows
    ensures (exists events :: Run(s, events) && SendingsOf(After(s, events).sendings, id) != SendingsOf(s.sendings, id))
            <==> Queued(s, id) || (s.rows[id].successfullySentAt.None? && s.rows[id].transactionId.Some?)
  {
    if Pending(s, id) {
      PostOfPosts(s, id);
    } else {
      forall events | Run(s, events) ensures SendingsOf(After(s, events).sendings, id) == SendingsOf(s.sendings, id) {
        NotPendingIsFinal(s, events, id);
      }
    }
  }

  /** A success takes nothing out of the outbox: a first broadcast that fails and is queued, a
      second that is delivered and marked, and the worker still POSTs the CDR once more. */
  lemma MarkedCdrIsRetried(t: nat, p: nat, id: string)
    ensures var e0 := Broadcast(t, p, id, 0, Answered([], true, true), 0, false);
            var e1 := Broadcast(t, p, id, 0, Answered([Some(1000)], false, false), 1, false);
            var e2 := Retry(Key(p, id), Some(Some(1000)), Some(0), true, 2);
            var s1 := Next(Start(map[], map[]), e0);
            var s2 := Next(s1, e1);
            && Possible(Start(map[], map[]), e0) && Possible(s1, e1) && Possible(s2, e2)
            && s2.rows[0].successfullySentAt.Some?
            && Next(s2, e2).sendings == [Sending(Broadcaster, p, 0, id, false), Sending(Broadcaster, p, 0, id, true),
                                         Sending(Worker, p, 0, id, true)]
  {
    var e0 := Broadcast(t, p, id, 0, Answered([], true, true), 0, false);
    var s1 := Next(Start(map[], map[]), e0);
    assert s1.rows == map[0 := Row(id, p, Some(t), None)] && s1.queue == map[Key(p, id) := 0];
    assert Matches(s1.rows[0], Some(t), p, id);
  }

  // -------------------------------------------------------------- after a delivery

  /** When a success of the worker may go to another CDR than the one it has POSTed: exactly if
      another row is stored under the same id for the partner. The broadcaster's never does. */
  lemma OtherRowMayBeMarked(s: System, key: Key)
    requires QueueFits(s) && key in s.queue
    ensures (exists marked :: marked != s.queue[key]
               && Possible(s, Retry(key, Some(Some(1000)), Some(marked), true, 0)))
            <==> exists id :: id in s.rows && id != s.queue[key] && KeyOf(s.rows[id]) == key
  {
    forall id | id in s.rows && KeyOf(s.rows[id]) == key
      ensures Possible(s, Retry(key, Some(Some(1000)), Some(id), true, 0))
    {
    }
    if marked :| marked != s.queue[key] && Possible(s, Retry(key, Some(Some(1000)), Some(marked), true, 0)) {
      assert marked in s.rows && KeyOf(s.rows[marked]) == key;
    }
  }

  /** Marks are written, and the worker's go to the CDR it has POSTed. */
  ghost predicate MarksWork(s: System, events: seq<Event>) {
    events == []
    || (var t, e := After(s, events[..|events| - 1]), events[|events| - 1];
        && MarksWork(s, events[..|events| - 1])
        && (e.Broadcast? ==> !e.markFails)
        && (e.Retry? && e.response == Some(Some(1000)) && e.key in t.queue ==> e.marked == Some(t.queue[e.key])))
  }

  ghost predicate DeliveredOnesMarked(s: System) {
    forall k :: 0 <= k < |s.sendings| && s.sendings[k].delivered ==>
                  s.sendings[k].rowId in s.rows && s.rows[s.sendings[k].rowId].successfullySentAt.Some?
  }

  /** What follows a delivered POST of a CDR are POSTs of the worker. */
  ghost predicate OnlyRetriesFollow(s: System) {
    forall j, k :: 0 <= j < k < |s.sendings| && s.sendings[j].delivered
                   && s.sendings[j].rowId == s.sendings[k].rowId ==>
                     s.sendings[k].sender == Worker
  }

  /** While marks work, the broadcaster never POSTs a CDR that was delivered, by itself or by
      the worker. What the worker may still do is said by PostedAgainExactly. */
  lemma {:induction false} NothingFollowsDelivery(rows: Table, queue: Queue, events: seq<Event>)
    requires QueueFits(Start(rows, queue)) && Run(Start(rows, queue), events) && MarksWork(Start(rows, queue), events)
    ensures var s := After(Start(rows, queue), events);
            QueueFits(s) && DeliveredOnesMarked(s) && OnlyRetriesFollow(s)
  {
    if events != [] {
      var s, e := After(Start(rows, queue), events[..|events| - 1]), events[|events| - 1];
      NothingFollowsDelivery(rows, queue, events[..|events| - 1]);
      StepKeepsRows(s, e);
      StepKeepsQueue(s, e);
    }
  }

  /** The exact condition: after a broadcast of a CDR that was not marked, the same broadcast,
      if it gets to a request at all, POSTs it once more unless the first came to a single
      success and the mark was written. */
  lemma SecondBroadcastSends(s: System, e: Event, again: Event)
    requires StoredOnce(s.rows) && e.Broadcast? && Possible(s, e)
    requires e.rowId in s.rows ==> s.rows[e.rowId].successfullySentAt.None?
    requires again.Broadcast? && Possible(Next(s, e), again)
    requires again.transactionId == e.transactionId && again.partnerId == e.partnerId
    ensures var s' := Next(s, e);
            |Next(s', again).sendings| == |s'.sendings| + 1
            <==> Requested(again.push) && (!Delivered(e.push) || e.markFails)
  {
    StepKeepsRows(s, e);
    var s' := Next(s, e);
    assert Matches(s'.rows[e.rowId], Some(again.transactionId), again.partnerId, again.mappedId);
    assert SameCdr(s'.rows[again.rowId], s'.rows[e.rowId]);
  }

  /** The lookup goes by transaction alone. A partner that already has a marked CDR gets one of
      the same id for a transaction if and only if that CDR was stored for another one, or for
      none, which insertSentCdr allows and broadcastPostCdr never asks for. */
  lemma SameIdSentForAnotherTransaction(t: nat, p: nat, id: string, earlier: Row, e: Event)
    requires KeyOf(earlier) == Key(p, id) && earlier.successfullySentAt.Some?
    requires e.Broadcast? && (e.transactionId, e.partnerId, e.mappedId) == (t, p, id)
    requires Possible(Start(map[0 := earlier], map[]), e)
    ensures Next(Start(map[0 := earlier], map[]), e).sendings
         == if Requested(e.push) && earlier.transactionId != Some(t)
            then [Sending(Broadcaster, p, e.rowId, id, Delivered(e.push))] else []
  {
    var rows := map[0 := earlier];
    assert rows[0] == earlier && 0 in rows;
    assert Known(rows, Some(t), p, id) <==> Matches(rows[0], Some(t), p, id);
  }
}
