/**
 The retry worker (GireveBroadcastRetryWorker) against the live pushes: a transition system in
 which live pushes that succeed, the two halves of an upsert after one that failed (find, then
 write), the steps of one worker run and crashes of the worker interleave freely. Any number
 of upserts may be under way, of the same key too; at most one worker run is.
 */
module RetryWorker {
  import opened Numbers
  import opened RetryBackoff
  import opened RetryOutbox

  /** How one retry goes: the partner answers and the row is marked; the partner answers but
      marking the row throws; or the push fails (or there is nobody to push to). An answer
      counts whatever its OCPI status code says. */
  datatype Answer = Delivered | Unmarked | Failed

  datatype Settlement = Settlement(answer: Answer, startedAt: int)

  /** A run: what it claimed, the answer to the retry under way, and the retries settled. */
  datatype Worker = Idle | Running(items: seq<Item>, sent: Option<Settlement>, done: seq<Settlement>)

  /** An upsert between its find and its write. */
  datatype Upsert = Upsert(key: Key, found: Option<Found>)

  /** The table, the upserts and the worker run under way; and, as a record, which requests the
      partner was given, and for each key the request queued last, the one the partner got
      last, and the newest of all. */
  datatype System = System(
    rows: Rows,
    writes: nat,
    finding: map<nat, Upsert>,
    worker: Worker,
    delivered: set<Request>,
    latest: map<Key, Request>,
    received: map<Key, Request>,
    newest: map<Key, Request>)

  datatype Event =
    | LivePush(key: Key, push: Push)
    | Find(upsert: nat, key: Key, found: Option<Found>)
    | Write(upsert: nat, push: Push, now: int)
    | StartRun(now: int, ids: seq<nat>)
    | Send(answer: Answer, now: int)
    | Settle
    | Crash

  const Initial := System(map[], 0, map[], Idle, {}, map[], map[], map[])

  // ---------------------------------------------------------------------- the steps

  function SettledRows(rows: Rows, item: Item, settlement: Settlement, config: Config): Rows {
    match settlement.answer
    case Delivered => MarkedSent(rows, item.id)
    case _ =>
      Rescheduled(rows, item.id, item.attemptCount + 1,
                  NextRetryAt(item.attemptCount + 1, config.backoff, settlement.startedAt))
  }

  predicate Busy(worker: Worker) {
    worker.Running? && |worker.done| < |worker.items|
  }

  /** What the database may answer to a find. */
  ghost predicate Answers(rows: Rows, key: Key, found: Option<Found>) {
    match found
    case None => forall id :: id in rows ==> rows[id].key != key
    case Some(f) => Holds(rows, f.id, key) && f == FoundRow(rows, f.id)
  }

  ghost predicate Enabled(s: System, e: Event, config: Config) {
    match e
    case LivePush(_, _) => true
    case Find(upsert, key, found) => upsert !in s.finding && Answers(s.rows, key, found)
    case Write(upsert, _, _) =>
      upsert in s.finding && (s.finding[upsert].found.Some? ==> s.finding[upsert].found.value.id in s.rows)
    case StartRun(now, ids) => !Busy(s.worker) && Claimable(Released(s.rows, now, config), ids, now)
    case Send(_, _) => Busy(s.worker) && s.worker.sent.None?
    case Settle => Busy(s.worker) && s.worker.sent.Some?
    case Crash => s.worker.Running?
  }

  ghost function Next(s: System, e: Event, config: Config): System {
    if !Enabled(s, e, config) then s
    else
      match e
      case LivePush(key, push) => Pushed(s, key, Request(push, s.writes))
      case Find(upsert, key, found) => s.(finding := s.finding[upsert := Upsert(key, found)])
      case Write(upsert, push, now) => Written(s, upsert, Request(push, s.writes), now, config)
      case StartRun(now, ids) => Starting(s, Released(s.rows, now, config), ids, now)
      case Send(answer, now) => Sending(s, s.worker.items[|s.worker.done|], Settlement(answer, now))
      case Settle => Settling(s, s.worker.items[|s.worker.done|], s.worker.sent.value, config)
      case Crash => s.(worker := Idle)
  }

  /** A live push succeeds; the outbox is not told. */
  ghost function Pushed(s: System, key: Key, request: Request): System {
    s.(writes := s.writes + 1, delivered := s.delivered + {request},
       received := s.received[key := request], newest := s.newest[key := request])
  }

  ghost function Written(s: System, upsert: nat, request: Request, now: int, config: Config): System
    requires upsert in s.finding
    requires s.finding[upsert].found.Some? ==> s.finding[upsert].found.value.id in s.rows
  {
    var key := s.finding[upsert].key;
    s.(rows := Upserted(s.rows, s.finding[upsert].found, s.writes, key, request, now, config),
       writes := s.writes + 1,
       finding := s.finding - {upsert},
       latest := s.latest[key := request],
       newest := s.newest[key := request])
  }

  ghost function Sending(s: System, item: Item, settlement: Settlement): System
    requires s.worker.Running?
  {
    var s' := s.(worker := s.worker.(sent := Some(settlement)));
    if settlement.answer == Failed then s'
    else s'.(delivered := s.delivered + {item.request}, received := s.received[item.key := item.request])
  }

  ghost function Starting(s: System, released: Rows, ids: seq<nat>, now: int): System
    requires Claimable(released, ids, now)
  {
    s.(rows := Claimed(released, ids, now), worker := Running(Items(released, ids), None, []))
  }

  ghost function Settling(s: System, item: Item, settlement: Settlement, config: Config): System
    requires s.worker.Running?
  {
    s.(rows := SettledRows(s.rows, item, settlement, config),
       worker := s.worker.(sent := None, done := s.worker.done + [settlement]))
  }

  ghost function After(s: System, events: seq<Event>, config: Config): System {
    if events == [] then s
    else Next(After(s, events[..|events| - 1], config), events[|events| - 1], config)
  }

  lemma AfterPush(s: System, events: seq<Event>, e: Event, config: Config)
    ensures After(s, events + [e], config) == Next(After(s, events, config), e, config)
  {
    assert (events + [e])[..|events + [e]| - 1] == events;
  }

  // ------------------------------------------------------------------ the invariant

  ghost predicate OneRowPerKey(rows: Rows) {
    forall i, j :: i in rows && j in rows && rows[i].key == rows[j].key ==> i == j
  }

  ghost predicate FindsFit(s: System) {
    forall u :: u in s.finding && s.finding[u].found.Some? ==>
                  Holds(s.rows, s.finding[u].found.value.id, s.finding[u].key)
  }

  ghost predicate LocksFit(s: System) {
    forall id :: id in s.rows && s.rows[id].status == Processing ==> s.rows[id].lockedAt.Some?
  }

  ghost predicate TagsFit(s: System) {
    forall id :: id in s.rows ==> id < s.writes && s.rows[id].request.write < s.writes
  }

  /** A row is marked sent only with a request the partner has been given. */
  ghost predicate SentMeansDelivered(s: System) {
    forall id :: id in s.rows && s.rows[id].status == Sent ==> s.rows[id].request in s.delivered
  }

  /** The row holds the path and the body of the request, under its own envelope. */
  ghost predicate HoldsRequest(rows: Rows, id: nat, key: Key, request: Request) {
    Holds(rows, id, key) && rows[id].request == OnRow(rows[id].request, request)
  }

  /** Some row of each key holds the request queued last for it. */
  ghost predicate LatestIsHeld(s: System) {
    forall key :: key in s.latest ==> exists id :: HoldsRequest(s.rows, id, key, s.latest[key])
  }

  /** No row holds anything newer than what was queued last for its key. */
  ghost predicate NoneIsNewer(s: System) {
    forall id :: id in s.rows ==>
                   s.rows[id].key in s.latest && s.rows[id].request.write <= s.latest[s.rows[id].key].write
  }

  /** The row was given a newer request after the item was claimed. */
  ghost predicate Refreshed(rows: Rows, item: Item) {
    item.id in rows && rows[item.id].request.write > item.request.write
  }

  /** A claimed item still to be retried: its row is as claimed, or refreshed and pending. */
  ghost predicate Awaits(rows: Rows, item: Item) {
    && Holds(rows, item.id, item.key)
    && if Refreshed(rows, item) then rows[item.id].status == Pending
       else
         rows[item.id].request == item.request && rows[item.id].status == Processing
         && rows[item.id].attemptCount == item.attemptCount
  }

  /** A settled item: its row is sent, or pending with one more attempt and the backoff due
      time, or refreshed. */
  ghost predicate Resolved(rows: Rows, item: Item, settlement: Settlement, config: Config) {
    && Holds(rows, item.id, item.key)
    && (Refreshed(rows, item)
        || (rows[item.id].request == item.request
            && if settlement.answer == Delivered then rows[item.id].status == Sent
               else
                 rows[item.id].status == Pending
                 && rows[item.id].attemptCount == item.attemptCount + 1
                 && rows[item.id].nextRetryAt
                      == NextRetryAt(item.attemptCount + 1, config.backoff, settlement.startedAt)))
  }

  ghost predicate WorkerFits(s: System, config: Config) {
    s.worker.Running? ==>
      var items, done := s.worker.items, s.worker.done;
      && |done| <= |items|
      && (forall i, j :: 0 <= i < j < |items| ==> items[i].id != items[j].id)
      && (forall i :: 0 <= i < |done| ==> Resolved(s.rows, items[i], done[i], config))
      && (forall i :: |done| <= i < |items| ==> Awaits(s.rows, items[i]))
      && (s.worker.sent.Some? ==>
            |done| < |items| && (s.worker.sent.value.answer != Failed ==> items[|done|].request in s.delivered))
  }

  ghost predicate TableFits(s: System) {
    && FindsFit(s)
    && TagsFit(s)
    && LocksFit(s)
    && SentMeansDelivered(s)
    && LatestIsHeld(s)
    && NoneIsNewer(s)
  }

  ghost predicate Inv(s: System, config: Config) {
    TableFits(s) && WorkerFits(s, config)
  }

  lemma LatestStays(s: System, s': System)
    requires LatestIsHeld(s) && s'.latest == s.latest && s'.rows.Keys == s.rows.Keys
    requires forall id :: id in s.rows ==>
                            s'.rows[id].key == s.rows[id].key && s'.rows[id].request == s.rows[id].request
    ensures LatestIsHeld(s')
  {
    forall key | key in s'.latest ensures exists i :: HoldsRequest(s'.rows, i, key, s'.latest[key]) {
      var i :| HoldsRequest(s.rows, i, key, s.latest[key]);
      assert HoldsRequest(s'.rows, i, key, s'.latest[key]);
    }
  }

  /** Steps of the worker leave keys and requests where they are. */
  lemma WorkerStepKeepsTable(s: System, s': System)
    requires TableFits(s)
    requires s'.rows.Keys == s.rows.Keys
    requires forall id :: id in s.rows ==>
                            s'.rows[id].key == s.rows[id].key && s'.rows[id].request == s.rows[id].request
    requires s'.writes == s.writes && s'.finding == s.finding && s'.latest == s.latest
    requires SentMeansDelivered(s') && LocksFit(s')
    ensures TableFits(s')
  {
    LatestStays(s, s');
  }

  lemma FindKeepsInv(s: System, e: Event, config: Config)
    requires Inv(s, config) && e.Find?
    ensures Inv(Next(s, e, config), config)
  {
  }

  lemma LivePushKeepsInv(s: System, e: Event, config: Config)
    requires Inv(s, config) && e.LivePush?
    ensures Inv(Next(s, e, config), config)
  {
    LatestStays(s, Next(s, e, config));
    PushKeepsWorker(s, Next(s, e, config), config);
  }

  lemma PushKeepsWorker(s: System, s': System, config: Config)
    requires WorkerFits(s, config) && s'.worker == s.worker && s'.rows == s.rows && s.delivered <= s'.delivered
    ensures WorkerFits(s', config)
  {
  }

  /** The row a write goes to: the one found, or a new one. */
  function TargetRow(s: System, upsert: nat): nat
    requires upsert in s.finding
  {
    if s.finding[upsert].found.Some? then s.finding[upsert].found.value.id else s.writes
  }

  /** An upsert that found nothing inserts although its key has got a row since. */
  ghost predicate InsertsTwice(s: System, e: Event) {
    && e.Write? && e.upsert in s.finding && s.finding[e.upsert].found.None?
    && exists id :: Holds(s.rows, id, s.finding[e.upsert].key)
  }

  /** What a write leaves in a row: the request as it is in a new one, else under the row's
      envelope. */
  function StoredRequest(rows: Rows, id: nat, request: Request): Request {
    if id in rows then OnRow(rows[id].request, request) else request
  }

  lemma WriteTouchesOneRow(s: System, e: Event, config: Config)
    requires TableFits(s) && e.Write? && Enabled(s, e, config)
    ensures var s', id, key := Next(s, e, config), TargetRow(s, e.upsert), s.finding[e.upsert].key;
            && s'.rows.Keys == s.rows.Keys + {id}
            && (id in s.rows ==> s.rows[id].key == key)
            && s'.rows[id].key == key && s'.rows[id].request == StoredRequest(s.rows, id, Request(e.push, s.writes))
            && s'.rows[id].status == Pending
            && s'.rows[id].attemptCount == UpsertAttempts(s.finding[e.upsert].found)
            && (forall i :: i in s.rows && i != id ==> s'.rows[i] == s.rows[i])
  {
  }

  lemma OthersHaveOtherKeys(s: System, e: Event, config: Config)
    requires TableFits(s) && OneRowPerKey(s.rows) && e.Write? && Enabled(s, e, config) && !InsertsTwice(s, e)
    ensures forall i :: i in s.rows && i != TargetRow(s, e.upsert) ==> s.rows[i].key != s.finding[e.upsert].key
  {
    forall i | i in s.rows && i != TargetRow(s, e.upsert) ensures s.rows[i].key != s.finding[e.upsert].key {
      assert s.finding[e.upsert].found.None? ==> !Holds(s.rows, i, s.finding[e.upsert].key);
    }
  }

  /** What a write does to the table, seen from outside. */
  ghost predicate WritesRow(s: System, s': System, id: nat, upsert: nat, request: Request) {
    && upsert in s.finding && id == TargetRow(s, upsert)
    && s'.rows.Keys == s.rows.Keys + {id}
    && (id in s.rows ==> s.rows[id].key == s.finding[upsert].key)
    && s'.rows[id].key == s.finding[upsert].key && s'.rows[id].status == Pending
    && s'.rows[id].request == StoredRequest(s.rows, id, request)
    && (forall i :: i in s.rows && i != id ==> s'.rows[i] == s.rows[i])
    && request.write == s.writes && s'.writes == s.writes + 1
    && s'.finding == s.finding - {upsert} && s'.latest == s.latest[s.finding[upsert].key := request]
    && s'.delivered == s.delivered && s'.worker == s.worker
  }

  lemma WriteKeepsLatest(s: System, s': System, id: nat, upsert: nat, request: Request)
    requires LatestIsHeld(s) && WritesRow(s, s', id, upsert, request)
    ensures LatestIsHeld(s')
  {
    forall k | k in s'.latest ensures exists i :: HoldsRequest(s'.rows, i, k, s'.latest[k]) {
      if k == s.finding[upsert].key {
        assert HoldsRequest(s'.rows, id, k, request);
      } else {
        var i :| HoldsRequest(s.rows, i, k, s.latest[k]);
        assert HoldsRequest(s'.rows, i, k, s'.latest[k]);
      }
    }
  }

  lemma WriteIsNewest(s: System, s': System, id: nat, upsert: nat, request: Request)
    requires NoneIsNewer(s) && TagsFit(s) && WritesRow(s, s', id, upsert, request)
    ensures NoneIsNewer(s')
  {
  }

  lemma WriteKeepsTags(s: System, s': System, id: nat, upsert: nat, request: Request)
    requires FindsFit(s) && TagsFit(s) && LocksFit(s) && SentMeansDelivered(s) && WritesRow(s, s', id, upsert, request)
    ensures FindsFit(s') && TagsFit(s') && LocksFit(s') && SentMeansDelivered(s')
  {
  }

  lemma WriteKeepsInv(s: System, e: Event, config: Config)
    requires Inv(s, config) && e.Write?
    ensures Inv(Next(s, e, config), config)
  {
    if Enabled(s, e, config) {
      WriteTouchesOneRow(s, e, config);
      var s', id := Next(s, e, config), TargetRow(s, e.upsert);
      WriteKeepsLatest(s, s', id, e.upsert, Request(e.push, s.writes));
      WriteIsNewest(s, s', id, e.upsert, Request(e.push, s.writes));
      WriteKeepsTags(s, s', id, e.upsert, Request(e.push, s.writes));
      if s.worker.Running? {
        WriteKeepsWorker(s, s', id, config);
      }
    }
  }

  lemma WriteKeepsWorker(s: System, s': System, id: nat, config: Config)
    requires TagsFit(s) && WorkerFits(s, config) && s.worker.Running?
    requires s'.worker == s.worker && s'.delivered == s.delivered
    requires s'.rows.Keys == s.rows.Keys + {id}
    requires id in s.rows ==> s'.rows[id].key == s.rows[id].key
    requires s'.rows[id].request.write == s.writes && s'.rows[id].status == Pending
    requires forall i :: i in s.rows && i != id ==> s'.rows[i] == s.rows[i]
    ensures WorkerFits(s', config)
  {
    var items, done := s.worker.items, s.worker.done;
    forall i | 0 <= i < |done| ensures Resolved(s'.rows, items[i], done[i], config) {
      assert Resolved(s.rows, items[i], done[i], config);
    }
    forall i | |done| <= i < |items| ensures Awaits(s'.rows, items[i]) {
      assert Awaits(s.rows, items[i]);
    }
  }

  lemma ClaimedRows(rows: Rows, ids: seq<nat>, now: int, config: Config)
    requires Claimable(Released(rows, now, config), ids, now)
    ensures var rows', items := Claimed(Released(rows, now, config), ids, now), Items(Released(rows, now, config), ids);
            && rows'.Keys == rows.Keys
            && (forall id :: id in rows ==>
                  rows'[id].key == rows[id].key && rows'[id].request == rows[id].request
                  && (rows'[id].status == Sent ==> rows[id].status == Sent))
            && (forall i :: 0 <= i < |items| ==> Awaits(rows', items[i]))
            && (forall i, j :: 0 <= i < j < |items| ==> items[i].id != items[j].id)
  {
    assert forall i :: 0 <= i < |ids| ==> ids[i] in ids;
  }

  lemma StartKeepsInv(s: System, ids: seq<nat>, now: int, config: Config)
    requires TableFits(s) && Claimable(Released(s.rows, now, config), ids, now)
    ensures Inv(Starting(s, Released(s.rows, now, config), ids, now), config)
  {
    var s' := Starting(s, Released(s.rows, now, config), ids, now);
    ClaimedRows(s.rows, ids, now, config);
    ClaimedLocks(s, s', ids, now, config);
    WorkerStepKeepsTable(s, s');
  }

  lemma ClaimedLocks(s: System, s': System, ids: seq<nat>, now: int, config: Config)
    requires TableFits(s) && Claimable(Released(s.rows, now, config), ids, now)
    requires s'.rows == Claimed(Released(s.rows, now, config), ids, now) && s'.delivered == s.delivered
    ensures SentMeansDelivered(s') && LocksFit(s')
  {
  }

  lemma SendingKeepsInv(s: System, settlement: Settlement, config: Config)
    requires Inv(s, config) && Busy(s.worker) && s.worker.sent.None?
    ensures Inv(Sending(s, s.worker.items[|s.worker.done|], settlement), config)
  {
    var s' := Sending(s, s.worker.items[|s.worker.done|], settlement);
    DeliveringMore(s, s');
    WorkerStepKeepsTable(s, s');
    SendKeepsWorker(s, s', settlement, config);
  }

  lemma DeliveringMore(s: System, s': System)
    requires SentMeansDelivered(s) && LocksFit(s) && s'.rows == s.rows && s.delivered <= s'.delivered
    ensures SentMeansDelivered(s') && LocksFit(s')
  {
  }

  lemma SendKeepsWorker(s: System, s': System, settlement: Settlement, config: Config)
    requires WorkerFits(s, config) && Busy(s.worker) && s'.rows == s.rows && s.delivered <= s'.delivered
    requires s'.worker == s.worker.(sent := Some(settlement))
    requires settlement.answer != Failed ==> s.worker.items[|s.worker.done|].request in s'.delivered
    ensures WorkerFits(s', config)
  {
  }

  /** Settling touches only the item's row, and not even that one once it was refreshed. */
  lemma SettleTouchesOneRow(rows: Rows, item: Item, settlement: Settlement, config: Config)
    requires Awaits(rows, item)
    ensures var rows' := SettledRows(rows, item, settlement, config);
            && rows'.Keys == rows.Keys
            && (forall i :: i in rows && i != item.id ==> rows'[i] == rows[i])
            && rows'[item.id].key == rows[item.id].key && rows'[item.id].request == rows[item.id].request
            && (Refreshed(rows, item) ==> rows' == rows)
            && (rows'[item.id].status == Sent ==>
                  settlement.answer == Delivered && rows[item.id].request == item.request)
            && rows'[item.id].status != Processing
            && Resolved(rows', item, settlement, config)
  {
  }

  lemma SettlingKeepsInv(s: System, config: Config)
    requires Inv(s, config) && Busy(s.worker) && s.worker.sent.Some?
    ensures Inv(Settling(s, s.worker.items[|s.worker.done|], s.worker.sent.value, config), config)
  {
    var item := s.worker.items[|s.worker.done|];
    RetryUnderWay(s, config);
    SettlingKeepsTable(s, item, s.worker.sent.value, config);
    SettlingKeepsWorker(s, item, s.worker.sent.value, config);
  }

  lemma RetryUnderWay(s: System, config: Config)
    requires WorkerFits(s, config) && Busy(s.worker) && s.worker.sent.Some?
    ensures var item := s.worker.items[|s.worker.done|];
            Awaits(s.rows, item) && (s.worker.sent.value.answer == Delivered ==> item.request in s.delivered)
  {
  }

  lemma SettlingKeepsWorker(s: System, item: Item, settlement: Settlement, config: Config)
    requires WorkerFits(s, config) && Busy(s.worker) && s.worker.sent == Some(settlement)
    requires item == s.worker.items[|s.worker.done|]
    ensures WorkerFits(Settling(s, item, settlement, config), config)
  {
    RetryUnderWay(s, config);
    SettleTouchesOneRow(s.rows, item, settlement, config);
    SettleKeepsWorker(s, Settling(s, item, settlement, config), config);
  }

  lemma SettlingKeepsTable(s: System, item: Item, settlement: Settlement, config: Config)
    requires TableFits(s) && Awaits(s.rows, item) && s.worker.Running?
    requires settlement.answer == Delivered ==> item.request in s.delivered
    ensures TableFits(Settling(s, item, settlement, config))
  {
    SettleTouchesOneRow(s.rows, item, settlement, config);
    SettleKeepsTable(s, Settling(s, item, settlement, config), item, settlement);
  }

  lemma SettleKeepsTable(s: System, s': System, item: Item, settlement: Settlement)
    requires TableFits(s) && s' == s.(rows := s'.rows, worker := s'.worker)
    requires s'.rows.Keys == s.rows.Keys && item.id in s.rows
    requires settlement.answer == Delivered ==> item.request in s.delivered
    requires forall i :: i in s.rows && i != item.id ==> s'.rows[i] == s.rows[i]
    requires s'.rows[item.id].key == s.rows[item.id].key && s'.rows[item.id].request == s.rows[item.id].request
    requires s'.rows[item.id].status == Sent ==>
               settlement.answer == Delivered && s.rows[item.id].request == item.request
    requires s'.rows[item.id].status != Processing
    ensures TableFits(s')
  {
    assert SentMeansDelivered(s') && LocksFit(s');
    WorkerStepKeepsTable(s, s');
  }

  lemma SettleKeepsWorker(s: System, s': System, config: Config)
    requires WorkerFits(s, config) && Busy(s.worker) && s.worker.sent.Some? && s'.worker.Running?
    requires s'.worker.items == s.worker.items && s'.worker.sent.None?
    requires s'.worker.done == s.worker.done + [s.worker.sent.value]
    requires s'.rows.Keys == s.rows.Keys
    requires forall i :: i in s.rows && i != s.worker.items[|s.worker.done|].id ==> s'.rows[i] == s.rows[i]
    requires Resolved(s'.rows, s.worker.items[|s.worker.done|], s.worker.sent.value, config)
    ensures WorkerFits(s', config)
  {
    var items, done := s.worker.items, s.worker.done;
    forall i | 0 <= i < |done| ensures Resolved(s'.rows, items[i], done[i], config) {
      assert Resolved(s.rows, items[i], done[i], config);
    }
    forall i | |done| < i < |items| ensures Awaits(s'.rows, items[i]) {
      assert Awaits(s.rows, items[i]);
    }
  }

  lemma StepKeepsInv(s: System, e: Event, config: Config)
    requires Inv(s, config)
    ensures Inv(Next(s, e, config), config)
  {
    if Enabled(s, e, config) {
      match e
      case LivePush(_, _) => LivePushKeepsInv(s, e, config);
      case Find(_, _, _) => FindKeepsInv(s, e, config);
      case Write(_, _, _) => WriteKeepsInv(s, e, config);
      case StartRun(now, ids) => StartKeepsInv(s, ids, now, config);
      case Send(answer, now) => SendingKeepsInv(s, Settlement(answer, now), config);
      case Settle => SettlingKeepsInv(s, config);
      case Crash =>
    }
  }

  lemma {:induction false} InvKept(s: System, events: seq<Event>, config: Config)
    requires Inv(s, config)
    ensures Inv(After(s, events, config), config)
  {
    if events != [] {
      InvKept(s, events[..|events| - 1], config);
      StepKeepsInv(After(s, events[..|events| - 1], config), events[|events| - 1], config);
    }
  }

  /** In every interleaving. */
  lemma InvAlways(events: seq<Event>, config: Config)
    ensures Inv(After(Initial, events, config), config)
  {
    InvKept(Initial, events, config);
  }

  // ------------------------------------------------------------------- one row a key

  /** A run in which no upsert inserts a row its key has already got. */
  ghost predicate Single(s: System, events: seq<Event>, config: Config) {
    events == []
    || (Single(s, events[..|events| - 1], config)
        && !InsertsTwice(After(s, events[..|events| - 1], config), events[|events| - 1]))
  }

  /** There is one row a key after every step of the run. */
  ghost predicate OneRowThroughout(events: seq<Event>, config: Config) {
    && OneRowPerKey(After(Initial, events, config).rows)
    && (events == [] || OneRowThroughout(events[..|events| - 1], config))
  }

  lemma SecondInsertBreaks(s: System, e: Event, config: Config)
    requires TableFits(s) && InsertsTwice(s, e)
    ensures !OneRowPerKey(Next(s, e, config).rows)
  {
    var key := s.finding[e.upsert].key;
    var id :| Holds(s.rows, id, key);
    var s' := Next(s, e, config);
    WriteTouchesOneRow(s, e, config);
    assert s'.rows[id].key == key && s'.rows[s.writes].key == key && id != s.writes;
  }

  ghost predicate SameKeys(rows: Rows, rows': Rows) {
    rows'.Keys == rows.Keys && forall id :: id in rows ==> rows'[id].key == rows[id].key
  }

  lemma SettleKeepsKeys(s: System, config: Config)
    requires Inv(s, config) && Busy(s.worker) && s.worker.sent.Some?
    ensures SameKeys(s.rows, SettledRows(s.rows, s.worker.items[|s.worker.done|], s.worker.sent.value, config))
  {
    assert Awaits(s.rows, s.worker.items[|s.worker.done|]);
    SettleTouchesOneRow(s.rows, s.worker.items[|s.worker.done|], s.worker.sent.value, config);
  }

  lemma KeysStay(s: System, e: Event, config: Config)
    requires Inv(s, config) && !(e.Write? && Enabled(s, e, config))
    ensures SameKeys(s.rows, Next(s, e, config).rows)
  {
    if Enabled(s, e, config) {
      if e.StartRun? {
        ClaimedRows(s.rows, e.ids, e.now, config);
      } else if e.Settle? {
        SettleKeepsKeys(s, config);
      } else {
        RowsStay(s, e, config);
      }
    }
  }

  lemma OneRowStep(s: System, e: Event, config: Config)
    requires Inv(s, config) && OneRowPerKey(s.rows)
    ensures OneRowPerKey(Next(s, e, config).rows) <==> !InsertsTwice(s, e)
  {
    if e.Write? && Enabled(s, e, config) {
      if InsertsTwice(s, e) {
        SecondInsertBreaks(s, e, config);
      } else {
        WriteTouchesOneRow(s, e, config);
        OthersHaveOtherKeys(s, e, config);
      }
    } else {
      KeysStay(s, e, config);
    }
  }

  /** The exact condition for one row a key, with upserts of one key overlapping or not: no
      upsert that found nothing writes after the key has got its row. */
  lemma {:induction false} OneRowExactly(events: seq<Event>, config: Config)
    ensures OneRowThroughout(events, config) <==> Single(Initial, events, config)
  {
    if events != [] {
      var before, e := events[..|events| - 1], events[|events| - 1];
      OneRowExactly(before, config);
      if Single(Initial, before, config) {
        InvAlways(before, config);
        OneRowStep(After(Initial, before, config), e, config);
      }
    }
  }

  /** Two upserts of one key never overlap. */
  ghost predicate Separate(events: seq<Event>, config: Config) {
    events == []
    || (var before, e := events[..|events| - 1], events[|events| - 1];
        && Separate(before, config)
        && (e.Find? ==> forall u :: u in After(Initial, before, config).finding ==>
                                      After(Initial, before, config).finding[u].key != e.key))
  }

  /** What a find found still holds, and nobody else works on its key. */
  ghost predicate FindsAreFresh(s: System) {
    && (forall u, v :: u in s.finding && v in s.finding && s.finding[u].key == s.finding[v].key ==> u == v)
    && (forall u, id :: u in s.finding && s.finding[u].found.None? && id in s.rows ==>
                          s.rows[id].key != s.finding[u].key)
  }

  lemma WriteKeepsFresh(s: System, s': System, id: nat, upsert: nat)
    requires FindsAreFresh(s) && upsert in s.finding && s'.finding == s.finding - {upsert}
    requires s'.rows.Keys == s.rows.Keys + {id} && s'.rows[id].key == s.finding[upsert].key
    requires forall i :: i in s.rows && i != id ==> s'.rows[i] == s.rows[i]
    ensures FindsAreFresh(s')
  {
  }

  lemma KeysKeepFresh(s: System, s': System)
    requires FindsAreFresh(s) && s'.finding == s.finding && SameKeys(s.rows, s'.rows)
    ensures FindsAreFresh(s')
  {
  }

  lemma FindKeepsFresh(s: System, upsert: nat, key: Key, found: Option<Found>)
    requires FindsAreFresh(s) && upsert !in s.finding && Answers(s.rows, key, found)
    requires forall u :: u in s.finding ==> s.finding[u].key != key
    ensures FindsAreFresh(s.(finding := s.finding[upsert := Upsert(key, found)]))
  {
  }

  lemma FreshUpsertStep(s: System, e: Event, config: Config)
    requires Inv(s, config) && FindsAreFresh(s) && Enabled(s, e, config) && (e.Find? || e.Write?)
    requires e.Find? ==> forall u :: u in s.finding ==> s.finding[u].key != e.key
    ensures FindsAreFresh(Next(s, e, config))
  {
    if e.Find? {
      FindKeepsFresh(s, e.upsert, e.key, e.found);
    } else {
      WriteTouchesOneRow(s, e, config);
      WriteKeepsFresh(s, Next(s, e, config), TargetRow(s, e.upsert), e.upsert);
    }
  }

  lemma FreshWorkerStep(s: System, e: Event, config: Config)
    requires Inv(s, config) && FindsAreFresh(s) && Enabled(s, e, config) && (e.StartRun? || e.Settle?)
    ensures FindsAreFresh(Next(s, e, config))
  {
    KeysStay(s, e, config);
    KeysKeepFresh(s, Next(s, e, config));
  }

  lemma FreshStep(s: System, e: Event, config: Config)
    requires Inv(s, config) && FindsAreFresh(s)
    requires e.Find? ==> forall u :: u in s.finding ==> s.finding[u].key != e.key
    ensures !InsertsTwice(s, e) && FindsAreFresh(Next(s, e, config))
  {
    if Enabled(s, e, config) {
      if e.Find? || e.Write? {
        FreshUpsertStep(s, e, config);
      } else if e.StartRun? || e.Settle? {
        FreshWorkerStep(s, e, config);
      }
    }
  }

  /** Upserts that do not overlap never insert twice. */
  lemma {:induction false} SeparateUpsertsAreSingle(events: seq<Event>, config: Config)
    requires Separate(events, config)
    ensures Single(Initial, events, config) && FindsAreFresh(After(Initial, events, config))
  {
    if events != [] {
      var before := events[..|events| - 1];
      SeparateUpsertsAreSingle(before, config);
      InvAlways(before, config);
      FreshStep(After(Initial, before, config), events[|events| - 1], config);
    }
  }

  /** Two upserts of one key that look before either writes leave two rows. */
  lemma OverlappingInsertsMakeTwoRows(key: Key, push: Push, config: Config)
    ensures exists events :: !OneRowPerKey(After(Initial, events, config).rows)
  {
    var e0, e1, e2, e3 := Find(0, key, None), Find(1, key, None), Write(0, push, 0), Write(1, push, 0);
    var events := AfterThree(Initial, [], e0, e1, e2, config);
    var s := After(Initial, events, config);
    assert Holds(s.rows, 0, key) && s.finding[1] == Upsert(key, None) && s.writes == 1;
    AfterPush(Initial, events, e3, config);
    var s' := Next(s, e3, config);
    assert s'.rows[0].key == key && s'.rows[1].key == key;
  }

  // ------------------------------------------------------------------ main results

  /** What survives, in every interleaving: each key with a queued request has a row that holds
      the path and the body of the request queued last, and that is out of the queue only once the
      partner has been given exactly what it holds; no row of the key holds anything newer. If no
      key is inserted twice it is the key's only row. The envelope it is given under is the
      row's: RetryMethods says whose that is. */
  lemma NoLostUpdate(events: seq<Event>, config: Config, key: Key)
    ensures var s := After(Initial, events, config);
            key in s.latest ==>
              exists id :: HoldsRequest(s.rows, id, key, s.latest[key])
                && (s.rows[id].status == Sent ==> s.rows[id].request in s.delivered)
                && (forall other :: Holds(s.rows, other, key) ==>
                                      s.rows[other].request.write <= s.rows[id].request.write)
                && (Single(Initial, events, config) ==> forall other :: Holds(s.rows, other, key) ==> other == id)
  {
    InvAlways(events, config);
    OneRowExactly(events, config);
    var s := After(Initial, events, config);
    if key in s.latest {
      var id :| HoldsRequest(s.rows, id, key, s.latest[key]);
      assert s.rows[id].request.write == s.latest[key].write;
    }
  }

  /** A retry that finishes after its row was refreshed changes nothing: the row stays
      pending with the newer request, whatever the older retry's answer. */
  lemma OlderRetryLeavesNewerRequest(events: seq<Event>, config: Config)
    ensures var s := After(Initial, events, config);
            Busy(s.worker) && s.worker.sent.Some? ==>
              (var item := s.worker.items[|s.worker.done|];
               Refreshed(s.rows, item) ==>
                 s.rows[item.id].status == Pending && Next(s, Settle, config).rows == s.rows)
  {
    InvAlways(events, config);
    var s := After(Initial, events, config);
    if Busy(s.worker) && s.worker.sent.Some? {
      var item := s.worker.items[|s.worker.done|];
      assert Awaits(s.rows, item);
      SettleTouchesOneRow(s.rows, item, s.worker.sent.value, config);
    }
  }

  /** A completed run has resolved every row it claimed. */
  lemma CompletedRunResolves(events: seq<Event>, config: Config)
    ensures var s := After(Initial, events, config);
            s.worker.Running? && !Busy(s.worker) ==>
              |s.worker.done| == |s.worker.items|
              && forall i :: 0 <= i < |s.worker.items| ==>
                   Resolved(s.rows, s.worker.items[i], s.worker.done[i], config)
  {
    InvAlways(events, config);
  }

  // ---------------------------------------------------------------- attempt counts

  /** The event is the write of an upsert of the key. */
  ghost predicate WritesKey(s: System, e: Event, key: Key) {
    e.Write? && e.upsert in s.finding && s.finding[e.upsert].key == key
  }

  /** The event is the end of a retry of the row that was not marked as sent, the row being
      still as it was claimed. */
  ghost predicate RetryFails(s: System, e: Event, id: nat) {
    && e.Settle? && Busy(s.worker) && s.worker.sent.Some?
    && s.worker.items[|s.worker.done|].id == id
    && s.worker.sent.value.answer != Delivered
    && !Refreshed(s.rows, s.worker.items[|s.worker.done|])
  }

  /** Step by step: a row is never deleted or given to another key, its count goes up by one
      at each failed retry, and only a write can put it to anything else: the count it found. */
  lemma AttemptCountStep(events: seq<Event>, e: Event, config: Config, id: nat)
    ensures var s := After(Initial, events, config);
            var s' := Next(s, e, config);
            id in s.rows ==>
              id in s'.rows && s'.rows[id].key == s.rows[id].key
              && s'.rows[id].attemptCount
                 == if e.Write? && Enabled(s, e, config) && TargetRow(s, e.upsert) == id
                    then UpsertAttempts(s.finding[e.upsert].found)
                    else s.rows[id].attemptCount + if RetryFails(s, e, id) then 1 else 0
  {
    InvAlways(events, config);
    if id in After(Initial, events, config).rows {
      CountStep(After(Initial, events, config), e, config, id);
    }
  }

  lemma CountStep(s: System, e: Event, config: Config, id: nat)
    requires Inv(s, config) && id in s.rows
    ensures var s' := Next(s, e, config);
            && id in s'.rows && s'.rows[id].key == s.rows[id].key
            && s'.rows[id].attemptCount
               == if e.Write? && Enabled(s, e, config) && TargetRow(s, e.upsert) == id
                  then UpsertAttempts(s.finding[e.upsert].found)
                  else s.rows[id].attemptCount + if RetryFails(s, e, id) then 1 else 0
  {
    if !Enabled(s, e, config) {
    } else if e.Write? {
      WriteCountStep(s, e, config, id);
    } else if e.Settle? {
      SettleCountStep(s, config, id);
    } else if e.StartRun? {
      StartKeepsCount(s, e, config, id);
    } else {
      RowsStay(s, e, config);
    }
  }

  lemma RowsStay(s: System, e: Event, config: Config)
    requires e.LivePush? || e.Find? || e.Send? || e.Crash?
    ensures Next(s, e, config).rows == s.rows
  {
  }

  lemma WriteCountStep(s: System, e: Event, config: Config, id: nat)
    requires TableFits(s) && id in s.rows && e.Write? && Enabled(s, e, config)
    ensures var rows := Next(s, e, config).rows;
            && id in rows && rows[id].key == s.rows[id].key
            && rows[id].attemptCount
               == if TargetRow(s, e.upsert) == id then UpsertAttempts(s.finding[e.upsert].found)
                  else s.rows[id].attemptCount
  {
    WriteTouchesOneRow(s, e, config);
  }

  lemma StartKeepsCount(s: System, e: Event, config: Config, id: nat)
    requires id in s.rows && e.StartRun? && Enabled(s, e, config)
    ensures var rows := Next(s, e, config).rows;
            id in rows && rows[id].key == s.rows[id].key && rows[id].attemptCount == s.rows[id].attemptCount
  {
  }

  lemma SettleCountStep(s: System, config: Config, id: nat)
    requires Inv(s, config) && id in s.rows && Enabled(s, Settle, config)
    ensures var rows := Next(s, Settle, config).rows;
            && id in rows && rows[id].key == s.rows[id].key
            && rows[id].attemptCount == s.rows[id].attemptCount + if RetryFails(s, Settle, id) then 1 else 0
  {
    var item := s.worker.items[|s.worker.done|];
    assert Awaits(s.rows, item);
    SettleTouchesOneRow(s.rows, item, s.worker.sent.value, config);
    SettleCounts(s.rows, item, s.worker.sent.value, config);
  }

  lemma SettleCounts(rows: Rows, item: Item, settlement: Settlement, config: Config)
    requires Awaits(rows, item)
    ensures SettledRows(rows, item, settlement, config)[item.id].attemptCount
         == rows[item.id].attemptCount + if settlement.answer != Delivered && !Refreshed(rows, item) then 1 else 0
  {
  }

  /** No upsert of the key writes during the events. */
  ghost predicate NoWriteTo(s: System, events: seq<Event>, key: Key, config: Config) {
    events == []
    || (NoWriteTo(s, events[..|events| - 1], key, config)
        && !WritesKey(After(s, events[..|events| - 1], config), events[|events| - 1], key))
  }

  ghost function FailedRetries(s: System, events: seq<Event>, id: nat, config: Config): nat {
    if events == [] then 0
    else
      FailedRetries(s, events[..|events| - 1], id, config)
      + if RetryFails(After(s, events[..|events| - 1], config), events[|events| - 1], id) then 1 else 0
  }

  lemma {:induction false} CountsAdd(s: System, events: seq<Event>, id: nat, config: Config)
    requires Inv(s, config) && id in s.rows
    requires NoWriteTo(s, events, s.rows[id].key, config)
    ensures var s' := After(s, events, config);
            && id in s'.rows && s'.rows[id].key == s.rows[id].key
            && s'.rows[id].attemptCount == s.rows[id].attemptCount + FailedRetries(s, events, id, config)
  {
    if events != [] {
      var before := events[..|events| - 1];
      CountsAdd(s, before, id, config);
      InvKept(s, before, config);
      var t := After(s, before, config);
      CountStep(t, events[|events| - 1], config, id);
      OnlyKeyWrites(t, events[|events| - 1], config, id);
    }
  }

  lemma OnlyKeyWrites(s: System, e: Event, config: Config, id: nat)
    requires Inv(s, config) && id in s.rows && !WritesKey(s, e, s.rows[id].key)
    ensures !(e.Write? && Enabled(s, e, config) && TargetRow(s, e.upsert) == id)
  {
  }

  lemma {:induction false} FindStays(s: System, events: seq<Event>, upsert: nat, config: Config)
    requires upsert in s.finding && NoWriteTo(s, events, s.finding[upsert].key, config)
    ensures var s' := After(s, events, config); upsert in s'.finding && s'.finding[upsert] == s.finding[upsert]
  {
    if events != [] {
      FindStays(s, events[..|events| - 1], upsert, config);
      FindStaysOneStep(After(s, events[..|events| - 1], config), events[|events| - 1], upsert, config);
    }
  }

  lemma FindStaysOneStep(s: System, e: Event, upsert: nat, config: Config)
    requires upsert in s.finding && !WritesKey(s, e, s.finding[upsert].key)
    ensures var s' := Next(s, e, config); upsert in s'.finding && s'.finding[upsert] == s.finding[upsert]
  {
  }

  /** The cause. Take any upsert that finds its row not sent, anything at all happening then
      but another upsert of the key, and its write: the write lowers the row's count by the
      number of retries of the row that failed in between. So it lowers the count if and only
      if one did. */
  lemma WriteForgetsFailedRetries(before: seq<Event>, find: Event, between: seq<Event>, write: Event, config: Config)
    requires find.Find? && write.Write? && write.upsert == find.upsert
    requires var s := After(Initial, before, config); Enabled(s, find, config)
    requires find.found.Some? && find.found.value.status != Sent
    requires var s1 := Next(After(Initial, before, config), find, config);
             NoWriteTo(s1, between, find.key, config)
    ensures var s1 := Next(After(Initial, before, config), find, config);
            var s2 := After(s1, between, config);
            var id := find.found.value.id;
            && Enabled(s2, write, config) && id in s2.rows
            && s2.rows[id].attemptCount
               == Next(s2, write, config).rows[id].attemptCount + FailedRetries(s1, between, id, config)
  {
    var s := After(Initial, before, config);
    InvAlways(before, config);
    StepKeepsInv(s, find, config);
    var s1 := Next(s, find, config);
    CountsAdd(s1, between, find.found.value.id, config);
    FindStays(s1, between, find.upsert, config);
    InvKept(s1, between, config);
    CountStep(After(s1, between, config), write, config, find.found.value.id);
  }

  lemma {:induction false} AfterConcat(s: System, a: seq<Event>, b: seq<Event>, config: Config)
    ensures After(s, a + b, config) == After(After(s, a, config), b, config)
  {
    if b == [] {
      assert a + b == a;
    } else {
      assert (a + b)[..|a + b| - 1] == a + b[..|b| - 1];
      AfterConcat(s, a, b[..|b| - 1], config);
    }
  }

  /** The upsert does not write during the events. */
  ghost predicate NotWrittenBy(events: seq<Event>, upsert: nat) {
    forall k :: 0 <= k < |events| && events[k].Write? ==> events[k].upsert != upsert
  }

  lemma {:induction false} OnlyWriter(before: seq<Event>, find: Event, between: seq<Event>, config: Config)
    requires find.Find? && Separate(before + [find] + between, config)
    requires Enabled(After(Initial, before, config), find, config) && NotWrittenBy(between, find.upsert)
    ensures var s1 := Next(After(Initial, before, config), find, config);
            NoWriteTo(s1, between, find.key, config)
  {
    if between != [] {
      var most, e := between[..|between| - 1], between[|between| - 1];
      var all := before + [find] + most;
      assert (before + [find] + between)[..|before + [find] + between| - 1] == all;
      OnlyWriter(before, find, most, config);
      SeparateUpsertsAreSingle(all, config);
      InvAlways(all, config);
      AfterConcat(Initial, before + [find], most, config);
      AfterPush(Initial, before, find, config);
      var s1 := Next(After(Initial, before, config), find, config);
      FindStays(s1, most, find.upsert, config);
      FreshStep(After(Initial, all, config), e, config);
    }
  }

  /** For upserts that do not overlap nothing else needs to be asked: between the find of an
      upsert and its write, no other upsert of the key writes. */
  lemma SeparateWriteForgets(before: seq<Event>, find: Event, between: seq<Event>, write: Event, config: Config)
    requires find.Find? && Separate(before + [find] + between, config)
    requires Enabled(After(Initial, before, config), find, config) && NotWrittenBy(between, find.upsert)
    requires find.found.Some? && find.found.value.status != Sent && write.Write? && write.upsert == find.upsert
    ensures var s1 := Next(After(Initial, before, config), find, config);
            var s2 := After(s1, between, config);
            var id := find.found.value.id;
            && Enabled(s2, write, config) && id in s2.rows
            && s2.rows[id].attemptCount
               == Next(s2, write, config).rows[id].attemptCount + FailedRetries(s1, between, id, config)
  {
    assert before + ([find] + between) == before + [find] + between;
    SeparatePrefix(before, [find] + between, config);
    OnlyWriter(before, find, between, config);
    WriteForgetsFailedRetries(before, find, between, write, config);
  }

  lemma {:induction false} SeparatePrefix(a: seq<Event>, b: seq<Event>, config: Config)
    requires Separate(a + b, config)
    ensures Separate(a, config)
  {
    if b == [] {
      assert a + b == a;
    } else {
      assert (a + b)[..|a + b| - 1] == a + b[..|b| - 1];
      SeparatePrefix(a, b[..|b| - 1], config);
    }
  }

  /** And when upserts do overlap: of two writes to a row with none between, the second puts the
      count to what it found; before it the count is what the first found, plus the number of
      retries that failed since. */
  lemma SecondWriteSetsCount(before: seq<Event>, first: Event, between: seq<Event>, second: Event, id: nat,
                             config: Config)
    requires first.Write? && second.Write?
    requires var s := After(Initial, before, config);
             Enabled(s, first, config) && TargetRow(s, first.upsert) == id
    requires var s := After(Initial, before, config);
             var s1 := Next(s, first, config);
             && NoWriteTo(s1, between, s.finding[first.upsert].key, config)
             && Enabled(After(s1, between, config), second, config)
             && TargetRow(After(s1, between, config), second.upsert) == id
    ensures var s := After(Initial, before, config);
            var s1 := Next(s, first, config);
            var s2 := After(s1, between, config);
            && id in s2.rows && id in Next(s2, second, config).rows
            && s2.rows[id].attemptCount
               == UpsertAttempts(s.finding[first.upsert].found) + FailedRetries(s1, between, id, config)
            && Next(s2, second, config).rows[id].attemptCount == UpsertAttempts(s2.finding[second.upsert].found)
  {
    var s := After(Initial, before, config);
    InvAlways(before, config);
    WriteTouchesOneRow(s, first, config);
    StepKeepsInv(s, first, config);
    var s1 := Next(s, first, config);
    CountsAdd(s1, between, id, config);
    InvKept(s1, between, config);
    CountStep(After(s1, between, config), second, config, id);
  }

  /** When nothing changed the row between the find and the write, an upsert keeps the
      attempt count, unless the row was sent: then the backoff starts afresh. */
  lemma UndisturbedUpsertKeepsAttempts(events: seq<Event>, e: Event, config: Config)
    ensures var s := After(Initial, events, config);
            e.Write? && Enabled(s, e, config) && s.finding[e.upsert].found.Some?
            && s.finding[e.upsert].found.value == FoundRow(s.rows, s.finding[e.upsert].found.value.id) ==>
              var id := s.finding[e.upsert].found.value.id;
              Next(s, e, config).rows[id].attemptCount
              == if s.rows[id].status == Sent then 0 else s.rows[id].attemptCount
  {
    InvAlways(events, config);
    var s := After(Initial, events, config);
    if e.Write? && Enabled(s, e, config) {
      WriteTouchesOneRow(s, e, config);
    }
  }

  /** A run that has claimed the one row queued. */
  lemma QueuedAndClaimed(config: Config, key: Key, push: Push) returns (s2: System)
    ensures var due := NextRetryAt(0, config.backoff, 0);
            && s2 == Next(Next(Next(Initial, Find(0, key, None), config), Write(0, push, 0), config),
                          StartRun(due, [0]), config)
            && s2.rows == map[0 := Row(key, Request(push, 0), Processing, 0, due, Some(due))]
            && s2.worker == Running([Item(0, key, Request(push, 0), 0)], None, [])
            && s2.finding == map[] && s2.writes == 1
  {
    var due := NextRetryAt(0, config.backoff, 0);
    var row := Row(key, Request(push, 0), Pending, 0, due, None);
    var s0 := Next(Initial, Find(0, key, None), config);
    var s1 := Next(s0, Write(0, push, 0), config);
    assert s1.rows == map[0 := row];
    assert Released(s1.rows, due, config) == s1.rows;
    s2 := Next(s1, StartRun(due, [0]), config);
    assert s2.rows == map[0 := row.(status := Processing, lockedAt := Some(due))];
  }

  /** And it does happen: a run in which an upsert that looked before a retry failed overwrites
      the failure the retry recorded, the row never having been sent. */
  lemma StaleUpsertLosesAnAttempt(config: Config, key: Key, push: Push)
    ensures exists events, e, id: nat ::
              var s := After(Initial, events, config);
              id in s.rows && s.rows[id].status != Sent && id in Next(s, e, config).rows
              && Next(s, e, config).rows[id].attemptCount < s.rows[id].attemptCount
  {
    var due := NextRetryAt(0, config.backoff, 0);
    var e0, e1, e2 := Find(0, key, None), Write(0, push, 0), StartRun(due, [0]);
    var e3, e4, e5 := Find(0, key, Some(Found(0, Processing, 0))), Send(Failed, due), Settle;
    var e6 := Write(0, push, due);
    var s2 := QueuedAndClaimed(config, key, push);
    var s3 := Next(s2, e3, config);
    var s4 := Next(s3, e4, config);
    var s5 := Next(s4, e5, config);
    assert s5.rows[0].attemptCount == 1 && s5.rows[0].status == Pending;
    assert Next(s5, e6, config).rows[0].attemptCount == 0;
    var events := AfterThree(Initial, [], e0, e1, e2, config);
    events := AfterThree(Initial, events, e3, e4, e5, config);
    assert After(Initial, events, config) == s5;
  }

  lemma AfterThree(s: System, before: seq<Event>, e0: Event, e1: Event, e2: Event,
                   config: Config) returns (events: seq<Event>)
    ensures After(s, events, config) == Next(Next(Next(After(s, before, config), e0, config), e1, config), e2, config)
  {
    AfterPush(s, before, e0, config);
    AfterPush(s, before + [e0], e1, config);
    AfterPush(s, before + [e0] + [e1], e2, config);
    events := before + [e0] + [e1] + [e2];
  }

  // ------------------------------------------------------------------- the run itself

  /** What one retry meets: whether the partner still has a profile, what its answer is (None
      for a request that raises, Some(code) for one that is answered), and whether the row can
      be marked. */
  datatype Attempt = Attempt(startedAt: int, partnerFound: bool, response: Option<Option<int>>, markFails: bool)

  /** The module whose client the request is handed to, as the row holds it. */
  function ClientFor(item: Item, attempt: Attempt): Option<ModuleId> {
    if !attempt.partnerFound || item.key.moduleId.OtherModule? then None else Some(item.key.moduleId)
  }

  function AnswerTo(item: Item, attempt: Attempt): Answer {
    if ClientFor(item, attempt).None? || attempt.response.None? then Failed
    else if attempt.markFails then Unmarked
    else Delivered
  }

  /** Any answer settles a retry, but only a success makes its CDR a delivered one. */
  predicate MarksCdr(item: Item, attempt: Attempt) {
    ClientFor(item, attempt) == Some(Cdrs) && attempt.response == Some(Some(1000))
  }

  /** How a retry ends, from what it meets: it is handed to the client of its module, if that is one
      that retries and the partner is still there; it is settled if that answers, whatever the
      answer, and the row can be marked; and its CDR is marked as sent after a success. */
  lemma AnswerExactly(item: Item, attempt: Attempt)
    ensures var m := item.key.moduleId;
            && ClientFor(item, attempt)
               == (if attempt.partnerFound && (m == Sessions || m == Cdrs || m == Tariffs) then Some(m) else None)
            && (AnswerTo(item, attempt) == Delivered
                <==> attempt.partnerFound && (m == Sessions || m == Cdrs || m == Tariffs)
                     && attempt.response.Some? && !attempt.markFails)
            && (AnswerTo(item, attempt) == Failed
                <==> !(attempt.partnerFound && (m == Sessions || m == Cdrs || m == Tariffs))
                     || attempt.response.None?)
            && (MarksCdr(item, attempt)
                <==> attempt.partnerFound && m == Cdrs && attempt.response == Some(Some(1000)))
  {
  }

  function SettlementOf(item: Item, attempt: Attempt): Settlement {
    Settlement(AnswerTo(item, attempt), attempt.startedAt)
  }

  function SettlementsOf(items: seq<Item>, attempts: nat -> Attempt): (answers: seq<Settlement>)
    ensures |answers| == |items|
  {
    seq(|items|, i requires 0 <= i < |items| => SettlementOf(items[i], attempts(i)))
  }

  /** The rows after the first n retries of a run nothing interferes with. */
  function SettledAll(rows: Rows, items: seq<Item>, answers: seq<Settlement>, n: nat, config: Config): Rows
    requires n <= |items| <= |answers|
  {
    if n == 0 then rows
    else SettledRows(SettledAll(rows, items, answers, n - 1, config), items[n - 1], answers[n - 1], config)
  }

  function CountDelivered(answers: seq<Settlement>, n: nat): nat
    requires n <= |answers|
  {
    if n == 0 then 0 else CountDelivered(answers, n - 1) + if answers[n - 1].answer == Delivered then 1 else 0
  }

  lemma {:induction false} DeliveredCounted(answers: seq<Settlement>, n: nat)
    requires n <= |answers|
    ensures CountDelivered(answers, n) == |set i: nat | i < n && answers[i].answer == Delivered|
  {
    if n > 0 {
      DeliveredCounted(answers, n - 1);
      var before := set i: nat | i < n - 1 && answers[i].answer == Delivered;
      var all := set i: nat | i < n && answers[i].answer == Delivered;
      assert all == if answers[n - 1].answer == Delivered then before + {n - 1} else before;
    }
  }

  datatype RunResult = RunResult(processed: nat, succeeded: nat, failed: nat, staleLocksReleased: nat)

  /** runOnce: release stale locks, claim due rows, retry each, count. */
  method RunOnce(outbox: Outbox, batchSize: nat, now: int, attempts: nat -> Attempt)
    returns (result: RunResult, ghost ids: seq<nat>)
    requires outbox.Valid()
    modifies outbox`rows
    ensures outbox.Valid()
    ensures Claimable(Released(old(outbox.rows), now, outbox.config), ids, now) && |ids| <= batchSize
    ensures var released := Released(old(outbox.rows), now, outbox.config);
            var answers := SettlementsOf(Items(released, ids), attempts);
            && outbox.rows
               == SettledAll(Claimed(released, ids, now), Items(released, ids), answers, |ids|, outbox.config)
            && result.processed == |ids| == result.succeeded + result.failed
            && result.succeeded == CountDelivered(answers, |ids|)
  {
    var staleLocksReleased := outbox.ReleaseStaleLocks(now);
    ghost var released := outbox.rows;
    var items := outbox.ClaimDueRetries(batchSize, now);
    ids :| Claimable(released, ids, now) && |ids| <= batchSize && items == Items(released, ids)
           && outbox.rows == Claimed(released, ids, now);
    var succeeded, failed := RetryAll(outbox, items, attempts);
    result := RunResult(|items|, succeeded, failed, staleLocksReleased);
  }

  /** The loop of runOnce. */
  method RetryAll(outbox: Outbox, items: seq<Item>, attempts: nat -> Attempt) returns (succeeded: nat, failed: nat)
    requires outbox.Valid()
    modifies outbox`rows
    ensures outbox.Valid()
    ensures outbox.rows
         == SettledAll(old(outbox.rows), items, SettlementsOf(items, attempts), |items|, outbox.config)
    ensures succeeded + failed == |items| && succeeded == CountDelivered(SettlementsOf(items, attempts), |items|)
  {
    ghost var answers := SettlementsOf(items, attempts);
    succeeded, failed := 0, 0;
    for i := 0 to |items|
      invariant outbox.Valid()
      invariant outbox.rows == SettledAll(old(outbox.rows), items, answers, i, outbox.config)
      invariant succeeded + failed == i && succeeded == CountDelivered(answers, i)
    {
      var ok, _, _, _ := RetryOne(outbox, items[i], attempts(i));
      if ok {
        succeeded := succeeded + 1;
      } else {
        failed := failed + 1;
      }
    }
  }

  /** retryOne, with the client and the request it was handed, and whether the CDR's own row is
      marked. */
  method RetryOne(outbox: Outbox, item: Item, attempt: Attempt)
    returns (ok: bool, client: Option<ModuleId>, sent: Option<Push>, marksCdr: bool)
    requires outbox.Valid()
    modifies outbox`rows
    ensures outbox.Valid()
    ensures outbox.rows == SettledRows(old(outbox.rows), item, SettlementOf(item, attempt), outbox.config)
    ensures ok <==> AnswerTo(item, attempt) == Delivered
    ensures client == ClientFor(item, attempt) && marksCdr == MarksCdr(item, attempt)
    ensures sent == if client.Some? then Some(item.request.push) else None
  {
    var attemptCount := item.attemptCount + 1;
    var nextRetryAt := NextRetryAt(attemptCount, outbox.config.backoff, attempt.startedAt);
    ok, client, sent, marksCdr := false, None, None, false;
    if !attempt.partnerFound {
      outbox.Reschedule(item.id, attemptCount, nextRetryAt);
      return;
    }
    match item.key.moduleId {
      case Sessions => client := Some(Sessions);
      case Cdrs =>
        client := Some(Cdrs);
        marksCdr := attempt.response == Some(Some(1000));
      case Tariffs => client := Some(Tariffs);
      case OtherModule(_) =>
    }
    if client.Some? {
      var push := item.request.push;
      sent := Some(Push(push.envelope, push.path, push.body));
    }
    ok := client.Some? && attempt.response.Some? && !attempt.markFails;
    if ok {
      outbox.MarkSent(item.id);
    } else {
      outbox.Reschedule(item.id, attemptCount, nextRetryAt);
    }
  }

  /** The events of a run nothing interferes with. */
  function RunEvents(now: int, ids: seq<nat>, answers: seq<Settlement>, n: nat): seq<Event>
    requires n <= |answers|
  {
    if n == 0 then [StartRun(now, ids)]
    else RunEvents(now, ids, answers, n - 1) + [Send(answers[n - 1].answer, answers[n - 1].startedAt), Settle]
  }

  /** The run the worker's loop performs is a run of the transition system. */
  lemma {:induction false} RunIsARun(s: System, now: int, ids: seq<nat>, answers: seq<Settlement>, n: nat,
                                     config: Config)
    requires !Busy(s.worker) && Claimable(Released(s.rows, now, config), ids, now) && n <= |ids| == |answers|
    ensures var s' := After(s, RunEvents(now, ids, answers, n), config);
            && s'.worker.Running? && s'.worker.sent.None? && |s'.worker.done| == n
            && s'.worker.items == Items(Released(s.rows, now, config), ids)
            && s'.rows == SettledAll(Claimed(Released(s.rows, now, config), ids, now),
                                     Items(Released(s.rows, now, config), ids), answers, n, config)
  {
    if n == 0 {
      RunStarts(s, now, ids, config);
    } else {
      RunIsARun(s, now, ids, answers, n - 1, config);
      RunEventsStep(s, now, ids, answers, n, config);
      SendThenSettle(After(s, RunEvents(now, ids, answers, n - 1), config), answers[n - 1], config);
    }
  }

  lemma RunStarts(s: System, now: int, ids: seq<nat>, config: Config)
    requires !Busy(s.worker) && Claimable(Released(s.rows, now, config), ids, now)
    ensures After(s, [StartRun(now, ids)], config) == Starting(s, Released(s.rows, now, config), ids, now)
  {
    AfterPush(s, [], StartRun(now, ids), config);
    assert [] + [StartRun(now, ids)] == [StartRun(now, ids)];
  }

  lemma RunEventsStep(s: System, now: int, ids: seq<nat>, answers: seq<Settlement>, n: nat, config: Config)
    requires 0 < n <= |answers|
    ensures After(s, RunEvents(now, ids, answers, n), config)
         == Next(Next(After(s, RunEvents(now, ids, answers, n - 1), config),
                      Send(answers[n - 1].answer, answers[n - 1].startedAt), config), Settle, config)
  {
    var before := RunEvents(now, ids, answers, n - 1);
    var send := Send(answers[n - 1].answer, answers[n - 1].startedAt);
    AfterPush(s, before, send, config);
    AfterPush(s, before + [send], Settle, config);
    assert before + [send] + [Settle] == RunEvents(now, ids, answers, n);
  }

  lemma SendThenSettle(s: System, settlement: Settlement, config: Config)
    requires Busy(s.worker) && s.worker.sent.None?
    ensures var s' := Next(Next(s, Send(settlement.answer, settlement.startedAt), config), Settle, config);
            && s'.worker == Running(s.worker.items, None, s.worker.done + [settlement])
            && s'.rows == SettledRows(s.rows, s.worker.items[|s.worker.done|], settlement, config)
  {
    var t := Next(s, Send(settlement.answer, settlement.startedAt), config);
    assert t.worker == s.worker.(sent := Some(settlement)) && t.rows == s.rows;
  }
}
