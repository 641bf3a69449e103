/**
 In which order the partner gets things: a live push that succeeds takes nothing out of the
 outbox, so an older request of the same resource may still be retried after it.
 */
module RetryOrder {
  import opened Numbers
  import opened RetryOutbox
  import opened RetryWorker

  /** What the partner got last for the key is the newest there is. */
  ghost predicate UpToDate(s: System, key: Key) {
    key in s.received && key in s.newest && s.received[key] == s.newest[key]
  }

  /** The key's row is still in the queue, with something older. */
  ghost predicate RowOlder(s: System, key: Key) {
    key in s.newest
    && exists id :: Holds(s.rows, id, key) && s.rows[id].status != Sent && s.rows[id].request != s.newest[key]
  }

  /** The worker has claimed the item and not sent it yet. */
  ghost predicate ItemWaits(s: System, i: int) {
    s.worker.Running? && |s.worker.done| <= i < |s.worker.items| && (i > |s.worker.done| || s.worker.sent.None?)
  }

  ghost predicate ItemOlder(s: System, key: Key) {
    key in s.newest
    && exists i :: ItemWaits(s, i) && s.worker.items[i].key == key && s.worker.items[i].request != s.newest[key]
  }

  /** The event brings something new for the key. */
  ghost predicate Brings(s: System, e: Event, key: Key) {
    (e.LivePush? && e.key == key) || WritesKey(s, e, key)
  }

  /** A run that brings nothing new for the key. */
  ghost predicate Quiet(s: System, events: seq<Event>, key: Key, config: Config) {
    events == []
    || (var t, e := After(s, events[..|events| - 1], config), events[|events| - 1];
        Quiet(s, events[..|events| - 1], key, config) && !Brings(t, e, key))
  }

  ghost predicate NothingOlder(s: System, key: Key) {
    UpToDate(s, key) && !RowOlder(s, key) && !ItemOlder(s, key)
  }

  // --------------------------------------------------------------- nothing comes late

  lemma SameNewest(s: System, s': System, key: Key)
    requires NothingOlder(s, key) && key in s'.newest && s'.newest[key] == s.newest[key]
    requires key in s'.received && s'.received[key] == s.newest[key]
    requires forall id :: Holds(s'.rows, id, key) && s'.rows[id].status != Sent ==>
                            Holds(s.rows, id, key) && s.rows[id].status != Sent
                            && s'.rows[id].request == s.rows[id].request
    requires forall i :: ItemWaits(s', i) && s'.worker.items[i].key == key ==>
                           s'.worker.items[i].request == s.newest[key]
    ensures NothingOlder(s', key)
  {
  }

  lemma ItemsOfNewest(s: System, key: Key, i: int)
    requires NothingOlder(s, key) && ItemWaits(s, i) && s.worker.items[i].key == key
    ensures s.worker.items[i].request == s.newest[key]
  {
  }

  lemma WriteStays(s: System, e: Event, key: Key, config: Config)
    requires Inv(s, config) && NothingOlder(s, key) && e.Write? && Enabled(s, e, config) && !WritesKey(s, e, key)
    ensures NothingOlder(Next(s, e, config), key)
  {
    WriteTouchesOneRow(s, e, config);
    SameNewest(s, Next(s, e, config), key);
  }

  /** A claim takes what is in the queue, and nothing that was sent comes back. */
  lemma ClaimTakes(rows: Rows, ids: seq<nat>, now: int, config: Config)
    requires Claimable(Released(rows, now, config), ids, now)
    ensures var released := Released(rows, now, config);
            && (forall id :: id in rows && rows[id].status == Sent ==> Claimed(released, ids, now)[id].status == Sent)
            && (forall i :: 0 <= i < |ids| ==>
                  var item := Items(released, ids)[i];
                  && Holds(rows, item.id, item.key) && rows[item.id].status != Sent
                  && rows[item.id].request == item.request)
  {
  }

  lemma StartStays(s: System, e: Event, key: Key, config: Config)
    requires Inv(s, config) && NothingOlder(s, key) && e.StartRun? && Enabled(s, e, config)
    ensures NothingOlder(Next(s, e, config), key)
  {
    ClaimTakes(s.rows, e.ids, e.now, config);
    ClaimedRows(s.rows, e.ids, e.now, config);
    SameNewest(s, Next(s, e, config), key);
  }

  lemma SendStays(s: System, e: Event, key: Key, config: Config)
    requires Inv(s, config) && NothingOlder(s, key) && e.Send? && Enabled(s, e, config)
    ensures NothingOlder(Next(s, e, config), key)
  {
    var i := |s.worker.done|;
    assert ItemWaits(s, i);
    if s.worker.items[i].key == key {
      ItemsOfNewest(s, key, i);
    }
    SendingStays(s, Sending(s, s.worker.items[i], Settlement(e.answer, e.now)), key);
  }

  lemma SendingStays(s: System, s': System, key: Key)
    requires NothingOlder(s, key) && s'.rows == s.rows && s'.newest == s.newest
    requires key in s'.received && s'.received[key] == s.newest[key]
    requires s.worker.Running? && s'.worker.Running? && s'.worker.sent.Some?
    requires s'.worker.items == s.worker.items && s'.worker.done == s.worker.done
    ensures NothingOlder(s', key)
  {
    forall i | ItemWaits(s', i) && s'.worker.items[i].key == key ensures s'.worker.items[i].request == s.newest[key] {
      assert ItemWaits(s, i);
    }
    SameNewest(s, s', key);
  }

  lemma SettlingStays(s: System, key: Key, config: Config)
    requires Inv(s, config) && NothingOlder(s, key) && Busy(s.worker) && s.worker.sent.Some?
    ensures NothingOlder(Settling(s, s.worker.items[|s.worker.done|], s.worker.sent.value, config), key)
  {
    var item := s.worker.items[|s.worker.done|];
    RetryUnderWay(s, config);
    SettleTouchesOneRow(s.rows, item, s.worker.sent.value, config);
    SettledStays(s, Settling(s, item, s.worker.sent.value, config), item, key);
  }

  lemma SettledStays(s: System, s': System, item: Item, key: Key)
    requires NothingOlder(s, key) && s'.newest == s.newest && s'.received == s.received
    requires s.worker.Running? && s'.worker.Running? && s'.worker.items == s.worker.items
    requires |s'.worker.done| > |s.worker.done|
    requires s'.rows.Keys == s.rows.Keys && item.id in s.rows && s.rows[item.id].status != Sent
    requires forall i :: i in s.rows && i != item.id ==> s'.rows[i] == s.rows[i]
    requires s'.rows[item.id].key == s.rows[item.id].key && s'.rows[item.id].request == s.rows[item.id].request
    ensures NothingOlder(s', key)
  {
    forall i | ItemWaits(s', i) && s'.worker.items[i].key == key ensures s'.worker.items[i].request == s.newest[key] {
      assert ItemWaits(s, i);
    }
    SameNewest(s, s', key);
  }

  lemma StepStays(s: System, e: Event, key: Key, config: Config)
    requires Inv(s, config) && NothingOlder(s, key) && !Brings(s, e, key)
    ensures NothingOlder(Next(s, e, config), key)
  {
    if Enabled(s, e, config) {
      match e
      case Write(_, _, _) => WriteStays(s, e, key, config);
      case StartRun(_, _) => StartStays(s, e, key, config);
      case Send(_, _) => SendStays(s, e, key, config);
      case Settle => SettlingStays(s, key, config);
      case _ => SameNewest(s, Next(s, e, config), key);
    }
  }

  lemma {:induction false} RunStays(s: System, events: seq<Event>, key: Key, config: Config)
    requires Inv(s, config) && NothingOlder(s, key) && Quiet(s, events, key, config)
    ensures Inv(After(s, events, config), config) && NothingOlder(After(s, events, config), key)
  {
    if events != [] {
      var before := events[..|events| - 1];
      RunStays(s, before, key, config);
      StepStays(After(s, before, config), events[|events| - 1], key, config);
      StepKeepsInv(After(s, before, config), events[|events| - 1], config);
    }
  }

  // ------------------------------------------------------------- something comes late

  lemma WorkerStepIsQuiet(s: System, events: seq<Event>, e: Event, key: Key, config: Config)
    requires Quiet(s, events, key, config) && (e.StartRun? || e.Send? || e.Settle? || e.Crash?)
    ensures Quiet(s, events + [e], key, config)
    ensures After(s, events + [e], config) == Next(After(s, events, config), e, config)
  {
    assert (events + [e])[..|events|] == events;
    AfterPush(s, events, e, config);
  }

  lemma SendIsNext(s: System, config: Config)
    requires Busy(s.worker) && s.worker.sent.None?
    ensures var t := Next(s, Send(Failed, 0), config);
            t.newest == s.newest && t.worker == s.worker.(sent := Some(Settlement(Failed, 0)))
  {
  }

  lemma SettleIsNext(s: System, config: Config)
    requires Busy(s.worker) && s.worker.sent.Some?
    ensures var t := Next(s, Settle, config);
            && t.newest == s.newest && t.worker.Running? && t.worker.items == s.worker.items
            && |t.worker.done| == |s.worker.done| + 1 && t.worker.sent.None?
  {
  }

  /** The worker can get to any item it has claimed. */
  lemma {:induction false} ReachItem(s: System, i: nat, key: Key, config: Config) returns (events: seq<Event>)
    requires s.worker.Running? && |s.worker.done| <= i < |s.worker.items|
    ensures Quiet(s, events, key, config)
    ensures var t := After(s, events, config);
            && t.worker.Running? && t.worker.items == s.worker.items && |t.worker.done| == i
            && t.newest == s.newest && (t.worker.sent.None? || t.worker.sent == s.worker.sent)
            && (i > |s.worker.done| ==> t.worker.sent.None?)
    decreases i
  {
    events := [];
    if i > |s.worker.done| {
      events := ReachItem(s, i - 1, key, config);
      if After(s, events, config).worker.sent.None? {
        SendIsNext(After(s, events, config), config);
        WorkerStepIsQuiet(s, events, Send(Failed, 0), key, config);
        events := events + [Send(Failed, 0)];
      }
      SettleIsNext(After(s, events, config), config);
      WorkerStepIsQuiet(s, events, Settle, key, config);
      events := events + [Settle];
    }
  }

  lemma ItemComesLate(s: System, i: nat, key: Key, config: Config) returns (events: seq<Event>)
    requires ItemWaits(s, i) && key in s.newest
    requires s.worker.items[i].key == key && s.worker.items[i].request != s.newest[key]
    ensures Quiet(s, events, key, config) && !UpToDate(After(s, events, config), key)
  {
    events := ReachItem(s, i, key, config);
    WorkerStepIsQuiet(s, events, Send(Delivered, 0), key, config);
    events := events + [Send(Delivered, 0)];
  }

  /** A moment at which the row is due, and its lock stale. */
  function Later(row: Row, config: Config): int {
    var unlocked := if row.lockedAt.Some? then row.lockedAt.value + config.staleLockSeconds * 1000 + 1 else 0;
    if unlocked >= row.nextRetryAt then unlocked else row.nextRetryAt
  }

  lemma QueuedRowIsClaimable(rows: Rows, id: nat, config: Config)
    requires id in rows && rows[id].status != Sent && (rows[id].status == Processing ==> rows[id].lockedAt.Some?)
    ensures var now := Later(rows[id], config);
            && Claimable(Released(rows, now, config), [id], now)
            && Released(rows, now, config)[id].key == rows[id].key
            && Released(rows, now, config)[id].request == rows[id].request
  {
  }

  lemma ClaimThenSend(s: System, id: nat, now: int, config: Config)
    requires s.worker.Idle? && id in s.rows && Claimable(Released(s.rows, now, config), [id], now)
    ensures var row := Released(s.rows, now, config)[id];
            var t := Next(Next(s, StartRun(now, [id]), config), Send(Delivered, now), config);
            t.newest == s.newest && t.received == s.received[row.key := row.request]
  {
  }

  lemma RowComesLate(s: System, id: nat, key: Key, config: Config) returns (events: seq<Event>)
    requires LocksFit(s) && Holds(s.rows, id, key) && key in s.newest
    requires s.rows[id].status != Sent && s.rows[id].request != s.newest[key]
    ensures Quiet(s, events, key, config) && !UpToDate(After(s, events, config), key)
  {
    events := [];
    if s.worker.Running? {
      WorkerStepIsQuiet(s, [], Crash, key, config);
      events := [] + [Crash];
    }
    var now := Later(s.rows[id], config);
    QueuedRowIsClaimable(s.rows, id, config);
    ClaimThenSend(After(s, events, config), id, now, config);
    WorkerStepIsQuiet(s, events, StartRun(now, [id]), key, config);
    events := events + [StartRun(now, [id])];
    WorkerStepIsQuiet(s, events, Send(Delivered, now), key, config);
    events := events + [Send(Delivered, now)];
  }

  /** The exact condition. When the partner has the newest request of a key, some run that
      brings nothing new for the key puts an older one over it if and only if an older one is
      still in the queue, or claimed and not sent. */
  lemma NewestIsOverwritten(before: seq<Event>, key: Key, config: Config)
    requires UpToDate(After(Initial, before, config), key)
    ensures var s := After(Initial, before, config);
            (exists events :: Quiet(s, events, key, config) && !UpToDate(After(s, events, config), key))
            <==> RowOlder(s, key) || ItemOlder(s, key)
  {
    InvAlways(before, config);
    var s := After(Initial, before, config);
    if RowOlder(s, key) {
      var id :| Holds(s.rows, id, key) && s.rows[id].status != Sent && s.rows[id].request != s.newest[key];
      var events := RowComesLate(s, id, key, config);
    } else if ItemOlder(s, key) {
      var i :| ItemWaits(s, i) && s.worker.items[i].key == key && s.worker.items[i].request != s.newest[key];
      var events := ItemComesLate(s, i, key, config);
    } else {
      forall events | Quiet(s, events, key, config) ensures UpToDate(After(s, events, config), key) {
        RunStays(s, events, key, config);
      }
    }
  }

  /** And it happens: a push fails and is queued, the next one succeeds, and the queued one is
      still to come. */
  lemma QueuedBeforeSuccess(key: Key, push: Push, config: Config)
    ensures exists before :: var s := After(Initial, before, config);
              UpToDate(s, key) && RowOlder(s, key)
  {
    var e0, e1, e2 := Find(0, key, None), Write(0, push, 0), LivePush(key, push);
    AfterPush(Initial, [], e0, config);
    AfterPush(Initial, [] + [e0], e1, config);
    AfterPush(Initial, [] + [e0] + [e1], e2, config);
    var s1 := Next(Initial, e0, config);
    var s2 := Next(s1, e1, config);
    var s := Next(s2, e2, config);
    assert s1.rows == map[];
    assert Holds(s2.rows, 0, key) && s2.rows[0].request == Request(push, 0) && s2.rows[0].status == Pending;
    assert s.rows == s2.rows && s.newest[key] == Request(push, 1);
    assert RowOlder(s, key) && UpToDate(s, key);
  }
}
