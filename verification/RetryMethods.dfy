/**
 Under which method a queued push goes out. The INSERT of an outbox row stores the method, the
 UPDATE of a later failure leaves it as it is, and the worker sends what the row holds: so a
 push that failed after another one of the same resource goes out under the method of the first.
 */
module RetryMethods {
  import opened Numbers
  import opened RetryBackoff
  import opened RetryOutbox
  import opened RetryWorker

  // -------------------------------------------------------------------- tags are telling

  ghost predicate RowTags(rows: Rows) {
    forall i, j :: i in rows && j in rows && rows[i].request.write == rows[j].request.write ==> i == j
  }

  /** A request is older than all to come, and of those in the table only itself has its tag. */
  ghost predicate Tagged(request: Request, rows: Rows, writes: nat) {
    request.write < writes
    && forall id :: id in rows && rows[id].request.write == request.write ==> rows[id].request == request
  }

  ghost predicate TagsTell(s: System) {
    && RowTags(s.rows)
    && (forall d :: d in s.delivered ==> Tagged(d, s.rows, s.writes))
    && (s.worker.Running? ==>
          forall i :: 0 <= i < |s.worker.items| ==> Tagged(s.worker.items[i].request, s.rows, s.writes))
  }

  lemma SameRequests(s: System, s': System)
    requires TagsTell(s) && s'.rows.Keys == s.rows.Keys && s'.writes >= s.writes
    requires forall id :: id in s.rows ==> s'.rows[id].request == s.rows[id].request
    requires forall d :: d in s'.delivered ==> d in s.delivered || Tagged(d, s.rows, s'.writes)
    requires s'.worker.Running? ==>
               (s.worker.Running? && s'.worker.items == s.worker.items)
               || forall i :: 0 <= i < |s'.worker.items| ==> Tagged(s'.worker.items[i].request, s.rows, s'.writes)
    ensures TagsTell(s')
  {
  }

  lemma WriteTells(s: System, s': System, id: nat)
    requires TagsTell(s) && s'.rows.Keys == s.rows.Keys + {id} && s'.writes == s.writes + 1
    requires s'.rows[id].request.write == s.writes
    requires TagsFit(s)
    requires forall i :: i in s.rows && i != id ==> s'.rows[i] == s.rows[i]
    requires s'.delivered == s.delivered && s'.worker == s.worker
    ensures TagsTell(s')
  {
  }

  lemma ClaimTells(s: System, e: Event, config: Config)
    requires Inv(s, config) && TagsTell(s) && e.StartRun? && Enabled(s, e, config)
    ensures TagsTell(Next(s, e, config))
  {
    var s' := Next(s, e, config);
    ClaimedRows(s.rows, e.ids, e.now, config);
    forall i | 0 <= i < |s'.worker.items| ensures Tagged(s'.worker.items[i].request, s.rows, s.writes) {
      assert s'.worker.items[i].request == s.rows[e.ids[i]].request;
    }
    SameRequests(s, s');
  }

  lemma SettleTells(s: System, config: Config)
    requires Inv(s, config) && TagsTell(s) && Enabled(s, Settle, config)
    ensures TagsTell(Next(s, Settle, config))
  {
    var item := s.worker.items[|s.worker.done|];
    assert Awaits(s.rows, item);
    SettleTouchesOneRow(s.rows, item, s.worker.sent.value, config);
    SameRequests(s, Next(s, Settle, config));
  }

  lemma WriteStepTells(s: System, e: Event, config: Config)
    requires Inv(s, config) && TagsTell(s) && e.Write? && Enabled(s, e, config)
    ensures TagsTell(Next(s, e, config))
  {
    WriteTouchesOneRow(s, e, config);
    WriteTells(s, Next(s, e, config), TargetRow(s, e.upsert));
  }

  lemma StepTells(s: System, e: Event, config: Config)
    requires Inv(s, config) && TagsTell(s)
    ensures TagsTell(Next(s, e, config))
  {
    if Enabled(s, e, config) {
      match e
      case Write(_, _, _) => WriteStepTells(s, e, config);
      case StartRun(_, _) => ClaimTells(s, e, config);
      case Settle => SettleTells(s, config);
      case LivePush(key, push) => PushTells(s, key, push);
      case Send(answer, now) => SendTells(s, Settlement(answer, now));
      case Find(upsert, key, found) => SameRequests(s, s.(finding := s.finding[upsert := Upsert(key, found)]));
      case Crash => SameRequests(s, s.(worker := Idle));
    }
  }

  lemma PushTells(s: System, key: Key, push: Push)
    requires TagsFit(s) && TagsTell(s)
    ensures TagsTell(Pushed(s, key, Request(push, s.writes)))
  {
    SameRequests(s, Pushed(s, key, Request(push, s.writes)));
  }

  lemma SendTells(s: System, settlement: Settlement)
    requires TagsTell(s) && Busy(s.worker)
    ensures TagsTell(Sending(s, s.worker.items[|s.worker.done|], settlement))
  {
    SameRequests(s, Sending(s, s.worker.items[|s.worker.done|], settlement));
  }

  lemma {:induction false} TagsAlwaysTell(events: seq<Event>, config: Config)
    ensures Inv(After(Initial, events, config), config) && TagsTell(After(Initial, events, config))
  {
    if events != [] {
      TagsAlwaysTell(events[..|events| - 1], config);
      StepKeepsInv(After(Initial, events[..|events| - 1], config), events[|events| - 1], config);
      StepTells(After(Initial, events[..|events| - 1], config), events[|events| - 1], config);
    }
  }

  // -------------------------------------------------------------------- the row's method

  lemma EnvelopeStep(s: System, e: Event, config: Config, id: nat)
    requires Inv(s, config) && id in s.rows
    ensures var rows := Next(s, e, config).rows;
            id in rows && rows[id].request.push.envelope == s.rows[id].request.push.envelope
  {
    if !Enabled(s, e, config) {
    } else if e.Write? {
      WriteEnvelope(s, e, config, id);
    } else if e.StartRun? {
      ClaimEnvelope(s, e, config, id);
    } else if e.Settle? {
      SettleEnvelope(s, config, id);
    } else {
      RowsStay(s, e, config);
    }
  }

  lemma WriteEnvelope(s: System, e: Event, config: Config, id: nat)
    requires TableFits(s) && id in s.rows && e.Write? && Enabled(s, e, config)
    ensures var rows := Next(s, e, config).rows;
            id in rows && rows[id].request.push.envelope == s.rows[id].request.push.envelope
  {
    WriteTouchesOneRow(s, e, config);
  }

  lemma ClaimEnvelope(s: System, e: Event, config: Config, id: nat)
    requires id in s.rows && e.StartRun? && Enabled(s, e, config)
    ensures var rows := Next(s, e, config).rows;
            id in rows && rows[id].request.push.envelope == s.rows[id].request.push.envelope
  {
    ClaimedRows(s.rows, e.ids, e.now, config);
  }

  lemma SettleEnvelope(s: System, config: Config, id: nat)
    requires Inv(s, config) && id in s.rows && Enabled(s, Settle, config)
    ensures var rows := Next(s, Settle, config).rows;
            id in rows && rows[id].request.push.envelope == s.rows[id].request.push.envelope
  {
    var item := s.worker.items[|s.worker.done|];
    assert Awaits(s.rows, item);
    SettleTouchesOneRow(s.rows, item, s.worker.sent.value, config);
  }

  /** A row keeps the envelope it was inserted with through any later events. */
  lemma {:induction false} EnvelopeStays(s: System, events: seq<Event>, config: Config, id: nat)
    requires Inv(s, config) && id in s.rows
    ensures var rows := After(s, events, config).rows;
            id in rows && rows[id].request.push.envelope == s.rows[id].request.push.envelope
  {
    if events != [] {
      var before := events[..|events| - 1];
      EnvelopeStays(s, before, config, id);
      InvKept(s, before, config);
      EnvelopeStep(After(s, before, config), events[|events| - 1], config, id);
    }
  }

  /** The row an upsert inserts keeps the method, and on whose behalf it goes out, of the push
      that was queued first, whatever is queued for it later. */
  lemma RowKeepsFirstMethod(before: seq<Event>, insert: Event, later: seq<Event>, config: Config)
    requires var s := After(Initial, before, config);
             insert.Write? && insert.upsert in s.finding && s.finding[insert.upsert].found.None?
    ensures var s := After(Initial, before, config);
            var rows := After(Next(s, insert, config), later, config).rows;
            s.writes in rows && rows[s.writes].request.push.envelope == insert.push.envelope
  {
    InvAlways(before, config);
    var s := After(Initial, before, config);
    WriteTouchesOneRow(s, insert, config);
    StepKeepsInv(s, insert, config);
    EnvelopeStays(Next(s, insert, config), later, config, s.writes);
  }

  /** The exact condition, in every interleaving. Once the row that holds the push queued last for
      a key is out of the queue, the partner has been given that push if and only if its method,
      and on whose behalf it was made, are those of the row: those of the push the row was
      inserted for. Otherwise it has been given that push's path and body under the row's. */
  lemma LastPushIsGivenExactly(events: seq<Event>, config: Config, key: Key, id: nat)
    requires var s := After(Initial, events, config);
             key in s.latest && HoldsRequest(s.rows, id, key, s.latest[key]) && s.rows[id].status == Sent
    ensures var s := After(Initial, events, config);
            && (s.latest[key] in s.delivered
                <==> s.latest[key].push.envelope == s.rows[id].request.push.envelope)
            && OnRow(s.rows[id].request, s.latest[key]) in s.delivered
  {
    TagsAlwaysTell(events, config);
    var s := After(Initial, events, config);
    var last := s.latest[key];
    if last in s.delivered {
      assert Tagged(last, s.rows, s.writes);
    }
    if last.push.envelope == s.rows[id].request.push.envelope {
      assert OnRow(s.rows[id].request, last) == last;
    }
  }

  /** It happens with any two pushes that differ in it, a PUT and then a DELETE of a tariff, or
      the other way round: the second is queued over the first, goes out under the first one's
      method, and is done with. */
  lemma SecondGoesOutAsFirst(key: Key, first: Push, second: Push, config: Config)
    requires first.envelope != second.envelope
    ensures exists events ::
              var s := After(Initial, events, config);
              && Holds(s.rows, 0, key) && s.rows[0].status == Sent
              && key in s.latest && s.latest[key] == Request(second, 1)
              && Request(Push(first.envelope, second.path, second.body), 1) in s.delivered
              && Request(second, 1) !in s.delivered
  {
    var due := NextRetryAt(0, config.backoff, 0);
    var s0 := QueuedTwice(key, first, second, config);
    var e4, e5, e6 := StartRun(due, [0]), Send(Delivered, due), Settle;
    var s1 := ClaimedAlone(s0, 0, due, config);
    var s3 := SentAlone(s1, 0, due, config);
    var e0, e1 := Find(0, key, None), Write(0, first, 0);
    var e2, e3 := Find(0, key, Some(Found(0, Pending, 0))), Write(0, second, 0);
    var events := AfterThree(Initial, [], e0, e1, e2, config);
    AfterPush(Initial, events, e3, config);
    events := AfterThree(Initial, events + [e3], e4, e5, e6, config);
    assert After(Initial, events, config) == s3;
  }

  lemma SentAlone(s: System, id: nat, now: int, config: Config) returns (s': System)
    requires s.worker.Running? && |s.worker.items| == 1 && s.worker.done == [] && s.worker.sent.None?
    requires id in s.rows && s.worker.items[0].id == id && s.rows[id].status == Processing
    ensures s' == Next(Next(s, Send(Delivered, now), config), Settle, config)
    ensures s'.rows == s.rows[id := s.rows[id].(status := Sent, lockedAt := None)]
    ensures s'.delivered == s.delivered + {s.worker.items[0].request} && s'.latest == s.latest
  {
    var t := Next(s, Send(Delivered, now), config);
    assert t.worker == s.worker.(sent := Some(Settlement(Delivered, now))) && t.rows == s.rows;
    assert t.delivered == s.delivered + {s.worker.items[0].request} && t.latest == s.latest;
    s' := Next(t, Settle, config);
  }

  lemma QueuedTwice(key: Key, first: Push, second: Push, config: Config) returns (s: System)
    ensures var s2 := Next(Next(Initial, Find(0, key, None), config), Write(0, first, 0), config);
            s == Next(Next(s2, Find(0, key, Some(Found(0, Pending, 0))), config), Write(0, second, 0), config)
    ensures var request := Request(Push(first.envelope, second.path, second.body), 1);
            s.rows == map[0 := Row(key, request, Pending, 0, NextRetryAt(0, config.backoff, 0), None)]
    ensures s.worker == Idle && s.delivered == {} && s.latest == map[key := Request(second, 1)]
  {
    var due := NextRetryAt(0, config.backoff, 0);
    var s1 := Next(Initial, Find(0, key, None), config);
    var s2 := Next(s1, Write(0, first, 0), config);
    assert s2.rows == map[0 := Row(key, Request(first, 0), Pending, 0, due, None)] && s2.finding == map[];
    var s3 := Next(s2, Find(0, key, Some(Found(0, Pending, 0))), config);
    assert s3.finding == map[0 := Upsert(key, Some(Found(0, Pending, 0)))];
    s := Next(s3, Write(0, second, 0), config);
  }

  lemma ClaimedAlone(s: System, id: nat, now: int, config: Config) returns (s': System)
    requires s.worker == Idle && s.rows.Keys == {id}
    requires s.rows[id].status == Pending && s.rows[id].nextRetryAt <= now
    ensures s' == Next(s, StartRun(now, [id]), config)
    ensures s'.worker == Running([Item(id, s.rows[id].key, s.rows[id].request, s.rows[id].attemptCount)], None, [])
    ensures s'.rows == map[id := s.rows[id].(status := Processing, lockedAt := Some(now))]
    ensures s'.delivered == s.delivered && s'.latest == s.latest
  {
    assert Released(s.rows, now, config) == s.rows;
    s' := Next(s, StartRun(now, [id]), config);
  }
}
