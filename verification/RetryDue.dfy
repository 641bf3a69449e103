/**
 When a row of the outbox is retried: not before its backoff has passed since the retry that
 failed, or since the write that queued it, and from then on; and after a crash of the worker,
 once its lock is stale.
 */
module RetryDue {
  import opened Numbers
  import opened RetryBackoff
  import opened RetryOutbox
  import opened RetryWorker

  /** No run claims the row. */
  ghost predicate NotClaimed(events: seq<Event>, id: nat) {
    forall k :: 0 <= k < |events| && events[k].StartRun? ==> id !in events[k].ids
  }

  /** A run that starts at this moment may claim the row. */
  ghost predicate MayClaim(s: System, id: nat, now: int, config: Config) {
    exists ids :: id in ids && Claimable(Released(s.rows, now, config), ids, now)
  }

  lemma MayClaimExactly(s: System, id: nat, now: int, config: Config)
    ensures MayClaim(s, id, now, config) <==> id in s.rows && Due(Released(s.rows, now, config)[id], now)
  {
    if id in s.rows && Due(Released(s.rows, now, config)[id], now) {
      assert id in [id] && Claimable(Released(s.rows, now, config), [id], now);
    }
  }

  /** What happens to a row that nobody writes to or claims: if pending, nothing; and it never gets
      back into processing. */
  ghost predicate LeftAlone(before: Row, after: Row) {
    && (before.status == Pending ==> after == before)
    && (after.status == Processing ==> after == before)
  }

  lemma SettleLeaves(s: System, config: Config, id: nat)
    requires Inv(s, config) && id in s.rows && Enabled(s, Settle, config)
    ensures var rows := Next(s, Settle, config).rows; id in rows && LeftAlone(s.rows[id], rows[id])
  {
    var item := s.worker.items[|s.worker.done|];
    RetryUnderWay(s, config);
    SettleTouchesOneRow(s.rows, item, s.worker.sent.value, config);
  }

  lemma StepLeaves(s: System, e: Event, config: Config, id: nat)
    requires Inv(s, config) && id in s.rows && !WritesKey(s, e, s.rows[id].key)
    requires e.StartRun? ==> id !in e.ids
    ensures var rows := Next(s, e, config).rows;
            id in rows && LeftAlone(s.rows[id], rows[id]) && rows[id].key == s.rows[id].key
  {
    CountStep(s, e, config, id);
    if !Enabled(s, e, config) {
    } else if e.Write? {
      OnlyKeyWrites(s, e, config, id);
      WriteTouchesOneRow(s, e, config);
    } else if e.Settle? {
      SettleLeaves(s, config, id);
    } else if !e.StartRun? {
      RowsStay(s, e, config);
    }
  }

  lemma {:induction false} RunLeaves(s: System, events: seq<Event>, config: Config, id: nat)
    requires Inv(s, config) && id in s.rows && NoWriteTo(s, events, s.rows[id].key, config) && NotClaimed(events, id)
    ensures var rows := After(s, events, config).rows;
            id in rows && LeftAlone(s.rows[id], rows[id]) && rows[id].key == s.rows[id].key
  {
    if events != [] {
      var before, e := events[..|events| - 1], events[|events| - 1];
      assert forall k :: 0 <= k < |before| ==> before[k] == events[k];
      RunLeaves(s, before, config, id);
      InvKept(s, before, config);
      StepLeaves(After(s, before, config), e, config, id);
    }
  }

  lemma PendingRowIsDue(s: System, more: seq<Event>, config: Config, id: nat, now: int)
    requires Inv(s, config) && id in s.rows && s.rows[id].status == Pending
    requires NoWriteTo(s, more, s.rows[id].key, config) && NotClaimed(more, id)
    ensures MayClaim(After(s, more, config), id, now, config) <==> s.rows[id].nextRetryAt <= now
  {
    RunLeaves(s, more, config, id);
    MayClaimExactly(After(s, more, config), id, now, config);
  }

  lemma LockedRowIsDue(s: System, at: int, more: seq<Event>, config: Config, id: nat, now: int)
    requires Inv(s, config) && id in s.rows && IsLocked(s.rows[id], at) && config.staleLockSeconds > 0
    requires NoWriteTo(s, more, s.rows[id].key, config) && NotClaimed(more, id)
    ensures var s' := After(s, more, config);
            id in s'.rows && s'.rows[id].status == Processing ==>
              (MayClaim(s', id, now, config) <==> now - at > 1000 * config.staleLockSeconds)
  {
    RunLeaves(s, more, config, id);
    MayClaimExactly(After(s, more, config), id, now, config);
  }

  lemma FailedRetryRow(s: System, config: Config, id: nat)
    requires Inv(s, config) && id in s.rows && RetryFails(s, Settle, id)
    ensures var rows := Next(s, Settle, config).rows;
            && id in rows && rows[id].status == Pending && rows[id].key == s.rows[id].key
            && rows[id].nextRetryAt
               == NextRetryAt(s.rows[id].attemptCount + 1, config.backoff, s.worker.sent.value.startedAt)
  {
    var item := s.worker.items[|s.worker.done|];
    RetryUnderWay(s, config);
    SettleTouchesOneRow(s.rows, item, s.worker.sent.value, config);
  }

  /** A row whose n-th retry failed: as long as nobody writes to it, a run may claim it exactly
      once base * multiplier^n seconds, or the maximum, have passed since that retry began. */
  lemma FailedRetryIsDueExactly(before: seq<Event>, more: seq<Event>, config: Config, id: nat, now: int)
    requires var s := After(Initial, before, config);
             id in s.rows && RetryFails(s, Settle, id)
    requires var s := After(Initial, before, config);
             NoWriteTo(Next(s, Settle, config), more, s.rows[id].key, config) && NotClaimed(more, id)
    ensures var s := After(Initial, before, config);
            MayClaim(After(Next(s, Settle, config), more, config), id, now, config)
            <==> Waited(s.rows[id].attemptCount + 1, config.backoff, s.worker.sent.value.startedAt, now)
  {
    InvAlways(before, config);
    var s := After(Initial, before, config);
    FailedRetryRow(s, config, id);
    StepKeepsInv(s, Settle, config);
    PendingRowIsDue(Next(s, Settle, config), more, config, id, now);
    DueExactly(s.rows[id].attemptCount + 1, config.backoff, s.worker.sent.value.startedAt, now);
  }

  lemma QueuedRow(s: System, write: Event, config: Config)
    requires Inv(s, config) && write.Write? && Enabled(s, write, config)
    ensures var rows, id, upsert := Next(s, write, config).rows, TargetRow(s, write.upsert), s.finding[write.upsert];
            && id in rows && rows[id].status == Pending && rows[id].key == upsert.key
            && rows[id].nextRetryAt == NextRetryAt(UpsertAttempts(upsert.found), config.backoff, write.now)
  {
    WriteTouchesOneRow(s, write, config);
  }

  /** A row just queued, anew or again: exactly once that time for the attempts it was found with
      has passed since the write, none if it was not there or had been sent. */
  lemma QueuedRowIsDueExactly(before: seq<Event>, write: Event, more: seq<Event>, config: Config, now: int)
    requires var s := After(Initial, before, config);
             write.Write? && Enabled(s, write, config)
    requires var s := After(Initial, before, config);
             NoWriteTo(Next(s, write, config), more, s.finding[write.upsert].key, config)
             && NotClaimed(more, TargetRow(s, write.upsert))
    ensures var s := After(Initial, before, config);
            var found := s.finding[write.upsert].found;
            MayClaim(After(Next(s, write, config), more, config), TargetRow(s, write.upsert), now, config)
            <==> Waited(if found.None? || found.value.status == Sent then 0 else found.value.attemptCount,
                        config.backoff, write.now, now)
  {
    InvAlways(before, config);
    var s := After(Initial, before, config);
    var id, found := TargetRow(s, write.upsert), s.finding[write.upsert].found;
    QueuedRow(s, write, config);
    StepKeepsInv(s, write, config);
    PendingRowIsDue(Next(s, write, config), more, config, id, now);
    DueExactly(UpsertAttempts(found), config.backoff, write.now, now);
  }

  predicate IsLocked(row: Row, at: int) {
    row.status == Processing && row.lockedAt == Some(at) && row.nextRetryAt <= at
  }

  lemma ClaimedRow(s: System, start: Event, config: Config, id: nat)
    requires start.StartRun? && Enabled(s, start, config) && id in start.ids
    ensures var rows := Next(s, start, config).rows;
            id in rows && rows[id].key == s.rows[id].key && IsLocked(rows[id], start.now)
  {
  }

  /** A row claimed by a run that crashed, and so still in processing: exactly once it has been
      locked for longer than the limit, in seconds. */
  lemma CrashedRowIsDueExactly(before: seq<Event>, start: Event, more: seq<Event>, config: Config, id: nat, now: int)
    requires config.staleLockSeconds > 0 && start.StartRun? && id in start.ids
    requires Enabled(After(Initial, before, config), start, config)
    requires var s := Next(After(Initial, before, config), start, config);
             && id in s.rows && NoWriteTo(s, more, s.rows[id].key, config) && NotClaimed(more, id)
             && id in After(s, more, config).rows && After(s, more, config).rows[id].status == Processing
    ensures var s := Next(After(Initial, before, config), start, config);
            MayClaim(After(s, more, config), id, now, config) <==> now - start.now > 1000 * config.staleLockSeconds
  {
    InvAlways(before, config);
    ClaimedRow(After(Initial, before, config), start, config, id);
    StepKeepsInv(After(Initial, before, config), start, config);
    LockedRowIsDue(Next(After(Initial, before, config), start, config), start.now, more, config, id, now);
  }
}
