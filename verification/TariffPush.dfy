/**
 The paging loop that pushes our tariffs to a partner (TariffsService.pushTariffsToPartner),
 over a table that stays as it is while the push runs.
 */
module TariffPush {
  /** A row to push and how its push will end. */
  datatype Push = Accepted | IssuerNotFound | Fails
  datatype Tariff = Tariff(id: nat, push: Push)

  /** One page of the table. */
  function Page(rows: seq<Tariff>, limit: nat, offset: nat): seq<Tariff> {
    if offset >= |rows| then [] else if offset + limit >= |rows| then rows[offset..] else rows[offset..offset + limit]
  }

  function Ending(rows: seq<Tariff>, push: Push): nat {
    if rows == [] then 0 else Ending(rows[..|rows| - 1], push) + if rows[|rows| - 1].push == push then 1 else 0
  }

  lemma EndingNext(rows: seq<Tariff>, t: Tariff, push: Push)
    ensures Ending(rows + [t], push) == Ending(rows, push) + if t.push == push then 1 else 0
  {
    assert (rows + [t])[..|rows|] == rows;
  }

  lemma {:induction false} EndingsAddUp(rows: seq<Tariff>)
    ensures Ending(rows, Accepted) + Ending(rows, IssuerNotFound) + Ending(rows, Fails) == |rows|
  {
    if rows != [] {
      EndingsAddUp(rows[..|rows| - 1]);
    }
  }

  /** The push of one page: every row in order, whatever became of those before. */
  method PushPage(batch: seq<Tariff>) returns (pushed: seq<Tariff>, succeeded: nat, failed: nat, skipped: nat)
    ensures pushed == batch
    ensures Tallied(batch, succeeded, failed, skipped)
  {
    pushed, succeeded, failed, skipped := [], 0, 0, 0;
    for i := 0 to |batch|
      invariant pushed == batch[..i]
      invariant succeeded == Ending(batch[..i], Accepted) && failed == Ending(batch[..i], Fails)
      invariant skipped == Ending(batch[..i], IssuerNotFound)
    {
      assert batch[..i + 1] == batch[..i] + [batch[i]];
      EndingNext(batch[..i], batch[i], Accepted);
      EndingNext(batch[..i], batch[i], IssuerNotFound);
      EndingNext(batch[..i], batch[i], Fails);
      pushed := pushed + [batch[i]];
      match batch[i].push {
        case Accepted => succeeded := succeeded + 1;
        case IssuerNotFound => skipped := skipped + 1;
        case Fails => failed := failed + 1;
      }
    }
    assert batch[..|batch|] == batch;
  }

  lemma {:induction false} EndingAppend(rows: seq<Tariff>, more: seq<Tariff>, push: Push)
    ensures Ending(rows + more, push) == Ending(rows, push) + Ending(more, push)
  {
    if more == [] {
      assert rows + more == rows;
    } else {
      assert (rows + more)[..|rows + more| - 1] == rows + more[..|more| - 1];
      EndingAppend(rows, more[..|more| - 1], push);
    }
  }

  /** The counters of a push say how each row pushed so far has ended. */
  predicate Tallied(pushed: seq<Tariff>, succeeded: nat, failed: nat, skipped: nat) {
    && succeeded == Ending(pushed, Accepted)
    && skipped == Ending(pushed, IssuerNotFound)
    && failed == Ending(pushed, Fails)
  }

  lemma TallyAppend(pushed: seq<Tariff>, batch: seq<Tariff>, succeeded: nat, failed: nat, skipped: nat)
    requires Tallied(pushed, succeeded, failed, skipped)
    ensures Tallied(pushed + batch, succeeded + Ending(batch, Accepted), failed + Ending(batch, Fails),
                    skipped + Ending(batch, IssuerNotFound))
  {
    EndingAppend(pushed, batch, Accepted);
    EndingAppend(pushed, batch, IssuerNotFound);
    EndingAppend(pushed, batch, Fails);
  }

  function From(rows: seq<Tariff>, offset: nat): seq<Tariff> {
    if offset <= |rows| then rows[offset..] else []
  }

  /** A page is what comes next, and it is short only if nothing follows it. */
  lemma PageIsNext(rows: seq<Tariff>, limit: nat, offset: nat)
    requires limit >= 1
    ensures From(rows, offset) == Page(rows, limit, offset) + From(rows, offset + |Page(rows, limit, offset)|)
    ensures |Page(rows, limit, offset)| < limit ==> From(rows, offset + |Page(rows, limit, offset)|) == []
    ensures Page(rows, limit, offset) == [] <==> offset >= |rows|
    ensures |Page(rows, limit, offset)| <= limit
  {
  }

  /** What is pushed and what is left make up the whole. */
  predicate Remaining(rows: seq<Tariff>, offset: nat, pushed: seq<Tariff>, currentOffset: nat) {
    pushed + From(rows, currentOffset) == From(rows, offset)
  }

  lemma PushedAndPage(rows: seq<Tariff>, limit: nat, offset: nat, pushed: seq<Tariff>, currentOffset: nat, next: nat,
                      batch: seq<Tariff>)
    requires limit >= 1 && Remaining(rows, offset, pushed, currentOffset)
    requires batch == Page(rows, limit, currentOffset) && next == currentOffset + |batch|
    ensures Remaining(rows, offset, pushed + batch, next)
    ensures |batch| < limit ==> pushed + batch == From(rows, offset)
    ensures |batch| <= limit && (batch == [] <==> currentOffset >= |rows|)
  {
    PageIsNext(rows, limit, currentOffset);
    assert pushed + (batch + From(rows, next)) == (pushed + batch) + From(rows, next);
    assert pushed + batch + [] == pushed + batch;
  }

  /** The whole push ends, with each row from the offset on pushed once and in order, and with
      counters that say what became of them and add up. */
  method PushTariffsToPartner(rows: seq<Tariff>, limit: nat, offset: nat)
    returns (pushed: seq<Tariff>, processed: nat, succeeded: nat, failed: nat, skipped: nat)
    requires limit >= 1
    ensures pushed == From(rows, offset)
    ensures processed == |pushed| == succeeded + failed + skipped
    ensures Tallied(pushed, succeeded, failed, skipped)
  {
    pushed, processed, succeeded, failed, skipped := [], 0, 0, 0, 0;
    var currentOffset: nat := offset;
    var hasMore := true;
    while hasMore
      invariant Remaining(rows, offset, pushed, currentOffset)
      invariant !hasMore ==> pushed == From(rows, offset)
      invariant processed == |pushed| && Tallied(pushed, succeeded, failed, skipped)
      decreases hasMore, |rows| - currentOffset
    {
      var batch := Page(rows, limit, currentOffset);
      PushedAndPage(rows, limit, offset, pushed, currentOffset, currentOffset + |batch|, batch);
      if batch == [] {
        assert pushed + batch == pushed;
        break;
      }
      var done, s, f, k := PushPage(batch);
      TallyAppend(pushed, batch, succeeded, failed, skipped);
      assert pushed + done == pushed + batch;
      pushed := pushed + done;
      processed, succeeded, failed, skipped := processed + |batch|, succeeded + s, failed + f, skipped + k;
      currentOffset := currentOffset + |batch|;
      hasMore := |batch| == limit;
    }
    EndingsAddUp(pushed);
  }
}
