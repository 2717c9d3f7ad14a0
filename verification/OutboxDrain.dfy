/** Whole batches of the outbox worker, and how a backlog drains. */
module OutboxDrain {
  import opened Common
  import opened Leases
  import opened OutboxTable
  import OutboxRepository
  import BatchWorker

  /** The claim query, answered by picking the oldest free pending row again and again. */
  method SelectOldest(rows: Rows, locked: set<EventId>, count: nat) returns (ids: seq<EventId>)
    ensures IsSelection(rows, locked, count, ids)
  {
    ids := [];
    var free := PendingIds(rows) - locked;
    while |ids| < count && free != {}
      invariant Distinct(ids) && |ids| <= count && free <= PendingIds(rows) - locked
      invariant forall i :: 0 <= i < |ids| ==> ids[i] in PendingIds(rows) - locked && ids[i] !in free
      invariant forall i, j :: 0 <= i < j < |ids| ==> rows[ids[i]].createdAt <= rows[ids[j]].createdAt
      invariant forall i, id :: 0 <= i < |ids| && id in free ==> rows[ids[i]].createdAt <= rows[id].createdAt
      invariant forall id :: id in PendingIds(rows) - locked && id !in ids ==> id in free
      decreases |free|
    {
      var oldest := Oldest(rows, free);
      ids := ids + [oldest];
      free := free - {oldest};
    }
  }

  method Oldest(rows: Rows, candidates: set<EventId>) returns (id: EventId)
    requires candidates <= rows.Keys && candidates != {}
    ensures IsOldest(rows, candidates, id)
  {
    id :| id in candidates;
    var rest := candidates - {id};
    while rest != {}
      invariant rest <= candidates && id in candidates
      invariant forall other :: other in candidates && other !in rest ==> rows[id].createdAt <= rows[other].createdAt
      decreases |rest|
    {
      var other :| other in rest;
      if rows[other].createdAt < rows[id].createdAt {
        id := other;
      }
      rest := rest - {other};
    }
  }

  lemma {:induction false} ReportedMembers(events: seq<EventId>, accepted: seq<bool>, ok: bool, id: EventId)
    requires |events| == |accepted|
    ensures id in BatchWorker.Reported(events, accepted, ok)
       <==> exists i :: 0 <= i < |events| && events[i] == id && accepted[i] == ok
  {
    if events != [] {
      ReportedMembers(events[1..], accepted[1..], ok, id);
      if exists i :: 0 <= i < |events| && events[i] == id && accepted[i] == ok {
        var i :| 0 <= i < |events| && events[i] == id && accepted[i] == ok;
        if i > 0 {
          assert events[1..][i - 1] == id && accepted[1..][i - 1] == ok;
        }
      }
      if j :| 0 <= j < |events[1..]| && events[1..][j] == id && accepted[1..][j] == ok {
        assert events[j + 1] == id && accepted[j + 1] == ok;
      }
    }
  }

  /** The service publishes the event, and the broker refuses it; other events always succeed. */
  predicate PublishFails(payload: Payload, accepted: bool) {
    (payload.LoggedIn? || payload.RegisteredUser?) && !accepted
  }

  /**
   What a batch makes of a claimed row: processed, or pending again if its publish failed; a row whose mark statement
   fails keeps the lease of the claim.
   */
  ghost predicate IsSettled(was: Row, row: Row, fails: bool, processedMarkFails: bool, failedMarkFails: bool,
                            now: nat, lockTimeout: nat, later: nat) {
    && row.payload == was.payload && row.createdAt == was.createdAt
    && (!fails && !processedMarkFails ==>
          row.status == Processed && row.processedAt == Some(later) && row.lockedUntil == None)
    && (fails && !failedMarkFails ==>
          row.status == Pending && row.processedAt == was.processedAt && row.lockedUntil == None)
    && ((if fails then failedMarkFails else processedMarkFails) ==>
          && row.status == Processing && row.processedAt == was.processedAt
          && row.lockedUntil == Some(WholeSeconds(now) + WholeSeconds(lockTimeout)))
  }

  /**
   ProcessBatch end to end, for any schedule of its goroutines, any publish results and any failing
   mark statement: exactly the selected rows change, each according to its own publish result. A claim
   that fails changes nothing.
   */
  method ProcessBatch(repo: OutboxRepository.Repository, selected: seq<EventId>, ghost locked: set<EventId>,
                      batchSize: nat, lockTimeout: nat, concurrency: nat, now: nat, later: nat,
                      fault: OutboxRepository.ClaimFault, accepts: EventId -> bool, processedMarkFails: bool,
                      failedMarkFails: bool)
    requires IsSelection(repo.rows, locked, batchSize, selected) && concurrency >= 1
    modifies repo`rows
    ensures fault != OutboxRepository.NoFault ==> repo.rows == old(repo.rows)
    ensures repo.rows.Keys == old(repo.rows).Keys
    ensures forall id :: id in old(repo.rows) && id !in selected ==> repo.rows[id] == old(repo.rows)[id]
    ensures forall id :: fault == OutboxRepository.NoFault && id in old(repo.rows) && id in selected ==>
              var payload := old(repo.rows)[id].payload;
              IsSettled(old(repo.rows)[id], repo.rows[id],
                        (payload.LoggedIn? || payload.RegisteredUser?) && !accepts(id), processedMarkFails,
                        failedMarkFails, now, lockTimeout, later)
  {
    var before := repo.rows;
    ProcessSelected(repo, selected, locked, batchSize, lockTimeout, concurrency, now, later, fault, accepts,
                    processedMarkFails, failedMarkFails);
    if fault == OutboxRepository.NoFault {
      forall id | id in before && id in selected
        ensures IsSettled(before[id], repo.rows[id], PublishFails(before[id].payload, accepts(id)),
                          processedMarkFails, failedMarkFails, now, lockTimeout, later)
      {
        SettledMeans(before[id], repo.rows[id], accepts(id), processedMarkFails, failedMarkFails,
                     now, lockTimeout, later);
      }
    }
  }

  /** What becomes of a claimed row, by the statements of the repository. */
  function Settled(claimed: Row, ok: bool, processedMarkFails: bool, failedMarkFails: bool, later: nat): Row {
    if ok then (if processedMarkFails then claimed else Assign(claimed, ToProcessed(later)))
    else (if failedMarkFails then claimed else Assign(claimed, ToPending))
  }

  lemma SettledMeans(was: Row, row: Row, accepted: bool, processedMarkFails: bool, failedMarkFails: bool,
                     now: nat, lockTimeout: nat, later: nat)
    requires row == Settled(Assign(was, OutboxRepository.Lease(now, lockTimeout)),
                            OutboxRepository.ProcessEvent(was.payload, accepted),
                            processedMarkFails, failedMarkFails, later)
    ensures IsSettled(was, row, PublishFails(was.payload, accepted), processedMarkFails, failedMarkFails,
                      now, lockTimeout, later)
  {
  }

  /** The statements of ProcessBatch. */
  method ProcessSelected(repo: OutboxRepository.Repository, selected: seq<EventId>, ghost locked: set<EventId>,
                         batchSize: nat, lockTimeout: nat, concurrency: nat, now: nat, later: nat,
                         fault: OutboxRepository.ClaimFault, accepts: EventId -> bool, processedMarkFails: bool,
                         failedMarkFails: bool)
    requires IsSelection(repo.rows, locked, batchSize, selected) && concurrency >= 1
    modifies repo`rows
    ensures fault != OutboxRepository.NoFault ==> repo.rows == old(repo.rows)
    ensures repo.rows.Keys == old(repo.rows).Keys
    ensures forall id :: id in old(repo.rows) && id !in selected ==> repo.rows[id] == old(repo.rows)[id]
    ensures forall id :: fault == OutboxRepository.NoFault && id in old(repo.rows) && id in selected ==>
              repo.rows[id] == Settled(
                Assign(old(repo.rows)[id], OutboxRepository.Lease(now, lockTimeout)),
                OutboxRepository.ProcessEvent(old(repo.rows)[id].payload, accepts(id)),
                processedMarkFails, failedMarkFails, later)
  {
    var before := repo.rows;
    var claimed := repo.ClaimOutboxEvents(selected, locked, batchSize, lockTimeout, now, fault);
    if claimed.None? || claimed.value == [] {
      return;
    }
    var accepted := seq(|selected|, i requires 0 <= i < |selected| && selected[i] in before =>
      OutboxRepository.ProcessEvent(before[selected[i]].payload, accepts(selected[i])));
    var processed, failed, _ := BatchWorker.PublishAll(selected, accepted, concurrency);
    forall id | id in before
      ensures id in processed <==> id in selected && OutboxRepository.ProcessEvent(before[id].payload, accepts(id))
      ensures id in failed <==> id in selected && !OutboxRepository.ProcessEvent(before[id].payload, accepts(id))
    {
      ReportedMembers(selected, accepted, true, id);
      ReportedMembers(selected, accepted, false, id);
      assert id in processed <==> id in multiset(processed);
      assert id in failed <==> id in multiset(failed);
    }
    if !processedMarkFails {
      repo.MarkEventsProcessed(processed, later);
    }
    if !failedMarkFails {
      repo.MarkEventsFailed(failed);
    }
  }

  lemma {:induction false} DistinctSize(ids: seq<EventId>)
    requires Distinct(ids)
    ensures |Elements(ids)| == |ids|
  {
    if ids != [] {
      var init := ids[..|ids| - 1];
      DistinctSize(init);
      var last := ids[|ids| - 1];
      assert last !in Elements(init);
      assert Elements(ids) == Elements(init) + {last} by {
        forall id | id in Elements(init) ensures id in Elements(ids) {
          var i :| 0 <= i < |init| && init[i] == id;
          assert ids[i] == id;
        }
      }
    }
  }

  ghost predicate OldestFirst(rows: Rows, order: seq<EventId>) {
    && (forall i :: 0 <= i < |order| ==> order[i] in rows)
    && (forall i, j :: 0 <= i < j < |order| ==> rows[order[i]].createdAt <= rows[order[j]].createdAt)
  }

  /** Ceiling division, as used to predict the number of batches. */
  function BatchesFor(n: nat, batchSize: nat): nat
    requires batchSize >= 1
  {
    (n + batchSize - 1) / batchSize
  }

  lemma BatchesForUnique(n: nat, batchSize: nat, k: nat)
    requires batchSize >= 1
    requires n <= k * batchSize && (k > 0 ==> (k - 1) * batchSize < n)
    ensures k == BatchesFor(n, batchSize)
  {
    var d := n + batchSize - 1;
    var q, r := d / batchSize, d % batchSize;
    assert d == q * batchSize + r;
    if k > q {
      Scale(q, k - 1, batchSize);
    } else if k < q {
      Scale(k, q - 1, batchSize);
    }
  }

  /** After k batches `done` events are processed: every batch but possibly the last was full. */
  ghost predicate Pace(k: nat, batchSize: nat, done: nat, more: bool) {
    && done <= k * batchSize
    && (more ==> done == k * batchSize)
    && (k > 0 ==> (k - 1) * batchSize < done)
  }

  lemma PaceStep(k: nat, batchSize: nat, done: nat, selected: nat, more: bool)
    requires Pace(k, batchSize, done, true) && 1 <= selected <= batchSize && (more ==> selected == batchSize)
    ensures Pace(k + 1, batchSize, done + selected, more)
  {
    assert (k + 1) * batchSize == k * batchSize + batchSize;
  }

  lemma Scale(a: nat, b: nat, c: nat)
    requires a <= b
    ensures a * c <= b * c
  {
  }

  function ProcessedRow(r: Row, clock: nat): Row {
    r.(status := Processed, processedAt := Some(clock), lockedUntil := None)
  }

  /** The table `rows` is `start` with exactly the events of `order`, its oldest pending ones, processed. */
  ghost predicate DrainedTo(start: Rows, rows: Rows, order: seq<EventId>, clock: nat) {
    && rows.Keys == start.Keys
    && Distinct(order) && OldestFirst(start, order)
    && (forall i :: 0 <= i < |order| ==> order[i] in PendingIds(start))
    && (forall id :: id in start ==> rows[id] == if id in order then ProcessedRow(start[id], clock) else start[id])
    && (forall i, id :: 0 <= i < |order| && id in PendingIds(rows) ==> start[order[i]].createdAt <= start[id].createdAt)
  }

  /** One successful batch extends the drained prefix by its selection. */
  lemma BatchExtendsDrain(start: Rows, rows: Rows, rows': Rows, order: seq<EventId>, selected: seq<EventId>,
                          batchSize: nat, clock: nat)
    requires DrainedTo(start, rows, order, clock) && IsSelection(rows, {}, batchSize, selected)
    requires rows'.Keys == rows.Keys
    requires forall id :: id in rows ==>
               rows'[id] == if id in selected then ProcessedRow(rows[id], clock) else rows[id]
    ensures DrainedTo(start, rows', order + selected, clock)
    ensures PendingIds(rows') <= PendingIds(rows)
    ensures forall i :: 0 <= i < |selected| ==> selected[i] in PendingIds(rows) && selected[i] !in PendingIds(rows')
    ensures PendingIds(rows') != {} ==> |selected| == batchSize
    ensures selected != [] ==> |PendingIds(rows')| < |PendingIds(rows)|
  {
    var all := order + selected;
    forall i | 0 <= i < |selected| ensures selected[i] in PendingIds(start) && selected[i] !in order {
      assert selected[i] in PendingIds(rows) - {};
    }
    forall id | id in PendingIds(rows') ensures id in PendingIds(rows) && id !in selected {}
    forall id | id in PendingIds(rows')
      ensures |selected| == batchSize
      ensures forall i :: 0 <= i < |selected| ==> start[selected[i]].createdAt <= start[id].createdAt
    {
      assert id in PendingIds(rows) - {};
    }
    if selected != [] {
      SubsetSize(PendingIds(rows'), PendingIds(rows) - {selected[0]});
    }
  }

  lemma BacklogIsSelected(rows: Rows, batchSize: nat, selected: seq<EventId>)
    requires IsSelection(rows, {}, batchSize, selected) && batchSize >= 1 && PendingIds(rows) != {}
    ensures selected != []
  {
    var id :| id in PendingIds(rows);
    assert id in PendingIds(rows) - {};
  }

  lemma DrainIsComplete(start: Rows, rows: Rows, order: seq<EventId>, clock: nat)
    requires DrainedTo(start, rows, order, clock) && PendingIds(rows) == {}
    ensures Elements(order) == PendingIds(start) && |order| == |PendingIds(start)|
  {
    DistinctSize(order);
    forall id | id in PendingIds(start) ensures id in Elements(order) {
      assert id !in PendingIds(rows);
    }
  }

  /**
   When every publish and mark succeeds and nothing else runs, a backlog of n pending events drains
   oldest first in exactly BatchesFor(n, batchSize) batches.
   */
  method Drain(repo: OutboxRepository.Repository, batchSize: nat, lockTimeout: nat, concurrency: nat, clock: nat)
    returns (batches: nat, order: seq<EventId>)
    requires batchSize >= 1 && concurrency >= 1
    modifies repo`rows
    ensures batches == BatchesFor(|PendingIds(old(repo.rows))|, batchSize)
    ensures Distinct(order) && Elements(order) == PendingIds(old(repo.rows)) && OldestFirst(old(repo.rows), order)
    ensures repo.rows.Keys == old(repo.rows).Keys
    ensures forall id :: id in repo.rows ==>
              repo.rows[id] == if id in order
                               then ProcessedRow(old(repo.rows)[id], clock)
                               else old(repo.rows)[id]
  {
    ghost var start := repo.rows;
    batches, order := 0, [];
    while PendingIds(repo.rows) != {}
      invariant DrainedTo(start, repo.rows, order, clock)
      invariant Pace(batches, batchSize, |order|, PendingIds(repo.rows) != {})
      decreases |PendingIds(repo.rows)|
    {
      ghost var rows := repo.rows;
      var selected := SelectOldest(repo.rows, {}, batchSize);
      BacklogIsSelected(repo.rows, batchSize, selected);
      ProcessBatch(repo, selected, {}, batchSize, lockTimeout, concurrency, clock, clock, OutboxRepository.NoFault,
                   _ => true, false, false);
      BatchExtendsDrain(start, rows, repo.rows, order, selected, batchSize, clock);
      PaceStep(batches, batchSize, |order|, |selected|, PendingIds(repo.rows) != {});
      order := order + selected;
      batches := batches + 1;
    }
    DrainIsComplete(start, repo.rows, order, clock);
    BatchesForUnique(|PendingIds(start)|, batchSize, batches);
  }
}
