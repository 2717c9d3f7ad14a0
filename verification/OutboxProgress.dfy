/**
 From every reachable outbox state some finite continuation processes every event. The continuations consist of
 what the batch worker and the recoverer do, for any configured lock timeout and batch size: time passes, expired
 leases are recovered, and batches are claimed, published and marked.
 */
module OutboxProgress {
  import opened Common
  import opened Leases
  import opened OutboxTable
  import opened SqlOutbox
  import A = AtomicOutbox

  /** The configuration of the batch worker. */
  datatype Settings = Settings(lockTimeout: nat, batchSize: nat)

  /** A step of the background actors: no event is added, and claims are batches as configured. */
  predicate Background(w: Settings, a: Action) {
    !a.Insert? && !a.ClaimSingle? && (a.SelectForUpdate? ==> a.lockTimeout == w.lockTimeout && a.count == w.batchSize)
  }

  ghost predicate BackgroundRun(w: Settings, run: seq<Action>) {
    forall i :: 0 <= i < |run| ==> Background(w, run[i])
  }

  /** s' can be reached from s by the background actors alone, every mark being timely. */
  ghost predicate Reaches(w: Settings, s: State, s': State) {
    exists run :: BackgroundRun(w, run) && Valid(s, run) && Timely(s, run) && Exec(s, run) == s'
  }

  lemma {:induction false} RunsCompose(s: State, run: seq<Action>, more: seq<Action>)
    requires Valid(s, run) && Timely(s, run)
    requires Valid(Exec(s, run), more) && Timely(Exec(s, run), more)
    ensures Valid(s, run + more) && Timely(s, run + more) && Exec(s, run + more) == Exec(Exec(s, run), more)
    decreases |run|
  {
    if run == [] {
      assert run + more == more;
    } else {
      RunsCompose(Apply(s, run[0]), run[1..], more);
      assert (run + more)[1..] == run[1..] + more;
    }
  }

  lemma ReachesTrans(w: Settings, s: State, s': State, s'': State)
    requires Reaches(w, s, s') && Reaches(w, s', s'')
    ensures Reaches(w, s, s'')
  {
    var run :| BackgroundRun(w, run) && Valid(s, run) && Timely(s, run) && Exec(s, run) == s';
    var more :| BackgroundRun(w, more) && Valid(s', more) && Timely(s', more) && Exec(s', more) == s'';
    RunsCompose(s, run, more);
    assert BackgroundRun(w, run + more);
  }

  lemma ReachesSelf(w: Settings, s: State)
    ensures Reaches(w, s, s)
  {
    assert BackgroundRun(w, []) && Valid(s, []) && Timely(s, []) && Exec(s, []) == s;
  }

  lemma ReachesStep(w: Settings, s: State, a: Action)
    requires Consistent(s) && Enabled(s, a) && TimelyStep(s, a) && Background(w, a)
    ensures Reaches(w, s, Apply(s, a)) && Consistent(Apply(s, a))
  {
    var s' := Apply(s, a);
    assert [a][1..] == [];
    assert Valid(s', []) && Timely(s', []) && Exec(s', []) == s';
    assert BackgroundRun(w, [a]) && Valid(s, [a]) && Timely(s, [a]) && Exec(s, [a]) == s';
    StepKeepsConsistent(s, a);
  }

  /** Every open batch transaction can be rolled back. */
  lemma {:induction false} CanRollBackBatches(w: Settings, s: State) returns (s': State)
    requires Consistent(s)
    ensures Reaches(w, s, s') && Consistent(s') && s' == s.(batches := map[])
    decreases |s.batches|
  {
    if s.batches == map[] {
      s' := s;
      ReachesSelf(w, s);
    } else {
      var tx :| tx in s.batches;
      ReachesStep(w, s, Rollback(tx));
      var mid := Apply(s, Rollback(tx));
      assert mid.batches.Keys == s.batches.Keys - {tx};
      s' := CanRollBackBatches(w, mid);
      ReachesTrans(w, s, mid, s');
    }
  }

  lemma {:induction false} LeaseBound(rows: Rows, ids: set<EventId>) returns (bound: nat)
    requires ids <= rows.Keys
    ensures forall id :: id in ids && rows[id].lockedUntil.Some? ==> rows[id].lockedUntil.value <= bound
  {
    if ids == {} {
      bound := 0;
    } else {
      var id :| id in ids;
      var rest := LeaseBound(rows, ids - {id});
      bound := if rows[id].lockedUntil.Some? then Max(rest, rows[id].lockedUntil.value) else rest;
    }
  }

  /** The claims of s are still there; only their hold may have been taken back. */
  ghost predicate KeepsClaims(s: State, s': State) {
    && |s.claims| <= |s'.claims|
    && (forall c :: 0 <= c < |s.claims| ==> s'.claims[c].(hold := s.claims[c].hold) == s.claims[c])
  }

  /** The state after waiting and one recovery. */
  ghost function Recovered(s: State, nanos: nat): State {
    var stale := StaleIds(s.rows, s.now + nanos);
    s.(now := s.now + nanos, rows := Update(s.rows, stale, ToPending), claims := A.RecoverClaims(s.claims, stale))
  }

  lemma CanRecover(w: Settings, s: State, nanos: nat)
    requires Consistent(s) && s.batches == map[]
    ensures Reaches(w, s, Recovered(s, nanos)) && Consistent(Recovered(s, nanos)) && KeepsClaims(s, Recovered(s, nanos))
  {
    ReachesStep(w, s, Tick(nanos));
    var later := Apply(s, Tick(nanos));
    ReachesStep(w, later, Recover(later.now));
    ReachesTrans(w, s, later, Apply(later, Recover(later.now)));
    assert Apply(later, Recover(later.now)) == Recovered(s, nanos);
  }

  /** Once time has passed every lease, one recovery leaves no row in 'processing'. */
  lemma CanRecoverLeases(w: Settings, s: State) returns (s': State)
    requires Consistent(s) && s.batches == map[]
    ensures Reaches(w, s, s') && Consistent(s') && s'.batches == map[]
    ensures s'.rows.Keys == s.rows.Keys && KeepsClaims(s, s')
    ensures forall id :: id in s'.rows ==> s'.rows[id].status != Processing
    ensures forall id :: id in s'.rows && s'.rows[id].status == Processed ==> s.rows[id].status == Processed
  {
    var bound := LeaseBound(s.rows, s.rows.Keys);
    s' := Recovered(s, (bound + 1) * SECOND);
    CanRecover(w, s, (bound + 1) * SECOND);
    assert WholeSeconds(s'.now) >= bound + 1;
    assert LeaseMatchesStatus(s.rows);
  }

  // ----- Batches -----

  /** SELECT, UPDATE and COMMIT of one batch. */
  lemma CanClaimBatch(w: Settings, s: State, ids: seq<EventId>) returns (s': State)
    requires Consistent(s) && s.batches == map[] && ids != [] && IsSelection(s.rows, {}, w.batchSize, ids)
    ensures Reaches(w, s, s') && Consistent(s')
    ensures var lease := WholeSeconds(w.lockTimeout);
            s' == s.(rows := Update(s.rows, Elements(ids), ToProcessing(LockedUntil(s.now, lease))),
                     claims := s.claims + A.NewClaims(ids, s.now, lease))
  {
    assert LockedIds(s) == {};
    var select := SelectForUpdate(0, w.batchSize, w.lockTimeout, ids);
    ReachesStep(w, s, select);
    var s1 := Apply(s, select);
    ReachesStep(w, s1, UpdateSelected(0));
    var s2 := Apply(s1, UpdateSelected(0));
    ReachesTrans(w, s, s1, s2);
    ReachesStep(w, s2, Commit(0));
    s' := Apply(s2, Commit(0));
    ReachesTrans(w, s, s2, s');
    assert s'.batches == map[];
  }

  /** The claims from `from` on with their publish result. */
  function PublishedFrom(claims: seq<A.Claim>, from: nat, ok: bool): seq<A.Claim> {
    seq(|claims|, c requires 0 <= c < |claims| =>
      if c < from then claims[c] else claims[c].(result := if ok then A.Succeeded else A.Failed))
  }

  /** The publishes of a batch return, all with the same result. */
  lemma {:induction false} CanPublishFrom(w: Settings, s: State, from: nat, ok: bool) returns (s': State)
    requires Consistent(s) && from <= |s.claims|
    requires forall c :: from <= c < |s.claims| ==> s.claims[c].alive && s.claims[c].result == A.NotYet
    ensures Reaches(w, s, s') && Consistent(s') && s' == s.(claims := PublishedFrom(s.claims, from, ok))
    decreases |s.claims| - from
  {
    if from == |s.claims| {
      s' := s;
      ReachesSelf(w, s);
      assert PublishedFrom(s.claims, from, ok) == s.claims;
    } else {
      ReachesStep(w, s, Publish(from, ok));
      var mid := Apply(s, Publish(from, ok));
      s' := CanPublishFrom(w, mid, from + 1, ok);
      ReachesTrans(w, s, mid, s');
      assert PublishedFrom(mid.claims, from + 1, ok) == PublishedFrom(s.claims, from, ok);
    }
  }

  predicate AtLeast(c: nat, from: nat) {
    from <= c
  }

  function ClaimsFrom(claims: seq<A.Claim>, from: nat): set<nat> {
    set c | 0 <= c < |claims| && AtLeast(c, from)
  }

  /** One UPDATE marks a whole batch that was claimed just now. */
  lemma CanMarkFrom(w: Settings, s: State, from: nat) returns (s': State)
    requires Consistent(s) && s.batches == map[] && from <= |s.claims|
    requires forall c :: from <= c < |s.claims| ==>
               s.claims[c].alive && s.claims[c].result == A.Succeeded && s.claims[c].at == s.now
    ensures Reaches(w, s, s') && Consistent(s')
    ensures s' == s.(rows := Update(s.rows, A.EventsOf(s.claims, ClaimsFrom(s.claims, from)), ToProcessed(s.now)),
                     claims := A.EndClaims(s.claims, ClaimsFrom(s.claims, from)))
  {
    var mark := MarkProcessed(ClaimsFrom(s.claims, from));
    ReachesStep(w, s, mark);
    s' := Apply(s, mark);
  }

  /** The event has a claim, not older than `from`, whose publish succeeded. */
  ghost predicate NewSuccess(s: State, from: nat, id: EventId) {
    exists c :: from <= c < |s.claims| && s.claims[c].event == id && s.claims[c].result == A.Succeeded
  }

  /** s' is reached by whole batches: some pending events were published and processed, nothing else changed. */
  ghost predicate Advances(w: Settings, s: State, s': State) {
    && Reaches(w, s, s') && Consistent(s') && s'.batches == map[]
    && s'.rows.Keys == s.rows.Keys && KeepsClaims(s, s')
    && (forall id :: id in s.rows && s'.rows[id].status != s.rows[id].status ==>
          s.rows[id].status == Pending && s'.rows[id].status == Processed && NewSuccess(s', |s.claims|, id))
  }

  lemma AdvancesSelf(w: Settings, s: State)
    requires Consistent(s) && s.batches == map[]
    ensures Advances(w, s, s)
  {
    ReachesSelf(w, s);
  }

  lemma SuccessStays(s: State, s': State, s'': State, id: EventId)
    requires KeepsClaims(s, s') && KeepsClaims(s', s'')
    requires NewSuccess(s', |s.claims|, id) || NewSuccess(s'', |s'.claims|, id)
    ensures NewSuccess(s'', |s.claims|, id)
  {
    if NewSuccess(s', |s.claims|, id) {
      var c :| |s.claims| <= c < |s'.claims| && s'.claims[c].event == id && s'.claims[c].result == A.Succeeded;
      assert s''.claims[c].event == id && s''.claims[c].result == A.Succeeded;
    }
  }

  lemma KeepsClaimsTrans(s: State, s': State, s'': State)
    requires KeepsClaims(s, s') && KeepsClaims(s', s'')
    ensures KeepsClaims(s, s'')
  {
    forall c | 0 <= c < |s.claims| ensures s''.claims[c].(hold := s.claims[c].hold) == s.claims[c] {
      assert s'.claims[c].(hold := s.claims[c].hold) == s.claims[c];
      assert s''.claims[c].(hold := s'.claims[c].hold) == s'.claims[c];
    }
  }

  lemma AdvancesTrans(w: Settings, s: State, s': State, s'': State)
    requires Advances(w, s, s') && Advances(w, s', s'')
    ensures Advances(w, s, s'')
  {
    ReachesTrans(w, s, s', s'');
    KeepsClaimsTrans(s, s', s'');
    forall id | id in s.rows && s''.rows[id].status != s.rows[id].status
      ensures s.rows[id].status == Pending && s''.rows[id].status == Processed && NewSuccess(s'', |s.claims|, id)
    {
      SuccessStays(s, s', s'', id);
    }
  }

  /** Every claim of a batch is on one of its events, and every event has one. */
  lemma ClaimsOfBatch(claims: seq<A.Claim>, ids: seq<EventId>, at: nat, lease: nat)
    ensures var all := PublishedFrom(claims + A.NewClaims(ids, at, lease), |claims|, true);
            && |all| == |claims| + |ids|
            && A.EventsOf(all, ClaimsFrom(all, |claims|)) == Elements(ids)
            && (forall id :: id in Elements(ids) ==>
                  exists c :: |claims| <= c < |all| && all[c].event == id && all[c].result == A.Succeeded)
  {
    var all := PublishedFrom(claims + A.NewClaims(ids, at, lease), |claims|, true);
    forall i | 0 <= i < |ids| ensures all[|claims| + i].event == ids[i] && all[|claims| + i].result == A.Succeeded {}
    forall id | id in Elements(ids)
      ensures exists c :: |claims| <= c < |all| && all[c].event == id && all[c].result == A.Succeeded
    {
      var i :| 0 <= i < |ids| && ids[i] == id;
      assert all[|claims| + i].event == id && |claims| + i in ClaimsFrom(all, |claims|);
    }
    forall c | |claims| <= c < |all| ensures all[c].event in Elements(ids) {
      assert all[c].event == ids[c - |claims|];
    }
  }

  /** The batch `ids` of s has been claimed and published; nothing else has happened. */
  ghost predicate BatchPublished(s: State, ids: seq<EventId>, s': State) {
    && Elements(ids) <= PendingIds(s.rows) && s'.rows.Keys == s.rows.Keys
    && (forall id :: id in s.rows && id !in Elements(ids) ==> s'.rows[id] == s.rows[id])
    && |s.claims| <= |s'.claims| && (forall c :: 0 <= c < |s.claims| ==> s'.claims[c] == s.claims[c])
    && A.EventsOf(s'.claims, ClaimsFrom(s'.claims, |s.claims|)) == Elements(ids)
    && (forall id :: id in Elements(ids) ==> NewSuccess(s', |s.claims|, id))
  }

  /** The state after a batch of s was claimed and its publishes returned. */
  function Tried(w: Settings, s: State, ids: seq<EventId>, ok: bool): State {
    var lease := WholeSeconds(w.lockTimeout);
    s.(rows := Update(s.rows, Elements(ids), ToProcessing(LockedUntil(s.now, lease))),
       claims := PublishedFrom(s.claims + A.NewClaims(ids, s.now, lease), |s.claims|, ok))
  }

  lemma CanTryBatch(w: Settings, s: State, ids: seq<EventId>, ok: bool)
    requires Consistent(s) && s.batches == map[] && ids != [] && IsSelection(s.rows, {}, w.batchSize, ids)
    ensures Reaches(w, s, Tried(w, s, ids, ok)) && Consistent(Tried(w, s, ids, ok))
  {
    var s1 := CanClaimBatch(w, s, ids);
    var s2 := CanPublishFrom(w, s1, |s.claims|, ok);
    ReachesTrans(w, s, s1, s2);
  }

  /** What a batch whose publishes succeeded looks like. */
  lemma TriedBatch(w: Settings, s: State, ids: seq<EventId>, s': State)
    requires IsSelection(s.rows, {}, w.batchSize, ids) && s' == Tried(w, s, ids, true)
    ensures BatchPublished(s, ids, s')
    ensures forall c :: |s.claims| <= c < |s'.claims| ==>
              s'.claims[c].alive && s'.claims[c].result == A.Succeeded && s'.claims[c].at == s'.now
  {
    ClaimsOfBatch(s.claims, ids, s.now, WholeSeconds(w.lockTimeout));
    forall id | id in Elements(ids) ensures id in PendingIds(s.rows) {
      var i :| 0 <= i < |ids| && ids[i] == id;
      assert ids[i] in PendingIds(s.rows) - {};
    }
  }

  /** What a batch whose publishes failed looks like. */
  lemma FailedBatch(w: Settings, s: State, ids: seq<EventId>, s': State, i: nat)
    requires i < |ids| && IsSelection(s.rows, {}, w.batchSize, ids) && s' == Tried(w, s, ids, false)
    ensures ids[i] in s'.rows && s'.rows[ids[i]].status == Processing
    ensures s'.rows[ids[i]].lockedUntil == Some(LockedUntil(s'.now, WholeSeconds(w.lockTimeout)))
    ensures A.CanMark(Abs(s'), ClaimsFrom(s'.claims, |s.claims|), A.Failed)
    ensures |s.claims| + i in ClaimsFrom(s'.claims, |s.claims|) && s'.claims[|s.claims| + i].event == ids[i]
  {
    assert ids[i] in Elements(ids) && ids[i] in PendingIds(s.rows) - {};
  }

  /** Claim, publish and mark one batch. */
  lemma CanProcessBatch(w: Settings, s: State, ids: seq<EventId>) returns (s': State)
    requires Consistent(s) && s.batches == map[] && ids != [] && IsSelection(s.rows, {}, w.batchSize, ids)
    ensures Advances(w, s, s')
    ensures forall id :: id in s.rows && id !in Elements(ids) ==> s'.rows[id] == s.rows[id]
    ensures forall id :: id in Elements(ids) ==> id in s.rows && s'.rows[id].status == Processed
  {
    var s1 := Tried(w, s, ids, true);
    CanTryBatch(w, s, ids, true);
    TriedBatch(w, s, ids, s1);
    s' := CanMarkFrom(w, s1, |s.claims|);
    ReachesTrans(w, s, s1, s');
    MarkedBatch(s, ids, s1, s');
  }

  /** What marking a published batch amounts to. */
  lemma MarkedBatch(s: State, ids: seq<EventId>, s1: State, s': State)
    requires BatchPublished(s, ids, s1)
    requires s' == s1.(rows := Update(s1.rows, Elements(ids), ToProcessed(s1.now)),
                       claims := A.EndClaims(s1.claims, ClaimsFrom(s1.claims, |s.claims|)))
    ensures s'.rows.Keys == s.rows.Keys && KeepsClaims(s, s')
    ensures forall id :: id in s.rows && id !in Elements(ids) ==> s'.rows[id] == s.rows[id]
    ensures forall id :: id in Elements(ids) ==> id in s.rows && s.rows[id].status == Pending
                                                 && s'.rows[id].status == Processed && NewSuccess(s', |s.claims|, id)
  {
    forall id | id in Elements(ids) ensures NewSuccess(s', |s.claims|, id) {
      var c :| |s.claims| <= c < |s1.claims| && s1.claims[c].event == id && s1.claims[c].result == A.Succeeded;
      assert s'.claims[c].event == id && s'.claims[c].result == A.Succeeded;
    }
  }

  /** Batches can be processed until the given pending event is the next batch's turn. */
  lemma {:induction false} CanReachSelection(w: Settings, s: State, id: EventId)
    returns (s': State, ids: seq<EventId>)
    requires Consistent(s) && s.batches == map[] && id in PendingIds(s.rows) && w.batchSize >= 1
    ensures Advances(w, s, s') && id in PendingIds(s'.rows) && IsSelection(s'.rows, {}, w.batchSize, ids) && id in ids
    decreases |PendingIds(s.rows)|
  {
    ids := SelectionExists(s.rows, {}, w.batchSize);
    if id in ids {
      s' := s;
      AdvancesSelf(w, s);
    } else {
      assert id in PendingIds(s.rows) - {};
      var mid := CanProcessBatch(w, s, ids);
      assert id !in Elements(ids) && ids[0] in Elements(ids);
      SubsetSize(PendingIds(mid.rows), PendingIds(s.rows) - {ids[0]});
      s', ids := CanReachSelection(w, mid, id);
      AdvancesTrans(w, s, mid, s');
    }
  }

  /** Any pending event can be processed by batches. */
  lemma CanProcessOne(w: Settings, s: State, id: EventId) returns (s': State)
    requires Consistent(s) && s.batches == map[] && id in PendingIds(s.rows) && w.batchSize >= 1
    ensures Advances(w, s, s') && s'.rows[id].status == Processed
  {
    var mid, ids := CanReachSelection(w, s, id);
    s' := CanProcessBatch(w, mid, ids);
    AdvancesTrans(w, s, mid, s');
  }

  lemma BacklogShrinks(rows: Rows, rows': Rows, id: EventId)
    requires rows'.Keys == rows.Keys && id in UnprocessedIds(rows) && rows'[id].status == Processed
    requires forall x :: x in rows && rows'[x].status != rows[x].status ==> rows'[x].status == Processed
    requires forall x :: x in rows ==> rows[x].status != Processing
    ensures |UnprocessedIds(rows')| < |UnprocessedIds(rows)|
    ensures forall x :: x in rows' ==> rows'[x].status != Processing
  {
    SubsetSize(UnprocessedIds(rows'), UnprocessedIds(rows) - {id});
  }

  lemma {:induction false} CanProcessPending(w: Settings, s: State) returns (s': State)
    requires Consistent(s) && s.batches == map[] && w.batchSize >= 1
    requires forall id :: id in s.rows ==> s.rows[id].status != Processing
    ensures Advances(w, s, s') && UnprocessedIds(s'.rows) == {}
    decreases |UnprocessedIds(s.rows)|
  {
    if UnprocessedIds(s.rows) == {} {
      s' := s;
      AdvancesSelf(w, s);
    } else {
      var id :| id in UnprocessedIds(s.rows);
      var mid := CanProcessOne(w, s, id);
      BacklogShrinks(s.rows, mid.rows, id);
      s' := CanProcessPending(w, mid);
      AdvancesTrans(w, s, mid, s');
    }
  }

  /** From any consistent state the outbox can finish, publishing every unprocessed event anew. */
  lemma CanFinish(w: Settings, s: State) returns (s': State)
    requires Consistent(s) && w.batchSize >= 1
    ensures Reaches(w, s, s') && Consistent(s') && s'.rows.Keys == s.rows.Keys && UnprocessedIds(s'.rows) == {}
    ensures forall id :: id in UnprocessedIds(s.rows) ==> NewSuccess(s', |s.claims|, id)
  {
    var s1 := CanRollBackBatches(w, s);
    var s2 := CanRecoverLeases(w, s1);
    ReachesTrans(w, s, s1, s2);
    s' := CanProcessPending(w, s2);
    ReachesTrans(w, s, s2, s');
    forall id | id in UnprocessedIds(s.rows) ensures NewSuccess(s', |s.claims|, id) {
      assert id !in UnprocessedIds(s'.rows);
      SuccessStays(s, s2, s', id);
    }
  }

  /**
   No reachable state is a dead end: whatever the lock timeout and the batch size, one continuation, itself
   timely, processes every event.
   */
  lemma EveryStateCanFinish(w: Settings, run: seq<Action>) returns (s': State)
    requires Valid(EMPTY, run) && w.batchSize >= 1
    ensures Reaches(w, Exec(EMPTY, run), s')
    ensures s'.rows.Keys == Exec(EMPTY, run).rows.Keys && UnprocessedIds(s'.rows) == {}
  {
    EveryRunIsSafe(run, []);
    s' := CanFinish(w, Exec(EMPTY, run));
  }

  // ----- Expired leases -----

  /** In a timely run, a recovery ends every hold whose deadline is a second past. */
  lemma RecoveryEndsExpiredHolds(run: seq<Action>, at: nat, c: nat)
    requires Valid(EMPTY, run) && Timely(EMPTY, run) && Enabled(Exec(EMPTY, run), Recover(at))
    requires c < |Exec(EMPTY, run).claims|
    ensures var s, s' := Exec(EMPTY, run), Apply(Exec(EMPTY, run), Recover(at));
            var claim := s.claims[c];
            Deadline(claim.at, claim.lease) + SECOND <= at ==>
              && s'.claims[c].hold != A.Holding
              && (claim.hold == A.Holding ==> claim.event in s'.rows && s'.rows[claim.event].status == Pending)
  {
    RunRefines(EMPTY, run);
    A.RunKeepsTimelyInv(Abs(EMPTY), AbsRun(EMPTY, run));
    var s := Exec(EMPTY, run);
    var claim := s.claims[c];
    assert A.ClaimOk(Abs(s), c);
    if Deadline(claim.at, claim.lease) + SECOND <= at {
      AlwaysRecoverableAfterOneMoreSecond(claim.at, claim.lease, at);
    }
  }

  /**
   An abandoned claim is pending again by the first recovery tick one second past its deadline, which comes
   within one interval of that instant.
   */
  lemma AbandonedClaimIsRecovered(run: seq<Action>, c: nat, start: nat, interval: nat, tick: nat)
    requires Valid(EMPTY, run) && Timely(EMPTY, run) && c < |Exec(EMPTY, run).claims| && interval > 0
    requires var claim := Exec(EMPTY, run).claims[c];
             && start < Deadline(claim.at, claim.lease) + SECOND
             && tick == NextTick(start, interval, Deadline(claim.at, claim.lease) + SECOND)
    ensures var s := Exec(EMPTY, run);
            var claim := s.claims[c];
            && tick < Deadline(claim.at, claim.lease) + SECOND + interval
            && (Enabled(s, Recover(tick)) && claim.hold == A.Holding ==>
                  claim.event in s.rows && Apply(s, Recover(tick)).rows[claim.event].status == Pending)
  {
    var s := Exec(EMPTY, run);
    var due := Deadline(s.claims[c].at, s.claims[c].lease) + SECOND;
    NextTickIsPrompt(start, interval, due);
    if Enabled(s, Recover(tick)) {
      RecoveryEndsExpiredHolds(run, tick, c);
    }
  }

  // ----- Late marks -----

  /** The batch of a claim set whose publishes failed can be marked failed however late. */
  lemma FailureMarkResets(s: State, late: set<nat>, id: EventId)
    requires s.batches == map[] && A.CanMark(Abs(s), late, A.Failed)
    requires id in A.EventsOf(s.claims, late) && id in s.rows
    ensures Enabled(s, MarkFailed(late)) && Apply(s, MarkFailed(late)).rows[id].status == Pending
  {
  }

  /** Waiting until a lease taken at s.now has expired, and recovering it. */
  lemma CanExpire(w: Settings, s: State, id: EventId, lease: nat) returns (s': State)
    requires Consistent(s) && s.batches == map[] && id in s.rows && s.rows[id].status == Processing
    requires s.rows[id].lockedUntil == Some(LockedUntil(s.now, lease))
    ensures Reaches(w, s, s') && Consistent(s') && s'.batches == map[] && id in PendingIds(s'.rows)
    ensures KeepsClaims(s, s') && |s'.claims| == |s.claims|
  {
    s' := Recovered(s, lease * SECOND + SECOND);
    CanRecover(w, s, lease * SECOND + SECOND);
    AlwaysRecoverableAfterOneMoreSecond(s.now, lease, s'.now);
  }

  /** A batch whose publishes fail and whose mark is delayed past the lease: the event is pending again. */
  lemma CanLingerPastLease(w: Settings, s: State, id: EventId) returns (s': State, late: set<nat>)
    requires Consistent(s) && s.batches == map[] && id in PendingIds(s.rows) && w.batchSize >= 1
    ensures Reaches(w, s, s') && Consistent(s') && s'.batches == map[] && id in PendingIds(s'.rows)
    ensures A.CanMark(Abs(s'), late, A.Failed) && id in A.EventsOf(s'.claims, late)
  {
    var s1, ids := CanReachSelection(w, s, id);
    var s2 := Tried(w, s1, ids, false);
    CanTryBatch(w, s1, ids, false);
    ReachesTrans(w, s, s1, s2);
    var i :| 0 <= i < |ids| && ids[i] == id;
    FailedBatch(w, s1, ids, s2, i);
    late := ClaimsFrom(s2.claims, |s1.claims|);
    s' := CanExpire(w, s2, id, WholeSeconds(w.lockTimeout));
    ReachesTrans(w, s, s2, s');
    LateClaims(s2, s', late, |s1.claims| + i);
  }

  lemma LateClaims(s: State, s': State, late: set<nat>, c: nat)
    requires KeepsClaims(s, s') && A.CanMark(Abs(s), late, A.Failed) && c in late
    ensures A.CanMark(Abs(s'), late, A.Failed) && s.claims[c].event in A.EventsOf(s'.claims, late)
  {
    forall d | d in late ensures d < |s'.claims| && s'.claims[d].alive && s'.claims[d].result == A.Failed {
      assert s'.claims[d].(hold := s.claims[d].hold) == s.claims[d];
    }
    assert s'.claims[c].event == s.claims[c].event;
  }

  /**
   Without the timing hypothesis 'processed' is not final. Whatever pending event one takes, whatever the lock
   timeout and the batch size, a run exists in which a batch worker outlives its lease, another one processes the
   event, and the first one's failure mark can then put it back.
   */
  lemma LateMarkCanResetAnyEvent(w: Settings, s: State, id: EventId) returns (s': State, late: set<nat>)
    requires Consistent(s) && s.batches == map[] && id in PendingIds(s.rows) && w.batchSize >= 1
    ensures Reaches(w, s, s') && id in s'.rows && s'.rows[id].status == Processed
    ensures Enabled(s', MarkFailed(late)) && Apply(s', MarkFailed(late)).rows[id].status == Pending
  {
    var s1;
    s1, late := CanLingerPastLease(w, s, id);
    s' := CanProcessOne(w, s1, id);
    ReachesTrans(w, s, s1, s');
    var c :| c in late && c < |s1.claims| && s1.claims[c].event == id;
    LateClaims(s1, s', late, c);
    FailureMarkResets(s', late, id);
  }
}
