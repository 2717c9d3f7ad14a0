/**
 The outbox protocol statement by statement. A batch claim is a transaction of three
 statements - SELECT ... FOR UPDATE SKIP LOCKED, an UPDATE by id with no status guard, COMMIT -
 during which the selected rows stay locked; every other statement is an autocommitted UPDATE
 that waits for row locks and reads NOW() when it starts (`at`). Any number of batch workers,
 immediate publishers and recoverers interleave. The protocol refines the atomic claims of module AtomicOutbox.
 */
module SqlOutbox {
  import opened Common
  import opened Leases
  import opened OutboxTable
  import A = AtomicOutbox

  type TxId = nat

  /** A batch transaction between its SELECT and its COMMIT; `stamped` holds NOW() once the UPDATE has run. */
  datatype Batch = Batch(ids: seq<EventId>, lease: nat, stamped: Option<nat>)

  datatype State = State(rows: Rows, claims: seq<A.Claim>, now: nat, batches: map<TxId, Batch>)

  datatype Action =
    | Insert(id: EventId, payload: Payload, createdAt: nat)
    | Tick(nanos: nat)
    | SelectForUpdate(tx: TxId, count: nat, lockTimeout: nat, ids: seq<EventId>)
    | UpdateSelected(tx: TxId)
    | Commit(tx: TxId)
    | Rollback(tx: TxId)
    | ClaimSingle(id: EventId, at: nat, lockTimeout: nat)
    | Publish(claim: nat, ok: bool)
    | MarkProcessed(claims: set<nat>)
    | MarkFailed(claims: set<nat>)
    | Crash(claim: nat)
    | Recover(at: nat)

  const EMPTY: State := State(map[], [], 0, map[])

  ghost predicate LockedBy(s: State, tx: TxId, id: EventId) {
    tx in s.batches && id in s.batches[tx].ids
  }

  ghost predicate Locked(s: State, id: EventId) {
    exists tx :: LockedBy(s, tx, id)
  }

  ghost function LockedIds(s: State): set<EventId> {
    set id | id in s.rows && Locked(s, id)
  }

  ghost predicate Unlocked(s: State, ids: set<EventId>) {
    forall id :: id in ids ==> !Locked(s, id)
  }

  ghost predicate Enabled(s: State, a: Action) {
    match a
    case Insert(id, _, _) => id !in s.rows
    case Tick(_) => true
    case SelectForUpdate(tx, count, _, ids) =>
      tx !in s.batches && ids != [] && IsSelection(s.rows, LockedIds(s), count, ids)
    case UpdateSelected(tx) => tx in s.batches && s.batches[tx].stamped.None?
    case Commit(tx) => tx in s.batches && s.batches[tx].stamped.Some?
    case Rollback(tx) => tx in s.batches
    case ClaimSingle(id, at, _) => at <= s.now && !Locked(s, id)
    case Publish(c, _) => c < |s.claims| && s.claims[c].alive && s.claims[c].result == A.NotYet
    case MarkProcessed(cs) => A.CanMark(Abs(s), cs, A.Succeeded) && Unlocked(s, A.EventsOf(s.claims, cs))
    case MarkFailed(cs) => A.CanMark(Abs(s), cs, A.Failed) && Unlocked(s, A.EventsOf(s.claims, cs))
    case Crash(c) => c < |s.claims| && s.claims[c].alive
    case Recover(at) => at <= s.now && Unlocked(s, StaleIds(s.rows, at))
  }

  /** The conditional UPDATE of an immediate publisher affects a row. */
  predicate WinsSingle(rows: Rows, id: EventId) {
    id in rows && rows[id].status == Pending
  }

  ghost function Apply(s: State, a: Action): State
    requires Enabled(s, a)
  {
    match a
    case Insert(id, payload, createdAt) => s.(rows := s.rows[id := FreshRow(payload, createdAt)])
    case Tick(nanos) => s.(now := s.now + nanos)
    case SelectForUpdate(tx, _, lockTimeout, ids) =>
      s.(batches := s.batches[tx := Batch(ids, WholeSeconds(lockTimeout), None)])
    case UpdateSelected(tx) => s.(batches := s.batches[tx := s.batches[tx].(stamped := Some(s.now))])
    case Commit(tx) =>
      var b := s.batches[tx];
      s.(rows := Update(s.rows, Elements(b.ids), ToProcessing(LockedUntil(b.stamped.value, b.lease))),
         claims := s.claims + A.NewClaims(b.ids, b.stamped.value, b.lease),
         batches := s.batches - {tx})
    case Rollback(tx) => s.(batches := s.batches - {tx})
    case ClaimSingle(id, at, lockTimeout) =>
      if WinsSingle(s.rows, id)
      then s.(rows := Update(s.rows, {id}, ToProcessing(LockedUntil(at, WholeSeconds(lockTimeout)))),
              claims := s.claims + [A.Claim(id, at, WholeSeconds(lockTimeout), A.NotYet, true, A.Holding)])
      else s
    case Publish(c, ok) =>
      s.(claims := s.claims[c := s.claims[c].(result := if ok then A.Succeeded else A.Failed)])
    case MarkProcessed(cs) =>
      s.(rows := Update(s.rows, A.EventsOf(s.claims, cs), ToProcessed(s.now)), claims := A.EndClaims(s.claims, cs))
    case MarkFailed(cs) =>
      s.(rows := Update(s.rows, A.EventsOf(s.claims, cs), ToPending), claims := A.EndClaims(s.claims, cs))
    case Crash(c) => s.(claims := s.claims[c := s.claims[c].(alive := false)])
    case Recover(at) =>
      s.(rows := Update(s.rows, StaleIds(s.rows, at), ToPending),
         claims := A.RecoverClaims(s.claims, StaleIds(s.rows, at)))
  }

  ghost predicate Valid(s: State, run: seq<Action>)
    decreases |run|
  {
    run == [] || (Enabled(s, run[0]) && Valid(Apply(s, run[0]), run[1..]))
  }

  ghost function Exec(s: State, run: seq<Action>): State
    requires Valid(s, run)
    decreases |run|
  {
    if run == [] then s else Exec(Apply(s, run[0]), run[1..])
  }

  ghost predicate TimelyStep(s: State, a: Action) {
    a.MarkProcessed? || a.MarkFailed? ==>
      forall c :: c in a.claims && c < |s.claims| ==> s.now <= Deadline(s.claims[c].at, s.claims[c].lease)
  }

  ghost predicate Timely(s: State, run: seq<Action>)
    requires Valid(s, run)
    decreases |run|
  {
    run == [] || (TimelyStep(s, run[0]) && Timely(Apply(s, run[0]), run[1..]))
  }

  // ----- Row locks -----

  /** An open batch holds distinct rows that are still pending, and no two batches share a row. */
  ghost predicate LockInv(s: State) {
    && (forall tx :: tx in s.batches ==> Distinct(s.batches[tx].ids))
    && (forall tx :: tx in s.batches && s.batches[tx].stamped.Some? ==> s.batches[tx].stamped.value <= s.now)
    && (forall tx, id :: LockedBy(s, tx, id) ==> id in s.rows && s.rows[id].status == Pending)
    && (forall tx, tx', id :: LockedBy(s, tx, id) && LockedBy(s, tx', id) ==> tx == tx')
  }

  lemma SelectSkipsLockedRows(s: State, a: Action, holder: TxId, id: EventId)
    requires LockInv(s) && a.SelectForUpdate? && Enabled(s, a) && LockedBy(s, holder, id)
    ensures id !in a.ids
  {
    assert id in LockedIds(s);
  }

  lemma SelectedRowsArePending(s: State, tx: TxId, id: EventId)
    requires LockInv(s) && tx in s.batches && id in Elements(s.batches[tx].ids)
    ensures id in PendingIds(s.rows)
  {
    assert LockedBy(s, tx, id);
  }

  lemma CommitWritesOnlyItsOwnRows(s: State, tx: TxId, other: TxId, id: EventId)
    requires LockInv(s) && Enabled(s, Commit(tx)) && other != tx && LockedBy(s, other, id)
    ensures id !in Elements(s.batches[tx].ids)
  {
    if id in Elements(s.batches[tx].ids) {
      assert LockedBy(s, tx, id);
    }
  }

  lemma StepKeepsLockedRowsPending(s: State, a: Action, tx: TxId, id: EventId)
    requires LockInv(s) && Enabled(s, a) && LockedBy(Apply(s, a), tx, id)
    ensures id in Apply(s, a).rows && Apply(s, a).rows[id].status == Pending
  {
    if LockedBy(s, tx, id) {
      assert Locked(s, id);
      if a.Commit? {
        CommitWritesOnlyItsOwnRows(s, a.tx, tx, id);
      }
    }
  }

  lemma StepKeepsLockInv(s: State, a: Action)
    requires LockInv(s) && Enabled(s, a)
    ensures LockInv(Apply(s, a))
  {
    var s' := Apply(s, a);
    forall tx, id | LockedBy(s', tx, id) ensures id in s'.rows && s'.rows[id].status == Pending {
      StepKeepsLockedRowsPending(s, a, tx, id);
    }
    forall tx, tx', id | LockedBy(s', tx, id) && LockedBy(s', tx', id) ensures tx == tx' {
      if a.SelectForUpdate? && (tx == a.tx || tx' == a.tx) {
        if LockedBy(s, tx, id) { SelectSkipsLockedRows(s, a, tx, id); }
        if LockedBy(s, tx', id) { SelectSkipsLockedRows(s, a, tx', id); }
      } else {
        assert LockedBy(s, tx, id) && LockedBy(s, tx', id);
      }
    }
  }

  // ----- Refinement -----

  ghost function Abs(s: State): A.State {
    A.State(s.rows, s.claims, s.now)
  }

  /** The atomic action a statement stands for, if any: only the COMMIT of a batch claims. */
  ghost function AbsAction(s: State, a: Action): Option<A.Action>
    requires Enabled(s, a)
  {
    match a
    case Insert(id, payload, createdAt) => Some(A.Insert(id, payload, createdAt))
    case Tick(nanos) => Some(A.Tick(nanos))
    case SelectForUpdate(_, _, _, _) => None
    case UpdateSelected(_) => None
    case Commit(tx) => Some(A.ClaimAll(s.batches[tx].ids, s.batches[tx].stamped.value, s.batches[tx].lease))
    case Rollback(_) => None
    case ClaimSingle(id, at, lockTimeout) =>
      if WinsSingle(s.rows, id) then Some(A.ClaimAll([id], at, WholeSeconds(lockTimeout))) else None
    case Publish(c, ok) => Some(A.Publish(c, ok))
    case MarkProcessed(cs) => Some(A.MarkProcessed(cs))
    case MarkFailed(cs) => Some(A.MarkFailed(cs))
    case Crash(c) => Some(A.Crash(c))
    case Recover(at) => Some(A.Recover(at))
  }

  /** Each statement either leaves the atomic state alone or performs one enabled atomic action. */
  lemma StepRefines(s: State, a: Action)
    requires LockInv(s) && Enabled(s, a)
    ensures match AbsAction(s, a)
            case None => Abs(Apply(s, a)) == Abs(s)
            case Some(b) => A.Enabled(Abs(s), b) && Abs(Apply(s, a)) == A.Apply(Abs(s), b)
    ensures AbsAction(s, a).Some? ==> (TimelyStep(s, a) <==> A.TimelyStep(Abs(s), AbsAction(s, a).value))
  {
    if a.Commit? {
      var ids := s.batches[a.tx].ids;
      forall i | 0 <= i < |ids| ensures ids[i] in PendingIds(s.rows) {
        SelectedRowsArePending(s, a.tx, ids[i]);
      }
    }
    if a.ClaimSingle? && WinsSingle(s.rows, a.id) {
      assert Elements([a.id]) == {a.id} by {
        assert [a.id][0] in Elements([a.id]);
      }
      assert A.NewClaims([a.id], a.at, WholeSeconds(a.lockTimeout))
          == [A.Claim(a.id, a.at, WholeSeconds(a.lockTimeout), A.NotYet, true, A.Holding)];
    }
  }

  ghost function AbsRun(s: State, run: seq<Action>): seq<A.Action>
    requires Valid(s, run)
    decreases |run|
  {
    if run == [] then []
    else
      var rest := AbsRun(Apply(s, run[0]), run[1..]);
      match AbsAction(s, run[0])
      case None => rest
      case Some(b) => [b] + rest
  }

  /** Every statement-level run is, seen through Abs, a run of atomic claims; timeliness carries over. */
  lemma {:induction false} RunRefines(s: State, run: seq<Action>)
    requires LockInv(s) && Valid(s, run)
    ensures LockInv(Exec(s, run))
    ensures A.Valid(Abs(s), AbsRun(s, run)) && A.Exec(Abs(s), AbsRun(s, run)) == Abs(Exec(s, run))
    ensures Timely(s, run) ==> A.Timely(Abs(s), AbsRun(s, run))
    decreases |run|
  {
    if run != [] {
      StepKeepsLockInv(s, run[0]);
      StepRefines(s, run[0]);
      RunRefines(Apply(s, run[0]), run[1..]);
      if AbsAction(s, run[0]).Some? {
        assert AbsRun(s, run)[1..] == AbsRun(Apply(s, run[0]), run[1..]);
      }
    }
  }

  // ----- Main results -----

  /** Any run at all: leases match statuses, processed events reached a publisher, nothing is lost. */
  lemma EveryRunIsSafe(run: seq<Action>, more: seq<Action>)
    requires Valid(EMPTY, run) && Valid(Exec(EMPTY, run), more)
    ensures var s, s' := Exec(EMPTY, run), Exec(Exec(EMPTY, run), more);
            && LockInv(s)
            && A.Inv(Abs(s))
            && KeepsEvents(s.rows, s'.rows)
  {
    RunRefines(EMPTY, run);
    A.RunKeepsInv(Abs(EMPTY), AbsRun(EMPTY, run));
    var s := Exec(EMPTY, run);
    RunRefines(s, more);
    A.RunKeepsInv(Abs(s), AbsRun(s, more));
  }

  /** Claims of concurrent batches are disjoint from each other and from every claim that holds a row. */
  lemma ConcurrentClaimsAreDisjoint(run: seq<Action>, tx: TxId, tx': TxId)
    requires Valid(EMPTY, run)
    requires tx in Exec(EMPTY, run).batches && tx' in Exec(EMPTY, run).batches && tx != tx'
    ensures Elements(Exec(EMPTY, run).batches[tx].ids) !! Elements(Exec(EMPTY, run).batches[tx'].ids)
    ensures Elements(Exec(EMPTY, run).batches[tx].ids) <= PendingIds(Exec(EMPTY, run).rows)
  {
    RunRefines(EMPTY, run);
    var s := Exec(EMPTY, run);
    forall id | id in Elements(s.batches[tx].ids)
      ensures id in PendingIds(s.rows) && id !in Elements(s.batches[tx'].ids)
    {
      assert LockedBy(s, tx, id);
      if id in Elements(s.batches[tx'].ids) {
        assert LockedBy(s, tx', id);
      }
    }
  }

  /** Timely runs: one live claimant per event, publishes bounded by recoveries, 'processed' is final. */
  lemma TimelyRunsAreExclusive(run: seq<Action>, more: seq<Action>, id: EventId)
    requires Valid(EMPTY, run) && Timely(EMPTY, run)
    requires Valid(Exec(EMPTY, run), more) && Timely(Exec(EMPTY, run), more)
    ensures var s, s' := Exec(EMPTY, run), Exec(Exec(EMPTY, run), more);
            && |A.LiveClaims(Abs(s), id)| <= 1
            && |A.SuccessfulPublishes(Abs(s), id)| <= 1 + |A.RecoveredClaims(Abs(s), id)|
            && (id in s.rows && s.rows[id].status == Processed ==>
                  id in s'.rows && s'.rows[id].status == Processed)
  {
    RunRefines(EMPTY, run);
    A.RunKeepsTimelyInv(Abs(EMPTY), AbsRun(EMPTY, run));
    var s := Exec(EMPTY, run);
    A.AtMostOneLiveClaimant(Abs(s), id);
    A.PublishAccounting(Abs(s), id);
    RunRefines(s, more);
    A.RunKeepsTimelyInv(Abs(s), AbsRun(s, more));
  }

  /** Exactly when a statement takes a row out of 'processed': a failure mark by one of its claimants. */
  lemma ProcessedIsLeftExactlyByFailureMarks(run: seq<Action>, a: Action, id: EventId)
    requires Valid(EMPTY, run) && Enabled(Exec(EMPTY, run), a)
    requires id in Exec(EMPTY, run).rows && Exec(EMPTY, run).rows[id].status == Processed
    ensures Apply(Exec(EMPTY, run), a).rows[id].status != Processed
       <==> a.MarkFailed? && id in A.EventsOf(Exec(EMPTY, run).claims, a.claims)
  {
    RunRefines(EMPTY, run);
    var s := Exec(EMPTY, run);
    if a.Commit? && id in Elements(s.batches[a.tx].ids) {
      SelectedRowsArePending(s, a.tx, id);
    }
  }

  // ----- What one step can do, for systems built on this machine -----

  /** The event is marked processed, and its claimants that still run can only mark it processed again. */
  ghost predicate Settled(s: State, id: EventId)
    requires id in s.rows
  {
    && s.rows[id].status == Processed
    && forall c :: 0 <= c < |s.claims| && s.claims[c].event == id && s.claims[c].alive ==>
         s.claims[c].result == A.Succeeded
  }

  ghost predicate Consistent(s: State) {
    LockInv(s) && A.Inv(Abs(s))
  }

  ghost predicate StepFacts(s: State, a: Action, s': State) {
    && Consistent(s')
    && KeepsEvents(s.rows, s'.rows)
    && (a.Insert? ==> a.id in s'.rows && s'.rows[a.id] == Row(a.payload, a.createdAt, Pending, None, None))
    && (a.Publish? ==> a.claim < |s.claims| && s.claims[a.claim].alive && s.claims[a.claim].result == A.NotYet)
    && (forall id :: id in s'.rows && id !in s.rows ==> a.Insert? && id == a.id)
    && (forall c :: 0 <= c < |s'.claims| && s'.claims[c].result == A.Succeeded ==>
          && c < |s.claims| && s'.claims[c].event == s.claims[c].event
          && (s.claims[c].result == A.Succeeded || a == Publish(c, true)))
    && (forall id :: id in s.rows && Settled(s, id) ==> Settled(s', id))
  }

  lemma StepKeepsConsistent(s: State, a: Action)
    requires Consistent(s) && Enabled(s, a)
    ensures Consistent(Apply(s, a)) && KeepsEvents(s.rows, Apply(s, a).rows)
  {
    StepKeepsLockInv(s, a);
    StepRefines(s, a);
    if AbsAction(s, a).Some? {
      A.StepKeepsInv(Abs(s), AbsAction(s, a).value);
    }
  }

  lemma SettledStays(s: State, a: Action, id: EventId)
    requires LockInv(s) && Enabled(s, a) && id in s.rows && Settled(s, id)
    ensures id in Apply(s, a).rows && Settled(Apply(s, a), id)
  {
    if a.Commit? {
      var ids := s.batches[a.tx].ids;
      if id in Elements(ids) {
        SelectedRowsArePending(s, a.tx, id);
      }
      assert forall i :: 0 <= i < |ids| ==> ids[i] in Elements(ids);
    }
  }

  /** A successful claim of the next state succeeded before, or this very publish returned nil. */
  lemma SuccessComesFromPublish(s: State, a: Action, c: nat)
    requires Enabled(s, a) && c < |Apply(s, a).claims| && Apply(s, a).claims[c].result == A.Succeeded
    ensures c < |s.claims| && Apply(s, a).claims[c].event == s.claims[c].event
    ensures s.claims[c].result == A.Succeeded || a == Publish(c, true)
  {
  }

  lemma StepHasFacts(s: State, a: Action)
    requires Consistent(s) && Enabled(s, a)
    ensures StepFacts(s, a, Apply(s, a))
  {
    var s' := Apply(s, a);
    StepKeepsConsistent(s, a);
    forall c | 0 <= c < |s'.claims| && s'.claims[c].result == A.Succeeded
      ensures c < |s.claims| && s'.claims[c].event == s.claims[c].event
      ensures s.claims[c].result == A.Succeeded || a == Publish(c, true)
    {
      SuccessComesFromPublish(s, a, c);
    }
    forall id | id in s.rows && Settled(s, id) ensures Settled(s', id) {
      SettledStays(s, a, id);
    }
  }
}
