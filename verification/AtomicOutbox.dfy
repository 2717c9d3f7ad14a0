/**
 The outbox protocol with atomic claims: the specification that the statement-level
 protocol of module SqlOutbox refines. A claim is one claimant's hold on one event, from
 the UPDATE that set status = 'processing' to the mark that ends it; the list of claims is
 kept for ever, so that statements about whole runs can be read off a state.
 */
module AtomicOutbox {
  import opened Common
  import opened Leases
  import opened OutboxTable

  datatype PublishResult = NotYet | Succeeded | Failed

  /** How a claim's hold on its row stands: still holding, ended by a mark, or taken back by lease recovery. */
  datatype Hold = Holding | Marked | Recovered

  datatype Claim = Claim(event: EventId, at: nat, lease: nat, result: PublishResult, alive: bool, hold: Hold)

  datatype State = State(rows: Rows, claims: seq<Claim>, now: nat)

  datatype Action =
    | Insert(id: EventId, payload: Payload, createdAt: nat)
    | Tick(nanos: nat)
    | ClaimAll(ids: seq<EventId>, at: nat, lease: nat)
    | Publish(claim: nat, ok: bool)
    | MarkProcessed(claims: set<nat>)
    | MarkFailed(claims: set<nat>)
    | Crash(claim: nat)
    | Recover(at: nat)

  const EMPTY: State := State(map[], [], 0)

  function NewClaims(ids: seq<EventId>, at: nat, lease: nat): seq<Claim> {
    seq(|ids|, i requires 0 <= i < |ids| => Claim(ids[i], at, lease, NotYet, true, Holding))
  }

  function EventsOf(claims: seq<Claim>, cs: set<nat>): set<EventId> {
    set c | c in cs && c < |claims| :: claims[c].event
  }

  /** A mark ends the claimant's work; a hold already recovered stays recovered. */
  function EndClaims(claims: seq<Claim>, cs: set<nat>): seq<Claim> {
    seq(|claims|, i requires 0 <= i < |claims| =>
      if i in cs
      then claims[i].(alive := false, hold := if claims[i].hold == Holding then Marked else claims[i].hold)
      else claims[i])
  }

  function RecoverClaims(claims: seq<Claim>, ids: set<EventId>): seq<Claim> {
    seq(|claims|, i requires 0 <= i < |claims| =>
      if claims[i].event in ids && claims[i].hold == Holding then claims[i].(hold := Recovered) else claims[i])
  }

  /** The claimants in `cs` are running and their publish returned `result`. */
  predicate CanMark(s: State, cs: set<nat>, result: PublishResult) {
    forall c :: c in cs ==> c < |s.claims| && s.claims[c].alive && s.claims[c].result == result
  }

  ghost predicate Enabled(s: State, a: Action) {
    match a
    case Insert(id, _, _) => id !in s.rows
    case Tick(_) => true
    case ClaimAll(ids, at, _) =>
      Distinct(ids) && at <= s.now && forall i :: 0 <= i < |ids| ==> ids[i] in PendingIds(s.rows)
    case Publish(c, _) => c < |s.claims| && s.claims[c].alive && s.claims[c].result == NotYet
    case MarkProcessed(cs) => CanMark(s, cs, Succeeded)
    case MarkFailed(cs) => CanMark(s, cs, Failed)
    case Crash(c) => c < |s.claims| && s.claims[c].alive
    case Recover(at) => at <= s.now
  }

  ghost function Apply(s: State, a: Action): State
    requires Enabled(s, a)
  {
    match a
    case Insert(id, payload, createdAt) => s.(rows := s.rows[id := FreshRow(payload, createdAt)])
    case Tick(nanos) => s.(now := s.now + nanos)
    case ClaimAll(ids, at, lease) =>
      s.(rows := Update(s.rows, Elements(ids), ToProcessing(LockedUntil(at, lease))),
         claims := s.claims + NewClaims(ids, at, lease))
    case Publish(c, ok) =>
      s.(claims := s.claims[c := s.claims[c].(result := if ok then Succeeded else Failed)])
    case MarkProcessed(cs) =>
      s.(rows := Update(s.rows, EventsOf(s.claims, cs), ToProcessed(s.now)), claims := EndClaims(s.claims, cs))
    case MarkFailed(cs) =>
      s.(rows := Update(s.rows, EventsOf(s.claims, cs), ToPending), claims := EndClaims(s.claims, cs))
    case Crash(c) => s.(claims := s.claims[c := s.claims[c].(alive := false)])
    case Recover(at) =>
      s.(rows := Update(s.rows, StaleIds(s.rows, at), ToPending),
         claims := RecoverClaims(s.claims, StaleIds(s.rows, at)))
  }

  // ----- Runs -----

  ghost predicate Valid(s: State, run: seq<Action>)
    decreases |run|
  {
    run == [] || (Enabled(s, run[0]) && Valid(Apply(s, run[0]), run[1..]))
  }

  ghost function Exec(s: State, run: seq<Action>): State
    requires Valid(s, run)
    decreases |run|
  {
    if run == [] then s else Exec(Apply(s, run[0]), run[1..])
  }

  /** The timing hypothesis: a claimant that gets as far as marking does so before its deadline. */
  ghost predicate TimelyStep(s: State, a: Action) {
    a.MarkProcessed? || a.MarkFailed? ==>
      forall c :: c in a.claims && c < |s.claims| ==> s.now <= Deadline(s.claims[c].at, s.claims[c].lease)
  }

  ghost predicate Timely(s: State, run: seq<Action>)
    requires Valid(s, run)
    decreases |run|
  {
    run == [] || (TimelyStep(s, run[0]) && Timely(Apply(s, run[0]), run[1..]))
  }

  // ----- What holds in every run, late marks and expired leases included -----

  ghost predicate HandedToPublisher(s: State, id: EventId) {
    exists c :: 0 <= c < |s.claims| && s.claims[c].event == id && s.claims[c].result == Succeeded
  }

  ghost predicate Inv(s: State) {
    && LeaseMatchesStatus(s.rows)
    && (forall c :: 0 <= c < |s.claims| ==> s.claims[c].event in s.rows && s.claims[c].at <= s.now)
    && (forall id :: id in s.rows && s.rows[id].status == Processed ==> HandedToPublisher(s, id))
  }

  lemma StepKeepsHandedToPublisher(s: State, a: Action, id: EventId)
    requires Enabled(s, a) && HandedToPublisher(s, id)
    ensures HandedToPublisher(Apply(s, a), id)
  {
    var c :| 0 <= c < |s.claims| && s.claims[c].event == id && s.claims[c].result == Succeeded;
    var s' := Apply(s, a);
    assert s'.claims[c].event == id && s'.claims[c].result == Succeeded;
  }

  lemma StepKeepsInv(s: State, a: Action)
    requires Inv(s) && Enabled(s, a)
    ensures Inv(Apply(s, a)) && KeepsEvents(s.rows, Apply(s, a).rows)
  {
    var s' := Apply(s, a);
    forall id | id in s'.rows && s'.rows[id].status == Processed
      ensures HandedToPublisher(s', id)
    {
      if id in s.rows && s.rows[id].status == Processed {
        StepKeepsHandedToPublisher(s, a, id);
      } else {
        var c :| c in a.claims && s.claims[c].event == id;
        assert s'.claims[c].event == id && s'.claims[c].result == Succeeded;
      }
    }
  }

  lemma {:induction false} RunKeepsInv(s: State, run: seq<Action>)
    requires Inv(s) && Valid(s, run)
    ensures Inv(Exec(s, run)) && KeepsEvents(s.rows, Exec(s, run).rows)
    decreases |run|
  {
    if run != [] {
      StepKeepsInv(s, run[0]);
      RunKeepsInv(Apply(s, run[0]), run[1..]);
    }
  }

  // ----- What the timing hypothesis adds -----

  /** What timely claimants guarantee about one claim. */
  ghost predicate ClaimOk(s: State, c: nat)
    requires c < |s.claims| && s.claims[c].event in s.rows
  {
    var claim := s.claims[c];
    var row := s.rows[claim.event];
    && (claim.hold == Holding ==>
          row.status == Processing && row.lockedUntil == Some(LockedUntil(claim.at, claim.lease)))
    && (claim.alive && s.now <= Deadline(claim.at, claim.lease) ==> claim.hold == Holding)
    && (claim.hold == Marked ==>
          !claim.alive && claim.result != NotYet && (claim.result == Succeeded ==> row.status == Processed))
  }

  /** Two claims on one event never both hold it and were never both marked processed. */
  ghost predicate PairOk(s: State, c: nat, d: nat)
    requires c < |s.claims| && d < |s.claims|
  {
    c != d && s.claims[c].event == s.claims[d].event ==>
      && !(s.claims[c].hold == Holding && s.claims[d].hold == Holding)
      && !(s.claims[c].hold == Marked && s.claims[c].result == Succeeded
           && s.claims[d].hold == Marked && s.claims[d].result == Succeeded)
  }

  ghost predicate TimelyInv(s: State) {
    && Inv(s)
    && (forall c :: 0 <= c < |s.claims| ==> ClaimOk(s, c))
    && (forall c, d :: 0 <= c < |s.claims| && 0 <= d < |s.claims| ==> PairOk(s, c, d))
  }

  /** A timely mark concerns a row that its own claimant holds, and no other claimant of it is marking elsewhere. */
  lemma TimelyMarksAreByHolders(s: State, a: Action, c: nat)
    requires TimelyInv(s) && Enabled(s, a) && TimelyStep(s, a)
    requires a.MarkProcessed? || a.MarkFailed?
    requires c < |s.claims| && s.claims[c].event in EventsOf(s.claims, a.claims)
    ensures s.rows[s.claims[c].event].status == Processing
    ensures s.claims[c].hold == Holding <==> c in a.claims
  {
    var d :| d in a.claims && d < |s.claims| && s.claims[d].event == s.claims[c].event;
    assert ClaimOk(s, d) && ClaimOk(s, c) && PairOk(s, c, d);
  }

  lemma StepKeepsClaimOk(s: State, a: Action, c: nat)
    requires TimelyInv(s) && Enabled(s, a) && TimelyStep(s, a) && Inv(Apply(s, a))
    requires c < |Apply(s, a).claims|
    ensures ClaimOk(Apply(s, a), c)
  {
    if c < |s.claims| {
      assert ClaimOk(s, c);
      if (a.MarkProcessed? || a.MarkFailed?) && s.claims[c].event in EventsOf(s.claims, a.claims) {
        TimelyMarksAreByHolders(s, a, c);
      }
      var at, lease := s.claims[c].at, s.claims[c].lease;
      if a.Recover? && s.claims[c].event in StaleIds(s.rows, a.at) && s.now <= Deadline(at, lease) {
        NeverRecoverableBeforeDeadline(at, lease, a.at);
      }
    }
  }

  lemma StepKeepsPairOk(s: State, a: Action, c: nat, d: nat)
    requires TimelyInv(s) && Enabled(s, a) && TimelyStep(s, a)
    requires c < |Apply(s, a).claims| && d < |Apply(s, a).claims|
    ensures PairOk(Apply(s, a), c, d)
  {
    if c < |s.claims| { assert ClaimOk(s, c); }
    if d < |s.claims| { assert ClaimOk(s, d); }
    if c < |s.claims| && d < |s.claims| {
      assert PairOk(s, c, d);
      if a.MarkProcessed? || a.MarkFailed? {
        if c in a.claims { TimelyMarksAreByHolders(s, a, c); }
        if d in a.claims { TimelyMarksAreByHolders(s, a, d); }
      }
    }
  }

  /** With timely claimants every step keeps the invariant, and no step takes a row out of 'processed'. */
  lemma StepKeepsTimelyInv(s: State, a: Action)
    requires TimelyInv(s) && Enabled(s, a) && TimelyStep(s, a)
    ensures TimelyInv(Apply(s, a))
    ensures forall id :: id in s.rows && s.rows[id].status == Processed ==> Apply(s, a).rows[id].status == Processed
  {
    StepKeepsInv(s, a);
    var s' := Apply(s, a);
    forall c | 0 <= c < |s'.claims| ensures ClaimOk(s', c) { StepKeepsClaimOk(s, a, c); }
    forall c, d | 0 <= c < |s'.claims| && 0 <= d < |s'.claims| ensures PairOk(s', c, d) { StepKeepsPairOk(s, a, c, d); }
    forall id | id in s.rows && s.rows[id].status == Processed ensures s'.rows[id].status == Processed {
      if (a.MarkProcessed? || a.MarkFailed?) && id in EventsOf(s.claims, a.claims) {
        var c :| c in a.claims && c < |s.claims| && s.claims[c].event == id;
        TimelyMarksAreByHolders(s, a, c);
      }
    }
  }

  lemma {:induction false} RunKeepsTimelyInv(s: State, run: seq<Action>)
    requires TimelyInv(s) && Valid(s, run) && Timely(s, run)
    ensures TimelyInv(Exec(s, run))
    ensures forall id :: id in s.rows && s.rows[id].status == Processed ==>
              id in Exec(s, run).rows && Exec(s, run).rows[id].status == Processed
    decreases |run|
  {
    if run != [] {
      StepKeepsTimelyInv(s, run[0]);
      RunKeepsTimelyInv(Apply(s, run[0]), run[1..]);
    }
  }

  /** The claimants of `id` that may still act on it: running, and within their deadline. */
  ghost function LiveClaims(s: State, id: EventId): set<nat> {
    set c | 0 <= c < |s.claims| && s.claims[c].event == id && s.claims[c].alive
            && s.now <= Deadline(s.claims[c].at, s.claims[c].lease)
  }

  ghost function SuccessfulPublishes(s: State, id: EventId): set<nat> {
    set c | 0 <= c < |s.claims| && s.claims[c].event == id && s.claims[c].result == Succeeded
  }

  ghost function RecoveredClaims(s: State, id: EventId): set<nat> {
    set c | 0 <= c < |s.claims| && s.claims[c].event == id && s.claims[c].hold == Recovered
  }

  lemma AtMostOneLiveClaimant(s: State, id: EventId)
    requires TimelyInv(s)
    ensures |LiveClaims(s, id)| <= 1
  {
    var live := LiveClaims(s, id);
    if c :| c in live {
      forall d | d in live ensures d == c { assert ClaimOk(s, c) && ClaimOk(s, d) && PairOk(s, c, d); }
      assert live == {c};
    }
  }

  /** Publish accounting: every successful publish but one is paid for by a lease recovery. */
  lemma PublishAccounting(s: State, id: EventId)
    requires TimelyInv(s)
    ensures |SuccessfulPublishes(s, id)| <= 1 + |RecoveredClaims(s, id)|
  {
    var ok, rec := SuccessfulPublishes(s, id), RecoveredClaims(s, id);
    if ok <= rec {
      SubsetSize(ok, rec);
    } else {
      var c :| c in ok && c !in rec;
      forall d | d in ok && d !in rec ensures d == c {
        assert ClaimOk(s, c) && ClaimOk(s, d) && PairOk(s, c, d);
      }
      SubsetSize(ok, rec + {c});
    }
  }
}
