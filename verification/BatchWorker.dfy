/**
 ProcessBatch: one goroutine per claimed event behind a counting semaphore, results appended
 under a mutex, a wait group, then the two mark statements. The scheduler is the
 nondeterminism of the guarded commands, so what is proved holds for every interleaving.
 */
module BatchWorker {
  import opened Common
  import opened OutboxTable

  /** Progress of one goroutine; the semaphore slot is held from Publishing to Recorded. */
  datatype Stage =
    | NotStarted
    | Publishing
    | Returned(ok: bool)
    | Recorded(ok: bool)
    | Released(ok: bool)
    | Done(ok: bool)

  predicate HoldsSlot(st: Stage) {
    st.Publishing? || st.Returned? || st.Recorded?
  }

  predicate HasRecorded(st: Stage, ok: bool) {
    (st.Recorded? || st.Released? || st.Done?) && st.ok == ok
  }

  function Remaining(st: Stage): nat {
    match st
    case NotStarted => 5
    case Publishing => 4
    case Returned(_) => 3
    case Recorded(_) => 2
    case Released(_) => 1
    case Done(_) => 0
  }

  function Count(stages: seq<Stage>, p: Stage -> bool): nat {
    if stages == [] then 0 else (if p(stages[0]) then 1 else 0) + Count(stages[1..], p)
  }

  function TotalRemaining(stages: seq<Stage>): nat {
    if stages == [] then 0 else Remaining(stages[0]) + TotalRemaining(stages[1..])
  }

  /** The events whose goroutine has recorded the result `ok`. */
  ghost function Outcome(events: seq<EventId>, stages: seq<Stage>, ok: bool): multiset<EventId>
    requires |events| == |stages|
  {
    if events == [] then multiset{}
    else (if HasRecorded(stages[0], ok) then multiset{events[0]} else multiset{})
         + Outcome(events[1..], stages[1..], ok)
  }

  lemma {:induction false} CountUpdate(stages: seq<Stage>, i: nat, st: Stage, p: Stage -> bool)
    requires i < |stages|
    ensures Count(stages[i := st], p) + (if p(stages[i]) then 1 else 0) == Count(stages, p) + (if p(st) then 1 else 0)
  {
    if i > 0 {
      CountUpdate(stages[1..], i - 1, st, p);
      assert stages[i := st][1..] == stages[1..][i - 1 := st];
    }
  }

  lemma {:induction false} RemainingUpdate(stages: seq<Stage>, i: nat, st: Stage)
    requires i < |stages|
    ensures TotalRemaining(stages[i := st]) + Remaining(stages[i]) == TotalRemaining(stages) + Remaining(st)
  {
    if i > 0 {
      RemainingUpdate(stages[1..], i - 1, st);
      assert stages[i := st][1..] == stages[1..][i - 1 := st];
    }
  }

  lemma {:induction false} OutcomeUpdate(events: seq<EventId>, stages: seq<Stage>, i: nat, st: Stage, ok: bool)
    requires |events| == |stages| && i < |stages| && !HasRecorded(stages[i], ok)
    ensures Outcome(events, stages[i := st], ok)
         == Outcome(events, stages, ok) + (if HasRecorded(st, ok) then multiset{events[i]} else multiset{})
  {
    if i > 0 {
      OutcomeUpdate(events[1..], stages[1..], i - 1, st, ok);
      assert stages[i := st][1..] == stages[1..][i - 1 := st];
    }
  }

  /** Moving on without touching the recorded result leaves the outcome alone. */
  lemma {:induction false} OutcomeKept(events: seq<EventId>, stages: seq<Stage>, i: nat, st: Stage, ok: bool)
    requires |events| == |stages| && i < |stages| && HasRecorded(stages[i], ok) == HasRecorded(st, ok)
    ensures Outcome(events, stages[i := st], ok) == Outcome(events, stages, ok)
  {
    if i > 0 {
      OutcomeKept(events[1..], stages[1..], i - 1, st, ok);
      assert stages[i := st][1..] == stages[1..][i - 1 := st];
    }
  }

  /** Once every goroutine is done, the two outcomes split the batch. */
  lemma {:induction false} OutcomesPartition(events: seq<EventId>, stages: seq<Stage>)
    requires |events| == |stages| && forall i :: 0 <= i < |stages| ==> stages[i].Done?
    ensures Outcome(events, stages, true) + Outcome(events, stages, false) == multiset(events)
  {
    if events != [] {
      OutcomesPartition(events[1..], stages[1..]);
      assert events == [events[0]] + events[1..];
    }
  }

  lemma {:induction false} OutcomeIsPublished(events: seq<EventId>, stages: seq<Stage>, accepted: seq<bool>, ok: bool)
    requires |events| == |stages| == |accepted|
    requires forall i :: 0 <= i < |stages| ==> stages[i] == Done(accepted[i])
    ensures Outcome(events, stages, ok) == Reported(events, accepted, ok)
  {
    if events != [] {
      OutcomeIsPublished(events[1..], stages[1..], accepted[1..], ok);
    }
  }

  /** The events whose publish returned `ok`, independently of any schedule. */
  ghost function Reported(events: seq<EventId>, accepted: seq<bool>, ok: bool): multiset<EventId>
    requires |events| == |accepted|
  {
    if events == [] then multiset{}
    else (if accepted[0] == ok then multiset{events[0]} else multiset{}) + Reported(events[1..], accepted[1..], ok)
  }

  lemma {:induction false} NoSlotHeld(stages: seq<Stage>)
    requires forall i :: 0 <= i < |stages| ==> !HoldsSlot(stages[i])
    ensures Count(stages, HoldsSlot) == 0
  {
    if stages != [] {
      NoSlotHeld(stages[1..]);
    }
  }

  predicate IsPublishing(st: Stage) {
    st.Publishing?
  }

  lemma {:induction false} PublishersHoldSlots(stages: seq<Stage>)
    ensures Count(stages, IsPublishing) <= Count(stages, HoldsSlot)
  {
    if stages != [] {
      PublishersHoldSlots(stages[1..]);
    }
  }

  /** Before anything starts: no slot taken, no publish in flight, nothing recorded. */
  lemma {:induction false} NothingStarted(events: seq<EventId>, stages: seq<Stage>)
    requires |events| == |stages| && forall i :: 0 <= i < |stages| ==> stages[i].NotStarted?
    ensures Count(stages, HoldsSlot) == Count(stages, IsPublishing) == 0
    ensures Outcome(events, stages, true) == Outcome(events, stages, false) == multiset{}
  {
    if stages != [] {
      NothingStarted(events[1..], stages[1..]);
    }
  }

  /** A goroutine can move: it is started and not done. */
  predicate CanMove(st: Stage) {
    !st.NotStarted? && !st.Done?
  }

  /** The main loop can take a slot for the next event, or some goroutine can move. */
  ghost predicate CanStep(stages: seq<Stage>, next: nat, concurrency: nat) {
    || (next < |stages| && Count(stages, HoldsSlot) < concurrency)
    || (exists i :: 0 <= i < |stages| && CanMove(stages[i]))
  }

  ghost predicate StartedInOrder(stages: seq<Stage>, next: nat) {
    next <= |stages| && forall i :: 0 <= i < |stages| ==> (stages[i].NotStarted? <==> i >= next)
  }

  /** With a positive Concurrency an unfinished batch is never stuck, in whatever state the scheduler left it. */
  lemma NoDeadlock(stages: seq<Stage>, next: nat, concurrency: nat)
    requires concurrency >= 1 && StartedInOrder(stages, next)
    requires exists i :: 0 <= i < |stages| && !stages[i].Done?
    ensures CanStep(stages, next, concurrency)
  {
    if forall i :: 0 <= i < |stages| ==> !CanMove(stages[i]) {
      NoSlotHeld(stages);
    }
  }

  /** ... and only then: with Concurrency 0 the first event of any batch blocks for ever. */
  lemma BatchStartsExactlyWithConcurrency(events: seq<EventId>, stages: seq<Stage>, concurrency: nat)
    requires |events| == |stages| > 0 && forall i :: 0 <= i < |stages| ==> stages[i].NotStarted?
    ensures CanStep(stages, 0, concurrency) <==> concurrency >= 1
  {
    NothingStarted(events, stages);
  }

  /** One move of goroutine i: its effect on the semaphore, the publishes in flight and the work left. */
  lemma MoveEffect(stages: seq<Stage>, i: nat, st: Stage)
    requires i < |stages| && Remaining(st) < Remaining(stages[i])
    ensures var t := stages[i := st];
            && Count(t, HoldsSlot) == Count(stages, HoldsSlot)
                 - (if HoldsSlot(stages[i]) then 1 else 0) + (if HoldsSlot(st) then 1 else 0)
            && Count(t, IsPublishing) == Count(stages, IsPublishing)
                 - (if IsPublishing(stages[i]) then 1 else 0) + (if IsPublishing(st) then 1 else 0)
            && TotalRemaining(t) < TotalRemaining(stages)
  {
    CountUpdate(stages, i, st, HoldsSlot);
    CountUpdate(stages, i, st, IsPublishing);
    RemainingUpdate(stages, i, st);
  }

  /** One move of goroutine i: its effect on the recorded results. */
  lemma MoveOutcome(events: seq<EventId>, stages: seq<Stage>, i: nat, st: Stage, ok: bool)
    requires |events| == |stages| && i < |stages|
    requires HasRecorded(stages[i], ok) ==> HasRecorded(st, ok)
    ensures Outcome(events, stages[i := st], ok)
         == Outcome(events, stages, ok)
            + (if HasRecorded(st, ok) && !HasRecorded(stages[i], ok) then multiset{events[i]} else multiset{})
  {
    if HasRecorded(stages[i], ok) == HasRecorded(st, ok) {
      OutcomeKept(events, stages, i, st, ok);
    } else {
      OutcomeUpdate(events, stages, i, st, ok);
    }
  }

  /** The variables of ProcessBatch shared by its goroutines. */
  datatype Shared = Shared(stages: seq<Stage>, next: nat, slots: nat, inFlight: nat, peak: nat,
                           processed: seq<EventId>, failed: seq<EventId>)

  ghost predicate BatchInv(events: seq<EventId>, accepted: seq<bool>, concurrency: nat, b: Shared) {
    && |accepted| == |events| == |b.stages| && StartedInOrder(b.stages, b.next)
    && (forall i :: 0 <= i < |events| && !b.stages[i].NotStarted? && !b.stages[i].Publishing? ==>
          b.stages[i].ok == accepted[i])
    && b.slots == Count(b.stages, HoldsSlot) <= concurrency
    && b.inFlight == Count(b.stages, IsPublishing) <= b.peak <= concurrency
    && multiset(b.processed) == Outcome(events, b.stages, true)
    && multiset(b.failed) == Outcome(events, b.stages, false)
  }

  /** The main loop takes a slot and starts the next goroutine. */
  function StartNext(b: Shared): Shared
    requires b.next < |b.stages|
  {
    b.(stages := b.stages[b.next := Publishing], next := b.next + 1, slots := b.slots + 1,
       inFlight := b.inFlight + 1, peak := Max(b.peak, b.inFlight + 1))
  }

  lemma StartKeepsInv(events: seq<EventId>, accepted: seq<bool>, concurrency: nat, b: Shared)
    requires BatchInv(events, accepted, concurrency, b) && b.next < |events| && b.slots < concurrency
    ensures BatchInv(events, accepted, concurrency, StartNext(b))
    ensures TotalRemaining(StartNext(b).stages) < TotalRemaining(b.stages)
  {
    PublishersHoldSlots(b.stages);
    MoveEffect(b.stages, b.next, Publishing);
    MoveOutcome(events, b.stages, b.next, Publishing, true);
    MoveOutcome(events, b.stages, b.next, Publishing, false);
  }

  /** Goroutine i takes its next step. */
  function Advance(events: seq<EventId>, accepted: seq<bool>, b: Shared, i: nat): Shared
    requires i < |events| == |accepted| == |b.stages| && CanMove(b.stages[i])
    requires b.stages[i].Publishing? ==> b.inFlight > 0
    requires b.stages[i].Recorded? ==> b.slots > 0
  {
    match b.stages[i]
    case Publishing => b.(stages := b.stages[i := Returned(accepted[i])], inFlight := b.inFlight - 1)
    case Returned(true) => b.(stages := b.stages[i := Recorded(true)], processed := b.processed + [events[i]])
    case Returned(false) => b.(stages := b.stages[i := Recorded(false)], failed := b.failed + [events[i]])
    case Recorded(ok) => b.(stages := b.stages[i := Released(ok)], slots := b.slots - 1)
    case Released(ok) => b.(stages := b.stages[i := Done(ok)])
  }

  lemma {:induction false} CountPositive(stages: seq<Stage>, p: Stage -> bool, i: nat)
    requires i < |stages| && p(stages[i])
    ensures Count(stages, p) > 0
  {
    if i > 0 {
      CountPositive(stages[1..], p, i - 1);
    }
  }

  lemma AdvanceKeepsInv(events: seq<EventId>, accepted: seq<bool>, concurrency: nat, b: Shared, i: nat)
    requires BatchInv(events, accepted, concurrency, b) && i < |events| && CanMove(b.stages[i])
    ensures b.stages[i].Publishing? ==> b.inFlight > 0
    ensures b.stages[i].Recorded? ==> b.slots > 0
    ensures BatchInv(events, accepted, concurrency, Advance(events, accepted, b, i))
    ensures TotalRemaining(Advance(events, accepted, b, i).stages) < TotalRemaining(b.stages)
  {
    if b.stages[i].Publishing? { CountPositive(b.stages, IsPublishing, i); }
    if b.stages[i].Recorded? { CountPositive(b.stages, HoldsSlot, i); }
    var st := Advance(events, accepted, b, i).stages[i];
    MoveEffect(b.stages, i, st);
    MoveOutcome(events, b.stages, i, st, true);
    MoveOutcome(events, b.stages, i, st, false);
  }

  /**
   The body of ProcessBatch between the claim and the marks. `accepted[i]` says whether publishing
   event i returns nil; `peak` is the largest number of publishes ever in flight. The guards of the
   loop must cover every unfinished state, so the method verifies only if no schedule deadlocks.
   */
  method PublishAll(events: seq<EventId>, accepted: seq<bool>, concurrency: nat)
    returns (processed: seq<EventId>, failed: seq<EventId>, peak: nat)
    requires concurrency >= 1 && |accepted| == |events|
    ensures multiset(processed) + multiset(failed) == multiset(events)
    ensures multiset(processed) == Reported(events, accepted, true)
    ensures multiset(failed) == Reported(events, accepted, false)
    ensures peak <= concurrency
  {
    var b := Shared(seq(|events|, _ => NotStarted), 0, 0, 0, 0, [], []);
    NothingStarted(events, b.stages);
    ghost var work := TotalRemaining(b.stages);
    while exists i :: 0 <= i < |b.stages| && !b.stages[i].Done?
      invariant BatchInv(events, accepted, concurrency, b)
      invariant work == TotalRemaining(b.stages)
      decreases work
    {
      NoDeadlock(b.stages, b.next, concurrency);
      if {
      case b.next < |events| && b.slots < concurrency =>
        StartKeepsInv(events, accepted, concurrency, b);
        b := StartNext(b);
      case exists k :: 0 <= k < |events| && CanMove(b.stages[k]) =>
        var i: nat :| i < |events| && CanMove(b.stages[i]);
        AdvanceKeepsInv(events, accepted, concurrency, b, i);
        b := Advance(events, accepted, b, i);
      }
      work := TotalRemaining(b.stages);
    }
    OutcomesPartition(events, b.stages);
    OutcomeIsPublished(events, b.stages, accepted, true);
    OutcomeIsPublished(events, b.stages, accepted, false);
    return b.processed, b.failed, b.peak;
  }
}
