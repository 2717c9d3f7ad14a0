/** The outbox repository and the claim-publish-mark sequences that drive it, as imperative code. */
module OutboxRepository {
  import opened Common
  import opened Leases
  import opened OutboxTable
  import DR = DeclaredRouting
  import R = Routing

  /** Where a database statement may fail inside the claim transaction. */
  datatype ClaimFault = NoFault | SelectFails | UpdateFails | CommitFails

  datatype SingleResult = AlreadyClaimed | PublishFailed | Completed

  /** The SET list of a claim made at `now`. */
  function Lease(now: nat, lockTimeout: nat): Assignment {
    ToProcessing(LockedUntil(now, WholeSeconds(lockTimeout)))
  }

  /** Exchange and routing key an event is published to; None when the service does not publish it. */
  function Destination(payload: Payload): Option<(string, string)> {
    match payload
    case LoggedIn(_, _) => Some(("notification.exchange", "notification.queue"))
    case RegisteredUser(_) => Some(("user.exchange", "user.created"))
    case PushNotification(_, _, _) => None
    case UnknownEvent(_) => None
  }

  /** On the direct topology of "notification" a login is published to where its one queue receives it. */
  lemma LoginsReachNotifications(d: DR.Declared, ttl: int, session: string, user: nat)
    requires DR.HasDirect(d, "notification", ttl)
    requires DR.OnlyBound(d.bindings, "notification.exchange", R.DirectBindings("notification"))
    requires DR.OnlyBound(d.bindings, "notification.dlx", R.DirectBindings("notification"))
    ensures Destination(LoggedIn(session, user)).Some?
    ensures var (exchange, key) := Destination(LoggedIn(session, user)).value;
            DR.Routed(d, exchange, key) == {"notification.queue"}
  {
    var n := R.BuildNames("notification", "notification");
    DR.NotificationNames(n);
    DR.DirectRoutingClosure(d, "notification", ttl, n);
  }

  /** ProcessEvent: what the service reports, given whether the broker would accept a publish. */
  function ProcessEvent(payload: Payload, brokerAccepts: bool): bool {
    Destination(payload).Some? ==> brokerAccepts
  }

  class Repository {
    var rows: Rows

    constructor ()
      ensures rows == map[]
    {
      rows := map[];
    }

    /** ClaimOutboxEvents, given the rows `selected` that the database locked for it. */
    method ClaimOutboxEvents(selected: seq<EventId>, ghost locked: set<EventId>, count: nat, lockTimeout: nat,
                             now: nat, fault: ClaimFault)
      returns (claimed: Option<seq<EventId>>)
      requires IsSelection(rows, locked, count, selected)
      modifies this`rows
      ensures claimed == (if fault == SelectFails || (selected != [] && fault != NoFault) then None else Some(selected))
      ensures rows == (if fault == NoFault
                       then Update(old(rows), Elements(selected), Lease(now, lockTimeout))
                       else old(rows))
    {
      if fault == SelectFails {
        return None;
      }
      if |selected| == 0 {
        assert Update(rows, Elements(selected), Lease(now, lockTimeout)) == rows;
        return Some([]);
      }
      var ids: seq<EventId> := [];
      var i := 0;
      while i < |selected|
        invariant 0 <= i <= |selected| && ids == selected[..i]
      {
        ids := ids + [selected[i]];
        i := i + 1;
      }
      assert ids == selected;
      if fault == UpdateFails {
        return None;
      }
      var written := Update(rows, Elements(ids), Lease(now, lockTimeout));
      if fault == CommitFails {
        return None;
      }
      rows := written;
      return Some(ids);
    }

    /** ClaimSingleEvent: the conditional UPDATE; false is the conflict error. */
    method ClaimSingleEvent(id: EventId, lockTimeout: nat, now: nat) returns (claimed: bool)
      modifies this`rows
      ensures claimed <==> id in old(rows) && old(rows)[id].status == Pending
      ensures claimed ==> id in rows && rows[id].status == Processing
                          && rows[id].lockedUntil == Some(WholeSeconds(now) + WholeSeconds(lockTimeout))
      ensures rows == (if claimed then old(rows)[id := Assign(old(rows)[id], Lease(now, lockTimeout))]
                       else old(rows))
    {
      var affected := if id in rows && rows[id].status == Pending then {id} else {};
      rows := Update(rows, affected, Lease(now, lockTimeout));
      claimed := affected != {};
    }

    method MarkEventsProcessed(ids: seq<EventId>, now: nat)
      modifies this`rows
      ensures rows.Keys == old(rows).Keys
      ensures forall id :: id in rows && id in ids ==>
                rows[id] == old(rows)[id].(status := Processed, processedAt := Some(now), lockedUntil := None)
      ensures forall id :: id in rows && id !in ids ==> rows[id] == old(rows)[id]
    {
      if |ids| == 0 {
        return;
      }
      rows := Update(rows, Elements(ids), ToProcessed(now));
    }

    method MarkEventsFailed(ids: seq<EventId>)
      modifies this`rows
      ensures rows.Keys == old(rows).Keys
      ensures forall id :: id in rows && id in ids ==>
                rows[id] == old(rows)[id].(status := Pending, lockedUntil := None)
      ensures forall id :: id in rows && id !in ids ==> rows[id] == old(rows)[id]
    {
      if |ids| == 0 {
        return;
      }
      rows := Update(rows, Elements(ids), ToPending);
    }

    /** RecoverStaleOutboxEvents, with the affected-row count it reports. */
    method RecoverStaleOutboxEvents(now: nat) returns (affected: nat)
      modifies this`rows
      ensures rows == Update(old(rows), StaleIds(old(rows), now), ToPending)
      ensures affected == |StaleIds(old(rows), now)|
      ensures StaleIds(rows, now) == {}
    {
      affected := |StaleIds(rows, now)|;
      rows := Update(rows, StaleIds(rows, now), ToPending);
    }

    /**
     ProcessSingleEvent, the immediate publish after a commit. A failed publish whose mark succeeds
     puts the table back exactly as it was; a failed mark leaves the event to its lease.
     */
    method ProcessSingleEvent(id: EventId, payload: Payload, lockTimeout: nat, now: nat, later: nat,
                              brokerAccepts: bool, markFails: bool)
      returns (result: SingleResult)
      requires LeaseMatchesStatus(rows)
      modifies this`rows
      ensures LeaseMatchesStatus(rows) && KeepsEvents(old(rows), rows)
      ensures result == AlreadyClaimed <==> id !in PendingIds(old(rows))
      ensures result == AlreadyClaimed ==> rows == old(rows)
      ensures result == PublishFailed && !markFails ==> rows == old(rows)
      ensures result == Completed && !markFails ==>
                rows == old(rows)[id := old(rows)[id].(status := Processed, processedAt := Some(later))]
      ensures result != AlreadyClaimed && markFails ==>
                rows == old(rows)[id := Assign(old(rows)[id], Lease(now, lockTimeout))]
      ensures payload.LoggedIn? || payload.RegisteredUser? ==>
                (result == PublishFailed <==> id in old(rows) && old(rows)[id].status == Pending && !brokerAccepts)
      ensures !payload.LoggedIn? && !payload.RegisteredUser? ==> result != PublishFailed
    {
      var claimed := ClaimSingleEvent(id, lockTimeout, now);
      if !claimed {
        return AlreadyClaimed;
      }
      if !ProcessEvent(payload, brokerAccepts) {
        if !markFails {
          MarkEventsFailed([id]);
          assert id in [id];
          assert rows[id] == old(rows)[id];
        }
        return PublishFailed;
      }
      if !markFails {
        MarkEventsProcessed([id], later);
        assert id in [id];
      }
      return Completed;
    }
  }
}
