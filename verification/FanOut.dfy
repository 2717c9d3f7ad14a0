/** The notification fan-out: one push event per other session, inserted in one statement, and the loop it starts. */
module FanOut {
  import opened Common

  datatype SessionItem = SessionItem(sessionId: string, pushToken: string)

  datatype OutboxEvent = OutboxEvent(eventId: nat, eventType: string, payload: Payload,
                                     aggregateType: string, aggregateId: nat, createdAt: nat)

  const PUSH_TYPE: string := "notification.v1.push"

  // ----- The multi-row INSERT -----

  /** A positional argument of the statement. */
  datatype Arg = Id(n: nat) | Text(s: string) | Body(payload: Payload) | Time(t: nat)

  const COLUMNS: nat := 6

  /** Column j of an event, in the order of the statement's column list. */
  function Field(e: OutboxEvent, j: nat): Arg
    requires j < COLUMNS
  {
    match j
    case 0 => Id(e.eventId)
    case 1 => Text(e.eventType)
    case 2 => Body(e.payload)
    case 3 => Text(e.aggregateType)
    case 4 => Id(e.aggregateId)
    case 5 => Time(e.createdAt)
  }

  /** The row the database reads from six arguments; None if their types do not fit the columns. */
  function RowFrom(args: seq<Arg>): Option<OutboxEvent>
    requires |args| == COLUMNS
  {
    if args[0].Id? && args[1].Text? && args[2].Body? && args[3].Text? && args[4].Id? && args[5].Time?
    then Some(OutboxEvent(args[0].n, args[1].s, args[2].payload, args[3].s, args[4].n, args[5].t))
    else None
  }

  /** The rows a statement with `rows` placeholder groups inserts. */
  function InsertedRows(rows: nat, args: seq<Arg>): Option<seq<OutboxEvent>>
    decreases rows
  {
    if rows == 0 then (if args == [] then Some([]) else None)
    else if |args| < COLUMNS then None
    else
      var first, rest := RowFrom(args[..COLUMNS]), InsertedRows(rows - 1, args[COLUMNS..]);
      if first.None? || rest.None? then None else Some([first.value] + rest.value)
  }

  const PLACEHOLDER: string := "(?, ?, ?, ?, ?, ?)"

  /** InsertOutboxEvents up to the database call: argument 6i + j is field j of event i. */
  method BuildInsert(events: seq<OutboxEvent>) returns (placeholders: seq<string>, args: seq<Arg>)
    ensures |placeholders| == |events| && forall i :: 0 <= i < |events| ==> placeholders[i] == PLACEHOLDER
    ensures |args| == 6 * |events|
    ensures forall i :: 0 <= i < |events| ==>
              var e := events[i];
              && args[6 * i] == Id(e.eventId) && args[6 * i + 1] == Text(e.eventType)
              && args[6 * i + 2] == Body(e.payload) && args[6 * i + 3] == Text(e.aggregateType)
              && args[6 * i + 4] == Id(e.aggregateId) && args[6 * i + 5] == Time(e.createdAt)
    ensures forall i, j :: 0 <= i < |events| && 0 <= j < COLUMNS ==> args[COLUMNS * i + j] == Field(events[i], j)
  {
    placeholders, args := [], [];
    var k := 0;
    while k < |events|
      invariant 0 <= k <= |events| && |placeholders| == k && |args| == COLUMNS * k
      invariant forall i :: 0 <= i < k ==> placeholders[i] == PLACEHOLDER
      invariant forall i, j :: 0 <= i < k && 0 <= j < COLUMNS ==> args[COLUMNS * i + j] == Field(events[i], j)
    {
      var e := events[k];
      placeholders := placeholders + [PLACEHOLDER];
      args := args + [Id(e.eventId), Text(e.eventType), Body(e.payload),
                      Text(e.aggregateType), Id(e.aggregateId), Time(e.createdAt)];
      k := k + 1;
    }
    forall i | 0 <= i < |events|
      ensures var e := events[i];
              && args[6 * i] == Id(e.eventId) && args[6 * i + 1] == Text(e.eventType)
              && args[6 * i + 2] == Body(e.payload) && args[6 * i + 3] == Text(e.aggregateType)
              && args[6 * i + 4] == Id(e.aggregateId) && args[6 * i + 5] == Time(e.createdAt)
    {
      assert args[COLUMNS * i + 0] == Field(events[i], 0) && args[COLUMNS * i + 1] == Field(events[i], 1);
      assert args[COLUMNS * i + 2] == Field(events[i], 2) && args[COLUMNS * i + 3] == Field(events[i], 3);
      assert args[COLUMNS * i + 4] == Field(events[i], 4) && args[COLUMNS * i + 5] == Field(events[i], 5);
    }
  }

  /** The database reads back exactly the events, in order. */
  lemma {:induction false} InsertRoundTrip(events: seq<OutboxEvent>, args: seq<Arg>)
    requires |args| == COLUMNS * |events|
    requires forall i, j :: 0 <= i < |events| && 0 <= j < COLUMNS ==> args[COLUMNS * i + j] == Field(events[i], j)
    ensures InsertedRows(|events|, args) == Some(events)
  {
    if events != [] {
      var rest := args[COLUMNS..];
      forall j | 0 <= j < COLUMNS ensures args[..COLUMNS][j] == Field(events[0], j) {
        assert args[COLUMNS * 0 + j] == Field(events[0], j);
      }
      forall i, j | 0 <= i < |events[1..]| && 0 <= j < COLUMNS
        ensures rest[COLUMNS * i + j] == Field(events[1..][i], j)
      {
        assert rest[COLUMNS * i + j] == args[COLUMNS * (i + 1) + j];
      }
      InsertRoundTrip(events[1..], rest);
      assert events == [events[0]] + events[1..];
    }
  }

  // ----- handleNewSession -----

  /** The sessions to notify: all but the one that just logged in, in order. */
  function Others(sessions: seq<SessionItem>, newSession: string): seq<SessionItem> {
    if sessions == [] then []
    else Others(sessions[..|sessions| - 1], newSession)
         + (if sessions[|sessions| - 1].sessionId == newSession then [] else [sessions[|sessions| - 1]])
  }

  /**
   Exactly the sessions with another id, each once and in their order: `at` lists the places they come from.
   */
  lemma {:induction false} OthersExactly(sessions: seq<SessionItem>, newSession: string) returns (at: seq<nat>)
    ensures |at| == |Others(sessions, newSession)|
    ensures forall k :: 0 <= k < |at| ==> at[k] < |sessions| && Others(sessions, newSession)[k] == sessions[at[k]]
    ensures forall j, k :: 0 <= j < k < |at| ==> at[j] < at[k]
    ensures forall i: nat :: i < |sessions| ==> (i in at <==> sessions[i].sessionId != newSession)
  {
    if sessions == [] {
      at := [];
    } else {
      var init, last := sessions[..|sessions| - 1], |sessions| - 1;
      at := OthersExactly(init, newSession);
      assert forall i: nat :: i < |init| ==> init[i] == sessions[i];
      if sessions[last].sessionId != newSession {
        at := at + [last];
      }
    }
  }

  function PushFor(item: SessionItem, user: nat): Payload {
    PushNotification(item.sessionId, item.pushToken, user)
  }

  function PushEvent(item: SessionItem, user: nat, id: nat, now: nat): OutboxEvent {
    OutboxEvent(id, PUSH_TYPE, PushFor(item, user), "user", user, now)
  }

  class NotificationOutbox {
    var rows: seq<OutboxEvent>

    /** ExecContext: the whole statement succeeds or nothing is inserted. */
    method InsertOutboxEvents(events: seq<OutboxEvent>, fails: bool) returns (ok: bool)
      modifies this
      ensures ok <==> events == [] || !fails
      ensures rows == if ok then old(rows) + events else old(rows)
    {
      if |events| == 0 {
        return true;
      }
      var placeholders, args := BuildInsert(events);
      InsertRoundTrip(events, args);
      if fails {
        return false;
      }
      var inserted := InsertedRows(|placeholders|, args);
      rows := rows + inserted.value;
      return true;
    }

    /**
     handleNewSession: all or nothing, one push event per active session other than the new one, in the order
     in which the sessions were listed, under fresh ids.
     */
    method HandleNewSession(sessions: Option<seq<SessionItem>>, newSession: string, user: nat, firstId: nat, now: nat,
                            insertFails: bool)
      returns (ok: bool)
      modifies this
      ensures ok <==> sessions.Some? && (Others(sessions.value, newSession) == [] || !insertFails)
      ensures !ok ==> rows == old(rows)
      ensures ok ==> |rows| == |old(rows)| + |Others(sessions.value, newSession)| && rows[..|old(rows)|] == old(rows)
      ensures ok ==> forall k :: 0 <= k < |Others(sessions.value, newSession)| ==>
                var item := Others(sessions.value, newSession)[k];
                rows[|old(rows)| + k] == OutboxEvent(
                  eventId := firstId + k, eventType := "notification.v1.push",
                  payload := PushNotification(target := item.sessionId, pushToken := item.pushToken, user := user),
                  aggregateType := "user", aggregateId := user, createdAt := now)
    {
      if sessions.None? {
        return false;
      }
      var events: seq<OutboxEvent> := [];
      var i := 0;
      while i < |sessions.value|
        invariant 0 <= i <= |sessions.value|
        invariant |events| == |Others(sessions.value[..i], newSession)|
        invariant forall k :: 0 <= k < |events| ==>
                    events[k] == PushEvent(Others(sessions.value[..i], newSession)[k], user, firstId + k, now)
      {
        assert sessions.value[..i + 1][..i] == sessions.value[..i];
        if sessions.value[i].sessionId != newSession {
          events := events + [PushEvent(sessions.value[i], user, firstId + |events|, now)];
        }
        i := i + 1;
      }
      assert sessions.value[..|sessions.value|] == sessions.value;
      ok := InsertOutboxEvents(events, insertFails);
    }
  }

  // ----- The loop through the service's own queue -----

  function Pushes(items: seq<SessionItem>, user: nat): seq<Payload> {
    seq(|items|, i requires 0 <= i < |items| => PushFor(items[i], user))
  }

  /** The messages that handling one message puts back into the queue. */
  function Spawned(sessionsOf: nat -> seq<SessionItem>, p: Payload): seq<Payload> {
    match p
    case LoggedIn(session, user) => Pushes(Others(sessionsOf(user), session), user)
    case _ => []
  }

  /** A login spawns one push per other session, in order; nothing else spawns anything. */
  lemma SpawnedExactly(sessionsOf: nat -> seq<SessionItem>, p: Payload)
    ensures !p.LoggedIn? ==> Spawned(sessionsOf, p) == []
    ensures p.LoggedIn? ==> |Spawned(sessionsOf, p)| == |Others(sessionsOf(p.user), p.session)|
    ensures p.LoggedIn? ==> forall k :: 0 <= k < |Spawned(sessionsOf, p)| ==>
              var item := Others(sessionsOf(p.user), p.session)[k];
              Spawned(sessionsOf, p)[k]
              == PushNotification(target := item.sessionId, pushToken := item.pushToken, user := p.user)
  {
  }

  /** The notifications that a queue is going to send in the end. */
  ghost function Due(sessionsOf: nat -> seq<SessionItem>, queue: seq<Payload>): multiset<Payload> {
    if queue == [] then multiset{}
    else Due(sessionsOf, queue[..|queue| - 1])
         + (if queue[|queue| - 1].PushNotification? then multiset{queue[|queue| - 1]}
            else multiset(Spawned(sessionsOf, queue[|queue| - 1])))
  }

  ghost function Logins(queue: seq<Payload>): nat {
    if queue == [] then 0 else Logins(queue[..|queue| - 1]) + (if queue[|queue| - 1].LoggedIn? then 1 else 0)
  }

  lemma {:induction false} DueConcat(sessionsOf: nat -> seq<SessionItem>, a: seq<Payload>, b: seq<Payload>)
    ensures Due(sessionsOf, a + b) == Due(sessionsOf, a) + Due(sessionsOf, b)
    ensures Logins(a + b) == Logins(a) + Logins(b)
    decreases |b|
  {
    if b == [] {
      assert a + b == a;
    } else {
      DueConcat(sessionsOf, a, b[..|b| - 1]);
      assert (a + b)[..|a + b| - 1] == a + b[..|b| - 1];
    }
  }

  lemma {:induction false} DueOfPushes(sessionsOf: nat -> seq<SessionItem>, pushes: seq<Payload>)
    requires forall i :: 0 <= i < |pushes| ==> pushes[i].PushNotification?
    ensures Due(sessionsOf, pushes) == multiset(pushes) && Logins(pushes) == 0
  {
    if pushes != [] {
      var init := pushes[..|pushes| - 1];
      DueOfPushes(sessionsOf, init);
      assert pushes == init + [pushes[|pushes| - 1]];
    }
  }

  lemma DueOfOne(sessionsOf: nat -> seq<SessionItem>, m: Payload)
    ensures Due(sessionsOf, [m]) == if m.PushNotification? then multiset{m} else Due(sessionsOf, Spawned(sessionsOf, m))
    ensures Logins([m]) == if m.LoggedIn? then 1 else 0
    ensures Logins(Spawned(sessionsOf, m)) == 0
    ensures !m.LoggedIn? ==> Spawned(sessionsOf, m) == []
  {
    assert [m][..0] == [];
    DueOfPushes(sessionsOf, Spawned(sessionsOf, m));
  }

  /** Handling message i and queueing what it spawns keeps what is due, minus what was sent, and shrinks the loop. */
  lemma HandleOne(sessionsOf: nat -> seq<SessionItem>, before: seq<Payload>, m: Payload, after: seq<Payload>,
                  queue': seq<Payload>)
    requires queue' == before + after + Spawned(sessionsOf, m)
    ensures Due(sessionsOf, before + [m] + after)
         == Due(sessionsOf, queue') + (if m.PushNotification? then multiset{m} else multiset{})
    ensures Logins(queue') == Logins(before + [m] + after) - (if m.LoggedIn? then 1 else 0)
    ensures !m.LoggedIn? ==> |queue'| < |before + [m] + after|
  {
    DueOfOne(sessionsOf, m);
    DueConcat(sessionsOf, before + [m], after);
    DueConcat(sessionsOf, before, [m]);
    DueConcat(sessionsOf, before + after, Spawned(sessionsOf, m));
    DueConcat(sessionsOf, before, after);
  }

  lemma HandleAt(sessionsOf: nat -> seq<SessionItem>, queue: seq<Payload>, i: nat, queue': seq<Payload>)
    requires i < |queue| && queue' == queue[..i] + queue[i + 1..] + Spawned(sessionsOf, queue[i])
    ensures Due(sessionsOf, queue)
         == Due(sessionsOf, queue') + (if queue[i].PushNotification? then multiset{queue[i]} else multiset{})
    ensures Logins(queue') < Logins(queue) || (Logins(queue') == Logins(queue) && |queue'| < |queue|)
  {
    assert queue == queue[..i] + [queue[i]] + queue[i + 1..];
    HandleOne(sessionsOf, queue[..i], queue[i], queue[i + 1..], queue');
  }

  /**
   Delivering the service's queue in any order, each login feeding its push events back into the queue: the loop
   ends, and the notifications sent are exactly those that were due at the start.
   */
  method RunToQuiescence(sessionsOf: nat -> seq<SessionItem>, start: seq<Payload>) returns (sent: seq<Payload>)
    ensures multiset(sent) == Due(sessionsOf, start)
  {
    var queue := start;
    sent := [];
    while queue != []
      invariant multiset(sent) + Due(sessionsOf, queue) == Due(sessionsOf, start)
      decreases Logins(queue), |queue|
    {
      var i: nat :| i < |queue|;
      var next := queue[..i] + queue[i + 1..] + Spawned(sessionsOf, queue[i]);
      HandleAt(sessionsOf, queue, i, next);
      if queue[i].PushNotification? {
        sent := sent + [queue[i]];
      }
      queue := next;
    }
  }
}
