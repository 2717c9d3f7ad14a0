/**
 The SSE hub: one buffered channel per online user. The listener looks a channel up under the lock and sends
 to it after releasing the lock, so connects, disconnects and shutdown may come in between.
 */
module Hub {
  import opened Common

  type UserId = string
  type ChanId = nat

  const CAPACITY: nat := 10

  /** `received` and `buffer` are what readers have taken and what waits; `closes` counts close(ch) calls. */
  datatype Chan = Chan(user: UserId, received: seq<string>, buffer: seq<string>, closes: nat)

  /** The listener's message between its lookup and its send. */
  datatype Pending = Pending(chan: ChanId, user: UserId, msg: string)

  datatype State = State(online: map<UserId, ChanId>, chans: seq<Chan>, pending: Option<Pending>,
                         notified: map<UserId, seq<string>>, panicked: bool)

  const EMPTY: State := State(map[], [], None, map[], false)

  datatype Action =
    | Connect(user: UserId)
    | Disconnect(user: UserId)
    | Lookup(user: UserId, msg: string)
    | Send
    | Receive(chan: ChanId)
    | CloseAll

  function Notified(s: State, user: UserId): seq<string> {
    if user in s.notified then s.notified[user] else []
  }

  ghost predicate Enabled(s: State, a: Action) {
    match a
    case Connect(_) => true
    case Disconnect(_) => true
    case Lookup(_, _) => s.pending.None? && !s.panicked
    case Send => s.pending.Some? && s.pending.value.chan < |s.chans|
    case Receive(c) => c < |s.chans| && s.chans[c].buffer != []
    case CloseAll => forall u :: u in s.online ==> s.online[u] < |s.chans|
  }

  function Closed(c: Chan): Chan {
    c.(closes := c.closes + 1)
  }

  /** close(ch) for every channel in `which`. */
  ghost function CloseEach(chans: seq<Chan>, which: set<ChanId>): seq<Chan> {
    seq(|chans|, i requires 0 <= i < |chans| => if i in which then Closed(chans[i]) else chans[i])
  }

  ghost function OnlineChans(s: State): set<ChanId> {
    set u | u in s.online :: s.online[u]
  }

  /** A send that never blocks: dropped when the buffer is full, a panic when the channel is closed. */
  ghost function AfterSend(s: State): State
    requires s.pending.Some? && s.pending.value.chan < |s.chans|
  {
    var p := s.pending.value;
    var c := s.chans[p.chan];
    if c.closes > 0 then s.(pending := None, panicked := true)
    else if |c.buffer| < CAPACITY then s.(pending := None, chans := s.chans[p.chan := c.(buffer := c.buffer + [p.msg])])
    else s.(pending := None)
  }

  ghost function Apply(s: State, a: Action): State
    requires Enabled(s, a)
  {
    match a
    case Connect(user) =>
      s.(chans := CloseEach(s.chans, if user in s.online then {s.online[user]} else {}) + [Chan(user, [], [], 0)],
         online := s.online[user := |s.chans|])
    case Disconnect(user) => s.(online := s.online - {user})
    case Lookup(user, msg) =>
      s.(notified := s.notified[user := Notified(s, user) + [msg]],
         pending := if user in s.online then Some(Pending(s.online[user], user, msg)) else None)
    case Send => AfterSend(s)
    case Receive(c) =>
      s.(chans := s.chans[c := s.chans[c].(received := s.chans[c].received + [s.chans[c].buffer[0]],
                                           buffer := s.chans[c].buffer[1..])])
    case CloseAll => s.(chans := CloseEach(s.chans, OnlineChans(s)), online := map[])
  }

  ghost predicate Valid(s: State, run: seq<Action>)
    decreases |run|
  {
    run == [] || (Enabled(s, run[0]) && Valid(Apply(s, run[0]), run[1..]))
  }

  ghost function Exec(s: State, run: seq<Action>): State
    requires Valid(s, run)
    decreases |run|
  {
    if run == [] then s else Exec(Apply(s, run[0]), run[1..])
  }

  /** `a` is `b` with some elements left out, order kept. */
  predicate Subsequence(a: seq<string>, b: seq<string>) {
    if a == [] then true
    else if b == [] then false
    else Subsequence(a, b[..|b| - 1]) || (a[|a| - 1] == b[|b| - 1] && Subsequence(a[..|a| - 1], b[..|b| - 1]))
  }

  lemma SubsequenceAppend(a: seq<string>, b: seq<string>, x: string)
    requires Subsequence(a, b)
    ensures Subsequence(a, b + [x]) && Subsequence(a + [x], b + [x])
  {
    assert (b + [x])[..|b|] == b && (a + [x])[..|a|] == a;
  }

  /** What the channel has been given so far. */
  function Carried(c: Chan): seq<string> {
    c.received + c.buffer
  }

  /** The user's messages that the listener is done with. */
  function Settled(s: State, user: UserId): seq<string> {
    var all := Notified(s, user);
    if s.pending.Some? && s.pending.value.user == user && all != [] then all[..|all| - 1] else all
  }

  ghost predicate ChanOk(s: State, i: ChanId)
    requires i < |s.chans|
  {
    && s.chans[i].closes <= 1
    && |s.chans[i].buffer| <= CAPACITY
    && Subsequence(Carried(s.chans[i]), Settled(s, s.chans[i].user))
  }

  ghost predicate Inv(s: State) {
    && (forall i :: 0 <= i < |s.chans| ==> ChanOk(s, i))
    && (forall u :: u in s.online ==>
          s.online[u] < |s.chans| && s.chans[s.online[u]].user == u && s.chans[s.online[u]].closes == 0)
    && (s.pending.Some? ==>
          && s.pending.value.chan < |s.chans| && s.chans[s.pending.value.chan].user == s.pending.value.user
          && Notified(s, s.pending.value.user) != []
          && Notified(s, s.pending.value.user)[|Notified(s, s.pending.value.user)| - 1] == s.pending.value.msg)
  }

  /** What the listener has finished with only grows: by the pending message, when it is sent or dropped. */
  lemma SettledGrows(s: State, a: Action, user: UserId)
    requires Inv(s) && Enabled(s, a)
    ensures var done, done' := Settled(s, user), Settled(Apply(s, a), user);
            done' == done || (exists x :: done' == done + [x])
    ensures a.Send? && s.pending.value.user == user ==>
              Settled(Apply(s, a), user) == Settled(s, user) + [s.pending.value.msg]
  {
    var s' := Apply(s, a);
    var all, all' := Notified(s, user), Notified(s', user);
    if a.Lookup? && a.user == user {
      assert all' == all + [a.msg] && all'[..|all|] == all;
    }
    if a.Send? && s.pending.value.user == user {
      assert all == all[..|all| - 1] + [s.pending.value.msg];
    }
  }

  lemma ReceiveShape(s: State, i: ChanId)
    requires Inv(s) && Enabled(s, Receive(i))
    ensures var c, c' := s.chans[i], Apply(s, Receive(i)).chans[i];
            Carried(c') == Carried(c) && c'.user == c.user && c'.closes == c.closes && |c'.buffer| <= CAPACITY
  {
    assert ChanOk(s, i);
    var c := s.chans[i];
    assert [c.buffer[0]] + c.buffer[1..] == c.buffer;
    assert c.received + [c.buffer[0]] + c.buffer[1..] == c.received + c.buffer;
  }

  lemma SendShape(s: State, i: ChanId)
    requires Inv(s) && Enabled(s, Send) && i < |s.chans|
    ensures var c, c' := s.chans[i], Apply(s, Send).chans[i];
            && c'.user == c.user && c'.closes == c.closes && |c'.buffer| <= CAPACITY
            && (|| Carried(c') == Carried(c)
                || (s.pending.value.chan == i && Carried(c') == Carried(c) + [s.pending.value.msg]))
  {
    assert ChanOk(s, i);
    var c, c' := s.chans[i], Apply(s, Send).chans[i];
    if c' != c {
      assert Carried(c') == Carried(c) + [s.pending.value.msg];
    }
  }

  /** What one step can do to a channel that exists. */
  lemma ChanShape(s: State, a: Action, i: ChanId)
    requires Inv(s) && Enabled(s, a) && i < |s.chans|
    ensures i < |Apply(s, a).chans| && Apply(s, a).chans[i].user == s.chans[i].user
    ensures |Apply(s, a).chans[i].buffer| <= CAPACITY && Apply(s, a).chans[i].closes <= 1
    ensures || Carried(Apply(s, a).chans[i]) == Carried(s.chans[i])
            || (&& a.Send? && s.pending.value.chan == i
                && Carried(Apply(s, a).chans[i]) == Carried(s.chans[i]) + [s.pending.value.msg])
  {
    assert ChanOk(s, i);
    if a == Receive(i) {
      ReceiveShape(s, i);
    } else if a.Send? {
      SendShape(s, i);
    }
  }

  lemma StepKeepsChanOk(s: State, a: Action, i: ChanId)
    requires Inv(s) && Enabled(s, a) && i < |Apply(s, a).chans|
    ensures ChanOk(Apply(s, a), i)
  {
    var s' := Apply(s, a);
    if i < |s.chans| {
      assert ChanOk(s, i);
      ChanShape(s, a, i);
      var user := s.chans[i].user;
      var carried, done, done' := Carried(s.chans[i]), Settled(s, user), Settled(s', user);
      SettledGrows(s, a, user);
      if done' != done {
        var x :| done' == done + [x];
        SubsequenceAppend(carried, done, x);
      }
      if Carried(s'.chans[i]) != carried {
        SubsequenceAppend(carried, done, s.pending.value.msg);
      }
    } else {
      assert Carried(s'.chans[i]) == [];
    }
  }

  /** The map and the listener's pending message stay in step with the channels. */
  lemma StepKeepsMap(s: State, a: Action)
    requires Inv(s) && Enabled(s, a)
    ensures var s' := Apply(s, a);
            && (forall u :: u in s'.online ==>
                  s'.online[u] < |s'.chans| && s'.chans[s'.online[u]].user == u && s'.chans[s'.online[u]].closes == 0)
            && (s'.pending.Some? ==> s'.pending.value.chan < |s'.chans|)
            && (s'.pending.Some? ==> s'.chans[s'.pending.value.chan].user == s'.pending.value.user)
  {
  }

  lemma StepKeepsInv(s: State, a: Action)
    requires Inv(s) && Enabled(s, a)
    ensures Inv(Apply(s, a))
  {
    var s' := Apply(s, a);
    StepKeepsMap(s, a);
    forall i | 0 <= i < |s'.chans| ensures ChanOk(s', i) {
      StepKeepsChanOk(s, a, i);
    }
  }

  lemma {:induction false} RunKeepsInv(s: State, run: seq<Action>)
    requires Inv(s) && Valid(s, run)
    ensures Inv(Exec(s, run))
    decreases |run|
  {
    if run != [] {
      StepKeepsInv(s, run[0]);
      RunKeepsInv(Apply(s, run[0]), run[1..]);
    }
  }

  /**
   Over every run: no channel is closed twice, none in the map is closed, at most ten messages wait in a
   buffer, and what a channel carries is an in-order selection of its user's messages.
   */
  lemma ChannelsAreWellBehaved(run: seq<Action>)
    requires Valid(EMPTY, run)
    ensures var s := Exec(EMPTY, run);
            && (forall i :: 0 <= i < |s.chans| ==>
                  && s.chans[i].closes <= 1 && |s.chans[i].buffer| <= 10
                  && Subsequence(Carried(s.chans[i]), Settled(s, s.chans[i].user)))
            && (forall u :: u in s.online ==> s.online[u] < |s.chans| && s.chans[s.online[u]].closes == 0)
  {
    RunKeepsInv(EMPTY, run);
    var s := Exec(EMPTY, run);
    forall i | 0 <= i < |s.chans|
      ensures s.chans[i].closes <= 1 && |s.chans[i].buffer| <= CAPACITY
      ensures Subsequence(Carried(s.chans[i]), Settled(s, s.chans[i].user))
    {
      assert ChanOk(s, i);
    }
  }

  // ----- When a send panics -----

  ghost predicate SendFree(run: seq<Action>) {
    forall i :: 0 <= i < |run| ==> !run[i].Send?
  }

  /** The step takes the user's channel out of the map. */
  predicate IsExit(a: Action, user: UserId) {
    a == Connect(user) || a == Disconnect(user) || a == CloseAll
  }

  /** The first step of a run that takes the user's channel out of the map. */
  function FirstExit(run: seq<Action>, user: UserId): Option<Action> {
    if run == [] then None
    else if IsExit(run[0], user) then Some(run[0])
    else FirstExit(run[1..], user)
  }

  /** The user's channel is closed as it leaves the map: by a reconnect or by shutdown, not by a disconnect. */
  predicate LeavesClosed(run: seq<Action>, user: UserId) {
    var exit := FirstExit(run, user);
    exit.Some? && exit.value != Disconnect(user)
  }

  /** A channel that has left the map is never closed again. */
  lemma {:induction false} ClosesStayAfterExit(s: State, run: seq<Action>, ch: ChanId)
    requires Inv(s) && Valid(s, run) && SendFree(run) && s.pending.Some? && ch < |s.chans|
    requires forall u :: u in s.online ==> s.online[u] != ch
    ensures Exec(s, run).pending == s.pending && Exec(s, run).panicked == s.panicked
    ensures ch < |Exec(s, run).chans| && Exec(s, run).chans[ch].closes == s.chans[ch].closes
    decreases |run|
  {
    if run != [] {
      StepKeepsInv(s, run[0]);
      ClosesStayAfterExit(Apply(s, run[0]), run[1..], ch);
    }
  }

  /** What an exit does to the user's channel. */
  lemma ExitStep(s: State, a: Action, user: UserId)
    requires Inv(s) && Enabled(s, a) && user in s.online && IsExit(a, user)
    ensures var s' := Apply(s, a);
            && (forall u :: u in s'.online ==> s'.online[u] != s.online[user])
            && s.online[user] < |s'.chans|
            && (s'.chans[s.online[user]].closes > 0 <==> a != Disconnect(user))
  {
    var s' := Apply(s, a);
    forall u | u in s'.online ensures s'.online[u] != s.online[user] {
      if u != user {
        assert s.chans[s.online[u]].user == u;
      }
    }
  }

  /** A channel in the map is closed by the time of the send exactly when it leaves the map closed. */
  lemma {:induction false} ClosedExactlyByExit(s: State, run: seq<Action>, user: UserId)
    requires Inv(s) && Valid(s, run) && SendFree(run) && s.pending.Some? && user in s.online
    ensures Exec(s, run).pending == s.pending && Exec(s, run).panicked == s.panicked
    ensures s.online[user] < |Exec(s, run).chans|
    ensures Exec(s, run).chans[s.online[user]].closes > 0 <==> LeavesClosed(run, user)
    decreases |run|
  {
    if run != [] {
      var s' := Apply(s, run[0]);
      StepKeepsInv(s, run[0]);
      if IsExit(run[0], user) {
        ExitStep(s, run[0], user);
        ClosesStayAfterExit(s', run[1..], s.online[user]);
      } else {
        ClosedExactlyByExit(s', run[1..], user);
      }
    }
  }

  /**
   Exactly when the listener panics: between its lookup and its send, the first step that takes the channel out
   of the map is a reconnect of that user or the hub's shutdown.
   */
  lemma SendPanicsExactlyWhen(run: seq<Action>, user: UserId, msg: string, between: seq<Action>)
    requires Valid(EMPTY, run) && Enabled(Exec(EMPTY, run), Lookup(user, msg)) && user in Exec(EMPTY, run).online
    requires Valid(Apply(Exec(EMPTY, run), Lookup(user, msg)), between) && SendFree(between)
    ensures var s := Exec(Apply(Exec(EMPTY, run), Lookup(user, msg)), between);
            Enabled(s, Send) && (Apply(s, Send).panicked <==> LeavesClosed(between, user))
  {
    RunKeepsInv(EMPTY, run);
    var looked := Apply(Exec(EMPTY, run), Lookup(user, msg));
    StepKeepsInv(Exec(EMPTY, run), Lookup(user, msg));
    ClosedExactlyByExit(looked, between, user);
  }

  /**
   A send to a channel that is still open arrives behind what waits there already, exactly when fewer than ten
   messages do; otherwise it is dropped. No other channel, and nothing already delivered, is touched.
   */
  lemma SendArrivesExactlyWithRoom(run: seq<Action>, c: ChanId)
    requires Valid(EMPTY, run) && Enabled(Exec(EMPTY, run), Send) && c < |Exec(EMPTY, run).chans|
    ensures var s, s' := Exec(EMPTY, run), Apply(Exec(EMPTY, run), Send);
            var p := s.pending.value;
            && s'.online == s.online && s'.pending == None && |s'.chans| == |s.chans|
            && s'.chans[c].user == s.chans[c].user && s'.chans[c].closes == s.chans[c].closes
            && s'.chans[c].received == s.chans[c].received
            && s'.chans[c].buffer == (if c == p.chan && s.chans[c].closes == 0 && |s.chans[c].buffer| < 10
                                      then s.chans[c].buffer + [p.msg] else s.chans[c].buffer)
  {
  }

  /** The race is real: whenever a user is online, a reconnect between the lookup and the send is fatal. */
  lemma ReconnectDuringSendPanics(run: seq<Action>, user: UserId, msg: string)
    requires Valid(EMPTY, run) && Enabled(Exec(EMPTY, run), Lookup(user, msg)) && user in Exec(EMPTY, run).online
    ensures var s1 := Apply(Exec(EMPTY, run), Lookup(user, msg));
            var s2 := Apply(s1, Connect(user));
            Enabled(s2, Send) && Apply(s2, Send).panicked
  {
    RunKeepsInv(EMPTY, run);
  }
}
