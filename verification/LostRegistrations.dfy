/**
 When a registration can no longer lead to a wallet. A delivery whose handler failed is acknowledged as soon as
 MarkFailed succeeds, and a rejected one only comes back if the topology returns expired retries, which the deployed
 one does not; so a registration can be lost. This module characterises the states in which that has happened.
 */
module LostRegistrations {
  import opened Common
  import opened OutboxTable
  import opened Registration
  import A = AtomicOutbox
  import D = Delivery
  import P = OutboxProgress
  import S = SqlOutbox
  import Sub = WalletSubscriber

  /** A worker, heard by the broker or not, is about to insert the user's wallet. */
  ghost predicate WorkingFor(s: State, w: WorkerId, user: UserId) {
    && w in s.jobs && !s.jobs[w].stage.Handled?
    && s.jobs[w].msg in s.messages && s.messages[s.jobs[w].msg] == RegisteredUser(user)
  }

  ghost predicate IsRowOf(s: State, e: EventId, user: UserId) {
    e in s.outbox.rows && s.outbox.rows[e].payload == RegisteredUser(user)
  }

  /**
   Nothing in the system will lead to the user's wallet any more: no copy of the message can reach a worker, none is
   being worked on, and the outbox will not publish the event again.
   */
  ghost predicate Lost(cfg: D.Config, s: State, user: UserId) {
    && !Sub.HasWallet(s.wallets, user)
    && !Announced(cfg, s, user)
    && (forall w :: !WorkingFor(s, w, user))
    && (forall e :: IsRowOf(s, e, user) ==> S.Settled(s.outbox, e))
  }

  // ----- Lost registrations stay lost -----

  lemma StepKeepsSettled(cfg: D.Config, s: State, a: Action, s': State, user: UserId, e: EventId)
    requires OutboxInv(s) && Ready(cfg, s, a) && OutboxFacts(s, a, s') && user in s.users && Lost(cfg, s, user)
    requires IsRowOf(s', e, user)
    ensures S.Settled(s'.outbox, e)
  {
    assert IsRowOf(s, e, user);
  }

  /** A new message does not announce the user. */
  lemma NewMessagesAreOthers(cfg: D.Config, s: State, a: Action, s': State, user: UserId, m: MsgId)
    requires Ready(cfg, s, a) && OutboxFacts(s, a, s') && Lost(cfg, s, user)
    requires s'.messages == MessagesAfter(cfg, s, a) && m in s'.messages && s'.messages[m] == RegisteredUser(user)
    ensures m in s.messages && s.messages[m] == RegisteredUser(user) && !(Stores(cfg, s, a) && a.msg == m)
  {
    if Stores(cfg, s, a) {
      assert !IsRowOf(s, s.outbox.claims[a.claim].event, user);
    }
  }

  /** A copy that can reach a worker comes from one that could, unless it was just published. */
  lemma AnnouncementsComeFrom(cfg: D.Config, s: State, a: Action, s': State, user: UserId, i: D.InstId)
    requires Ready(cfg, s, a) && BrokerFacts(cfg, s, a, s') && i in s'.broker.insts
    requires var m := s'.broker.insts[i].msg;
             m in s.messages && s.messages[m] == RegisteredUser(user) && !(Stores(cfg, s, a) && a.msg == m)
    requires D.Deliverable(cfg, s'.broker.insts[i].place)
    ensures Announced(cfg, s, user)
  {
    var m, b := s'.broker.insts[i].msg, BrokerActionOf(cfg, s, a);
    if b.Some? {
      assert D.Comes(cfg, s.broker, b.value, s'.broker.insts[i]);
      var j :| j in s.broker.insts && s.broker.insts[j].msg == m && D.Deliverable(cfg, s.broker.insts[j].place);
    }
  }

  /** A worker's delivery was its own before, or was waiting in the queue. */
  lemma WorkComesFrom(cfg: D.Config, s: State, a: Action, s': State, user: UserId, w: WorkerId)
    requires Ready(cfg, s, a) && BrokerFacts(cfg, s, a, s') && s'.jobs == JobsAfter(cfg, s, a)
    requires WorkingFor(s', w, user)
    requires s'.jobs[w].msg in s.messages && s.messages[s'.jobs[w].msg] == RegisteredUser(user)
    ensures WorkingFor(s, w, user) || Announced(cfg, s, user)
  {
    JobStep(cfg, s, a, w, s'.jobs[w]);
    if a.Deliver? && a.worker == w {
      assert D.InPlace(s.broker, a.inst, D.Main) && s.broker.insts[a.inst].msg == s'.jobs[w].msg;
    }
  }

  lemma StepKeepsUnserved(cfg: D.Config, s: State, a: Action, s': State, user: UserId)
    requires Ready(cfg, s, a) && Lost(cfg, s, user) && s'.wallets == WalletsAfter(cfg, s, a)
    ensures !Sub.HasWallet(s'.wallets, user)
  {
    StepServes(cfg, s, a);
    assert a.InsertWallet? ==> !WorkingFor(s, a.worker, user);
    assert user !in ServedBy(cfg, s, a) && user !in Sub.Owners(s'.wallets);
  }

  lemma FactsKeepLost(cfg: D.Config, s: State, a: Action, s': State, user: UserId)
    requires OutboxInv(s) && Facts(cfg, s, a, s') && user in s.users && Lost(cfg, s, user)
    ensures Lost(cfg, s', user)
  {
    StepKeepsUnserved(cfg, s, a, s', user);
    forall e | IsRowOf(s', e, user) ensures S.Settled(s'.outbox, e) { StepKeepsSettled(cfg, s, a, s', user, e); }
    forall w ensures !WorkingFor(s', w, user) {
      if WorkingFor(s', w, user) {
        NewMessagesAreOthers(cfg, s, a, s', user, s'.jobs[w].msg);
        WorkComesFrom(cfg, s, a, s', user, w);
      }
    }
    if Announced(cfg, s', user) {
      var i :| && i in s'.broker.insts && D.Deliverable(cfg, s'.broker.insts[i].place)
               && s'.broker.insts[i].msg in s'.messages
               && s'.messages[s'.broker.insts[i].msg] == RegisteredUser(user);
      NewMessagesAreOthers(cfg, s, a, s', user, s'.broker.insts[i].msg);
      AnnouncementsComeFrom(cfg, s, a, s', user, i);
    }
  }

  /** A lost registration stays lost: no continuation whatever gives the user a wallet. */
  lemma {:induction false} LostForGood(cfg: D.Config, s: State, run: seq<Action>, user: UserId)
    requires Inv(cfg, s) && Valid(cfg, s, run) && user in s.users && Lost(cfg, s, user)
    ensures Lost(cfg, Exec(cfg, s, run), user)
    decreases |run|
  {
    if run != [] {
      StepHasFacts(cfg, s, run[0]);
      FactsKeepLost(cfg, s, run[0], Apply(cfg, s, run[0]), user);
      StepKeepsInv(cfg, s, run[0]);
      LostForGood(cfg, Apply(cfg, s, run[0]), run[1..], user);
    }
  }

  // ----- Every other registration can still be completed -----

  /** A step of the background: nobody registers or logs in, and the outbox claims in batches as configured. */
  predicate Background(w: P.Settings, a: Action) {
    !a.Register? && !a.LoginCommits? && (a.OutboxStep? ==> P.Background(w, a.step))
  }

  ghost predicate BackgroundRun(w: P.Settings, run: seq<Action>) {
    forall i :: 0 <= i < |run| ==> Background(w, run[i])
  }

  ghost predicate Reaches(cfg: D.Config, w: P.Settings, s: State, s': State) {
    exists run :: BackgroundRun(w, run) && Valid(cfg, s, run) && Exec(cfg, s, run) == s'
  }

  /** Some continuation of the background alone gives the user a wallet. */
  ghost predicate CanBeServed(cfg: D.Config, w: P.Settings, s: State, user: UserId) {
    exists s' :: Reaches(cfg, w, s, s') && Sub.HasWallet(s'.wallets, user)
  }

  lemma {:induction false} RunsCompose(cfg: D.Config, s: State, run: seq<Action>, more: seq<Action>)
    requires Valid(cfg, s, run) && Valid(cfg, Exec(cfg, s, run), more)
    ensures Valid(cfg, s, run + more) && Exec(cfg, s, run + more) == Exec(cfg, Exec(cfg, s, run), more)
    decreases |run|
  {
    if run == [] {
      assert run + more == more;
    } else {
      RunsCompose(cfg, Apply(cfg, s, run[0]), run[1..], more);
      assert (run + more)[1..] == run[1..] + more;
    }
  }

  lemma ReachesTrans(cfg: D.Config, w: P.Settings, s: State, s': State, s'': State)
    requires Reaches(cfg, w, s, s') && Reaches(cfg, w, s', s'')
    ensures Reaches(cfg, w, s, s'')
  {
    var run :| BackgroundRun(w, run) && Valid(cfg, s, run) && Exec(cfg, s, run) == s';
    var more :| BackgroundRun(w, more) && Valid(cfg, s', more) && Exec(cfg, s', more) == s'';
    RunsCompose(cfg, s, run, more);
    assert BackgroundRun(w, run + more);
  }

  lemma ReachesSelf(cfg: D.Config, w: P.Settings, s: State)
    ensures Reaches(cfg, w, s, s)
  {
    assert BackgroundRun(w, []) && Valid(cfg, s, []) && Exec(cfg, s, []) == s;
  }

  lemma OneStep(cfg: D.Config, s: State, a: Action)
    requires Enabled(cfg, s, a)
    ensures Valid(cfg, s, [a]) && Exec(cfg, s, [a]) == Apply(cfg, s, a)
  {
    assert [a][1..] == [];
    assert Valid(cfg, Apply(cfg, s, a), []) && Exec(cfg, Apply(cfg, s, a), []) == Apply(cfg, s, a);
  }

  lemma ReachesStep(cfg: D.Config, w: P.Settings, s: State, a: Action)
    requires Enabled(cfg, s, a) && Background(w, a)
    ensures Reaches(cfg, w, s, Apply(cfg, s, a))
  {
    OneStep(cfg, s, a);
    assert BackgroundRun(w, [a]);
  }

  lemma ServedAfter(cfg: D.Config, w: P.Settings, s: State, s': State, user: UserId)
    requires Reaches(cfg, w, s, s') && CanBeServed(cfg, w, s', user)
    ensures CanBeServed(cfg, w, s, user)
  {
    var s'' :| Reaches(cfg, w, s', s'') && Sub.HasWallet(s''.wallets, user);
    ReachesTrans(cfg, w, s, s', s'');
  }

  /** One step, after which the user can be served, is enough. */
  lemma ServedAfterStep(cfg: D.Config, w: P.Settings, s: State, a: Action, user: UserId)
    requires Enabled(cfg, s, a) && Background(w, a) && CanBeServed(cfg, w, Apply(cfg, s, a), user)
    ensures CanBeServed(cfg, w, s, user)
  {
    ReachesStep(cfg, w, s, a);
    ServedAfter(cfg, w, s, Apply(cfg, s, a), user);
  }

  lemma {:induction false} UpperBound(used: set<nat>) returns (n: nat)
    ensures forall k :: k in used ==> k < n
  {
    if used == {} {
      n := 0;
    } else {
      var k :| k in used;
      var rest := UpperBound(used - {k});
      n := Max(rest, k + 1);
      assert used == (used - {k}) + {k};
    }
  }

  /** A worker about to insert the wallet may succeed. */
  lemma CanServeRecorded(cfg: D.Config, w: P.Settings, s: State, worker: WorkerId, user: UserId)
    requires WorkingFor(s, worker, user) && s.jobs[worker].stage == Recorded
    ensures CanBeServed(cfg, w, s, user)
  {
    var wallet := UpperBound(s.wallets.Keys);
    var a := InsertWallet(worker, wallet, true, true);
    assert wallet !in s.wallets.Keys;
    LandedInsertServes(s.wallets, user, wallet);
    ReachesStep(cfg, w, s, a);
  }

  lemma CanServeWorking(cfg: D.Config, w: P.Settings, s: State, worker: WorkerId, user: UserId)
    requires Inv(cfg, s) && WorkingFor(s, worker, user)
    ensures CanBeServed(cfg, w, s, user)
  {
    if s.jobs[worker].stage == Recorded {
      CanServeRecorded(cfg, w, s, worker, user);
    } else {
      var a := RunProcess(worker, true);
      assert !IsDuplicate(s, s.jobs[worker].msg);
      CanServeRecorded(cfg, w, Apply(cfg, s, a), worker, user);
      ServedAfterStep(cfg, w, s, a, user);
    }
  }

  ghost predicate IsCopyFor(s: State, i: D.InstId, user: UserId) {
    && i in s.broker.insts && s.broker.insts[i].msg in s.messages
    && s.messages[s.broker.insts[i].msg] == RegisteredUser(user)
  }

  lemma CanServeWaiting(cfg: D.Config, w: P.Settings, s: State, i: D.InstId, user: UserId)
    requires Inv(cfg, s) && IsCopyFor(s, i, user) && s.broker.insts[i].place == D.Main
    ensures CanBeServed(cfg, w, s, user)
  {
    var worker := UpperBound(s.jobs.Keys);
    assert worker !in s.jobs.Keys;
    var a := Deliver(worker, i);
    StepKeepsInv(cfg, s, a);
    CanServeWorking(cfg, w, Apply(cfg, s, a), worker, user);
    ServedAfterStep(cfg, w, s, a, user);
  }

  /** An unacknowledged copy returns to the queue when its connection is lost. */
  lemma CanServeUnacked(cfg: D.Config, w: P.Settings, s: State, i: D.InstId, user: UserId)
    requires Inv(cfg, s) && IsCopyFor(s, i, user) && s.broker.insts[i].place.Unacked?
    ensures CanBeServed(cfg, w, s, user)
  {
    var a := ConnectionLost({i});
    StepKeepsInv(cfg, s, a);
    CanServeWaiting(cfg, w, Apply(cfg, s, a), i, user);
    ServedAfterStep(cfg, w, s, a, user);
  }

  lemma CanServeRetry(cfg: D.Config, w: P.Settings, s: State, i: D.InstId, user: UserId)
    requires Inv(cfg, s) && IsCopyFor(s, i, user) && s.broker.insts[i].place == D.Retry && D.Returns(cfg)
    ensures CanBeServed(cfg, w, s, user)
  {
    var a := BrokerStep(D.Expire(i));
    StepKeepsInv(cfg, s, a);
    CanServeWaiting(cfg, w, Apply(cfg, s, a), i, user);
    ServedAfterStep(cfg, w, s, a, user);
  }

  lemma CanServeAnnounced(cfg: D.Config, w: P.Settings, s: State, user: UserId)
    requires Inv(cfg, s) && Announced(cfg, s, user)
    ensures CanBeServed(cfg, w, s, user)
  {
    var i :| && i in s.broker.insts && D.Deliverable(cfg, s.broker.insts[i].place)
             && s.broker.insts[i].msg in s.messages && s.messages[s.broker.insts[i].msg] == RegisteredUser(user);
    if s.broker.insts[i].place == D.Main {
      CanServeWaiting(cfg, w, s, i, user);
    } else if s.broker.insts[i].place.Unacked? {
      CanServeUnacked(cfg, w, s, i, user);
    } else {
      CanServeRetry(cfg, w, s, i, user);
    }
  }

  // ----- Outbox runs inside the whole system -----

  /** The broker has the event waiting in the main queue. */
  ghost predicate Waiting(s: State, p: Payload) {
    exists i :: && i in s.broker.insts && s.broker.insts[i].place == D.Main
                && s.broker.insts[i].msg in s.messages && s.messages[s.broker.insts[i].msg] == p
  }

  /** The events of the claims from `from` on that were published wait in the main queue. */
  ghost predicate PostedFrom(cfg: D.Config, s: State, from: nat) {
    forall c :: from <= c < |s.outbox.claims| && Published(cfg, s, c) ==> Waiting(s, PayloadOf(s, c))
  }

  /** The step of the whole system that an outbox step stands for; a publish is stored under fresh ids. */
  lemma LiftStep(cfg: D.Config, w: P.Settings, s: State, step: S.Action) returns (a: Action)
    requires Inv(cfg, s) && P.Background(w, step) && S.Enabled(s.outbox, step)
    ensures Enabled(cfg, s, a) && Background(w, a) && OutboxActionOf(s, a) == Some(step)
    ensures if step.Publish? then a.PublishReturns? && a.stored else a.OutboxStep?
  {
    if step.Publish? {
      var m := UpperBound(s.messages.Keys);
      var i := UpperBound(s.broker.insts.Keys);
      assert m !in s.messages.Keys && i !in s.broker.insts.Keys;
      a := PublishReturns(step.claim, step.ok, true, m, i);
    } else {
      a := OutboxStep(step);
    }
  }

  lemma WaitingStays(s: State, s': State, p: Payload)
    requires Waiting(s, p)
    requires forall i :: i in s.broker.insts ==> i in s'.broker.insts && s'.broker.insts[i] == s.broker.insts[i]
    requires forall m :: m in s.messages ==> m in s'.messages && s'.messages[m] == s.messages[m]
    ensures Waiting(s', p)
  {
    var i :| && i in s.broker.insts && s.broker.insts[i].place == D.Main
             && s.broker.insts[i].msg in s.messages && s.messages[s.broker.insts[i].msg] == p;
    assert s'.broker.insts[i] == s.broker.insts[i];
  }

  /** Publishing puts the event into the main queue; the other outbox steps leave the broker alone. */
  lemma LiftedStepPosts(cfg: D.Config, s: State, a: Action, s': State)
    requires Enabled(cfg, s, a) && s' == Apply(cfg, s, a) && (a.OutboxStep? || (a.PublishReturns? && a.stored))
    ensures forall i :: i in s.broker.insts ==> i in s'.broker.insts && s'.broker.insts[i] == s.broker.insts[i]
    ensures forall m :: m in s.messages ==> m in s'.messages && s'.messages[m] == s.messages[m]
    ensures Stores(cfg, s, a) ==> Waiting(s', PayloadOf(s, a.claim))
  {
    if Stores(cfg, s, a) {
      assert s'.broker.insts[a.inst].place == D.Main && s'.messages[a.msg] == PayloadOf(s, a.claim);
    }
  }

  lemma StepKeepsPosted(cfg: D.Config, s: State, a: Action, s': State, from: nat)
    requires PostedFrom(cfg, s, from) && OutboxInv(s) && Ready(cfg, s, a) && OutboxFacts(s, a, s')
    requires a.OutboxStep? ==> !a.step.Publish?
    requires forall i :: i in s.broker.insts ==> i in s'.broker.insts && s'.broker.insts[i] == s.broker.insts[i]
    requires forall m :: m in s.messages ==> m in s'.messages && s'.messages[m] == s.messages[m]
    requires a.OutboxStep? || (a.PublishReturns? && a.stored)
    requires Stores(cfg, s, a) ==> Waiting(s', PayloadOf(s, a.claim))
    ensures PostedFrom(cfg, s', from)
  {
    forall c | from <= c < |s'.outbox.claims| && Published(cfg, s', c) ensures Waiting(s', PayloadOf(s', c)) {
      assert c < |s.outbox.claims| && PayloadOf(s', c) == PayloadOf(s, c);
      if s.outbox.claims[c].result == A.Succeeded {
        assert Published(cfg, s, c);
        WaitingStays(s, s', PayloadOf(s, c));
      }
    }
  }

  /** A run of the outbox's own actors is a run of the whole system, and what it publishes waits in the main queue. */
  lemma {:induction false} LiftRun(cfg: D.Config, w: P.Settings, s: State, run: seq<S.Action>, from: nat)
    returns (s': State)
    requires Inv(cfg, s) && P.BackgroundRun(w, run) && S.Valid(s.outbox, run) && PostedFrom(cfg, s, from)
    ensures Reaches(cfg, w, s, s') && Inv(cfg, s') && s'.outbox == S.Exec(s.outbox, run) && PostedFrom(cfg, s', from)
    decreases |run|
  {
    if run == [] {
      s' := s;
      ReachesSelf(cfg, w, s);
    } else {
      var a := LiftStep(cfg, w, s, run[0]);
      var mid := LiftOne(cfg, w, s, a, from);
      s' := LiftRun(cfg, w, mid, run[1..], from);
      ReachesTrans(cfg, w, s, mid, s');
    }
  }

  lemma LiftOne(cfg: D.Config, w: P.Settings, s: State, a: Action, from: nat) returns (s': State)
    requires Inv(cfg, s) && Enabled(cfg, s, a) && Background(w, a) && PostedFrom(cfg, s, from)
    requires (a.OutboxStep? && !a.step.Publish?) || (a.PublishReturns? && a.stored)
    ensures Reaches(cfg, w, s, s') && Inv(cfg, s') && PostedFrom(cfg, s', from)
    ensures s'.outbox == OutboxAfter(s, a)
  {
    s' := Apply(cfg, s, a);
    ReachesStep(cfg, w, s, a);
    StepKeepsInv(cfg, s, a);
    OutboxHasFacts(s, a, s');
    LiftedStepPosts(cfg, s, a, s');
    StepKeepsPosted(cfg, s, a, s', from);
  }

  /** An event that is not processed can be published anew by the batch worker. */
  lemma CanServeUnprocessed(cfg: D.Config, w: P.Settings, s: State, e: EventId, user: UserId)
    requires Inv(cfg, s) && w.batchSize >= 1 && IsRowOf(s, e, user) && s.outbox.rows[e].status != Processed
    requires Feeds(cfg, RegisteredUser(user))
    ensures CanBeServed(cfg, w, s, user)
  {
    var o := P.CanFinish(w, s.outbox);
    var from := |s.outbox.claims|;
    assert e in UnprocessedIds(s.outbox.rows) && P.NewSuccess(o, from, e);
    var run :| && P.BackgroundRun(w, run) && S.Valid(s.outbox, run) && S.Timely(s.outbox, run)
               && S.Exec(s.outbox, run) == o;
    var s' := LiftRun(cfg, w, s, run, from);
    OutboxRunKeepsRows(s.outbox, run);
    var c :| from <= c < |o.claims| && o.claims[c].event == e && o.claims[c].result == A.Succeeded;
    assert Published(cfg, s', c) && PayloadOf(s', c) == RegisteredUser(user);
    WaitingServes(cfg, w, s', user);
    ServedAfter(cfg, w, s, s', user);
  }

  lemma WaitingServes(cfg: D.Config, w: P.Settings, s: State, user: UserId)
    requires Inv(cfg, s) && Waiting(s, RegisteredUser(user))
    ensures CanBeServed(cfg, w, s, user)
  {
    var i :| IsCopyFor(s, i, user) && s.broker.insts[i].place == D.Main;
    CanServeWaiting(cfg, w, s, i, user);
  }

  lemma OutboxRunKeepsRows(o: S.State, run: seq<S.Action>)
    requires S.Consistent(o) && S.Valid(o, run)
    ensures KeepsEvents(o.rows, S.Exec(o, run).rows)
  {
    S.RunRefines(o, run);
    A.RunKeepsInv(S.Abs(o), S.AbsRun(o, run));
  }

  /** A claimant that has not published yet may do so. */
  lemma CanServeUnpublished(cfg: D.Config, w: P.Settings, s: State, c: nat, user: UserId)
    requires Inv(cfg, s) && S.Enabled(s.outbox, S.Publish(c, true)) && IsRowOf(s, s.outbox.claims[c].event, user)
    requires Feeds(cfg, RegisteredUser(user))
    ensures CanBeServed(cfg, w, s, user)
  {
    var a := LiftStep(cfg, w, s, S.Publish(c, true));
    var s' := Apply(cfg, s, a);
    StepKeepsInv(cfg, s, a);
    LiftedStepPosts(cfg, s, a, s');
    WaitingServes(cfg, w, s', user);
    ServedAfterStep(cfg, w, s, a, user);
  }

  /** A failure mark resets a processed row, which no batch has locked. */
  lemma FailureMarkResetsProcessed(o: S.State, c: nat, e: EventId, mark: S.Action)
    requires S.LockInv(o) && A.CanMark(S.Abs(o), {c}, A.Failed) && mark == S.MarkFailed({c})
    requires e == o.claims[c].event && e in o.rows && o.rows[e].status == Processed
    ensures S.Enabled(o, mark) && e in S.Apply(o, mark).rows
    ensures S.Apply(o, mark).rows[e].status == Pending && S.Apply(o, mark).rows[e].payload == o.rows[e].payload
  {
    assert A.EventsOf(o.claims, {c}) == {e};
  }

  lemma CanStepOutbox(cfg: D.Config, w: P.Settings, s: State, step: S.Action) returns (s': State)
    requires Inv(cfg, s) && P.Background(w, step) && !step.Publish? && S.Enabled(s.outbox, step)
    ensures Reaches(cfg, w, s, s') && Inv(cfg, s') && s'.outbox == S.Apply(s.outbox, step)
  {
    ReachesStep(cfg, w, s, OutboxStep(step));
    StepKeepsInv(cfg, s, OutboxStep(step));
    s' := Apply(cfg, s, OutboxStep(step));
  }

  lemma CanServeFailed(cfg: D.Config, w: P.Settings, s: State, c: nat, user: UserId)
    requires Inv(cfg, s) && w.batchSize >= 1 && A.CanMark(S.Abs(s.outbox), {c}, A.Failed)
    requires IsRowOf(s, s.outbox.claims[c].event, user) && s.outbox.rows[s.outbox.claims[c].event].status == Processed
    requires Feeds(cfg, RegisteredUser(user))
    ensures CanBeServed(cfg, w, s, user)
  {
    var e, mark := s.outbox.claims[c].event, S.MarkFailed({c});
    FailureMarkResetsProcessed(s.outbox, c, e, mark);
    var s' := CanStepOutbox(cfg, w, s, mark);
    CanServeUnprocessed(cfg, w, s', e, user);
    ServedAfter(cfg, w, s, s', user);
  }

  /** An event that is not settled: publish it, or mark it failed and publish it later. */
  lemma CanServeUnsettled(cfg: D.Config, w: P.Settings, s: State, e: EventId, user: UserId)
    requires Inv(cfg, s) && w.batchSize >= 1 && IsRowOf(s, e, user) && !S.Settled(s.outbox, e)
    requires Feeds(cfg, RegisteredUser(user))
    ensures CanBeServed(cfg, w, s, user)
  {
    if s.outbox.rows[e].status != Processed {
      CanServeUnprocessed(cfg, w, s, e, user);
    } else {
      var c :| 0 <= c < |s.outbox.claims| && s.outbox.claims[c].event == e && s.outbox.claims[c].alive
               && s.outbox.claims[c].result != A.Succeeded;
      if s.outbox.claims[c].result == A.NotYet {
        CanServeUnpublished(cfg, w, s, c, user);
      } else {
        CanServeFailed(cfg, w, s, c, user);
      }
    }
  }

  // ----- Main results -----

  lemma NotLostServes(cfg: D.Config, w: P.Settings, s: State, user: UserId)
    requires Inv(cfg, s) && w.batchSize >= 1 && Feeds(cfg, RegisteredUser(user)) && !Lost(cfg, s, user)
    ensures CanBeServed(cfg, w, s, user)
  {
    if Sub.HasWallet(s.wallets, user) {
      ReachesSelf(cfg, w, s);
    } else if Announced(cfg, s, user) {
      CanServeAnnounced(cfg, w, s, user);
    } else if worker :| WorkingFor(s, worker, user) {
      CanServeWorking(cfg, w, s, worker, user);
    } else {
      var e :| IsRowOf(s, e, user) && !S.Settled(s.outbox, e);
      CanServeUnsettled(cfg, w, s, e, user);
    }
  }

  /**
   Exactly when a committed registration can still lead to a wallet, on any topology that feeds the queue, whatever
   the retry limit, the lock timeout and the batch size; if it is lost, no continuation of any kind helps.
   */
  lemma ServableExactlyWhenNotLost(cfg: D.Config, w: P.Settings, run: seq<Action>, user: UserId)
    requires Feeds(cfg, RegisteredUser(user)) && w.batchSize >= 1
    requires Valid(cfg, EMPTY, run) && user in Exec(cfg, EMPTY, run).users
    ensures CanBeServed(cfg, w, Exec(cfg, EMPTY, run), user) <==> !Lost(cfg, Exec(cfg, EMPTY, run), user)
  {
    EmptyInv(cfg);
    RunKeepsInv(cfg, EMPTY, run);
    var s := Exec(cfg, EMPTY, run);
    if Lost(cfg, s, user) {
      forall more | Valid(cfg, s, more) ensures !Sub.HasWallet(Exec(cfg, s, more).wallets, user) {
        LostForGood(cfg, s, more, user);
      }
    } else {
      NotLostServes(cfg, w, s, user);
    }
  }

  /** Only failed deliveries can lose a registration. */
  lemma OnlyTheFailedAreLost(cfg: D.Config, run: seq<Action>, user: UserId)
    requires Feeds(cfg, RegisteredUser(user)) && Valid(cfg, EMPTY, run)
    requires user in Exec(cfg, EMPTY, run).users && Lost(cfg, Exec(cfg, EMPTY, run), user)
    ensures user in Exec(cfg, EMPTY, run).failed
  {
    RegistrationsAreNeverForgotten(cfg, run, user);
    var s := Exec(cfg, EMPTY, run);
    assert IsRowOf(s, s.rowOf[user], user);
  }

  // ----- Losing a registration -----

  ghost predicate Reachable(cfg: D.Config, s: State) {
    exists run :: Valid(cfg, EMPTY, run) && Exec(cfg, EMPTY, run) == s
  }

  lemma ReachableStep(cfg: D.Config, s: State, a: Action, s': State)
    requires Reachable(cfg, s) && Enabled(cfg, s, a) && Apply(cfg, s, a) == s'
    ensures Reachable(cfg, s')
  {
    var run :| Valid(cfg, EMPTY, run) && Exec(cfg, EMPTY, run) == s;
    OneStep(cfg, s, a);
    RunsCompose(cfg, EMPTY, run, [a]);
  }

  /** The outbox with one event, claimed by its immediate publisher. */
  function OneRow(user: UserId, event: EventId, status: Status, result: A.PublishResult): S.State {
    var marked := status == Processed;
    S.State(
      map[event := Row(RegisteredUser(user), 0, status, if marked then None else Some(0),
                       if marked then Some(0) else None)],
      [A.Claim(event, 0, 0, result, !marked, if marked then A.Marked else A.Holding)], 0, map[])
  }

  /** The user has registered and its event has been claimed. */
  function Claimed(user: UserId, event: EventId): State {
    EMPTY.(users := {user}, rowOf := map[user := event], outbox := OneRow(user, event, Processing, A.NotYet))
  }

  /** Its event has been published and is held by the broker as copy 0. */
  function Sent(user: UserId, event: EventId): State {
    Claimed(user, event).(
      outbox := OneRow(user, event, Processing, A.Succeeded), messages := map[0 := RegisteredUser(user)],
      broker := D.State(map[0 := D.Inst(0, D.Main, [], [], 0, true)], {0}, {}, {}))
  }

  /** And it has been marked processed. */
  function Posted(user: UserId, event: EventId): State {
    Sent(user, event).(outbox := OneRow(user, event, Processed, A.Succeeded))
  }

  /** The message has been delivered to worker 0, which has got to `stage`. */
  function InWork(user: UserId, event: EventId, stage: Stage): State {
    Posted(user, event).(
      broker := D.State(map[0 := D.Inst(0, D.Unacked(D.Delivered), [], [], 0, true)], {0}, {}, {}),
      owner := map[0 := 0], jobs := map[0 := Job(0, 0, stage)],
      statuses := if stage == Received then map[] else map[0 := Sub.Processing])
  }

  /** The insert has failed and the handler has returned: nil if marking the message failed succeeded. */
  function Returned(user: UserId, event: EventId, markOk: bool): State {
    var phase := if markOk then D.ReturnedNil else D.ReturnedErr;
    Posted(user, event).(
      broker := D.State(map[0 := D.Inst(0, D.Unacked(phase), [], [], 1, true)], {0}, if markOk then {0} else {}, {}),
      statuses := map[0 := if markOk then Sub.Failed else Sub.Processing], failed := {user})
  }

  lemma RegisterStep(cfg: D.Config, user: UserId, event: EventId, s': State)
    requires s' == EMPTY.(users := {user}, rowOf := map[user := event],
                          outbox := S.EMPTY.(rows := map[event := FreshRow(RegisteredUser(user), 0)]))
    ensures Reachable(cfg, s')
  {
    assert Valid(cfg, EMPTY, []) && Exec(cfg, EMPTY, []) == EMPTY;
    ReachableStep(cfg, EMPTY, Register(user, event, 0), s');
  }

  lemma ClaimStep(user: UserId, event: EventId, o: S.State, claim: S.Action)
    requires o == S.EMPTY.(rows := map[event := FreshRow(RegisteredUser(user), 0)])
    requires claim == S.ClaimSingle(event, 0, 0)
    ensures S.Enabled(o, claim) && S.Apply(o, claim) == OneRow(user, event, Processing, A.NotYet)
  {
  }

  lemma ClaimedIsReachable(cfg: D.Config, user: UserId, event: EventId)
    ensures Reachable(cfg, Claimed(user, event))
  {
    var s := EMPTY.(users := {user}, rowOf := map[user := event],
                    outbox := S.EMPTY.(rows := map[event := FreshRow(RegisteredUser(user), 0)]));
    RegisterStep(cfg, user, event, s);
    ClaimStep(user, event, s.outbox, S.ClaimSingle(event, 0, 0));
    ReachableStep(cfg, s, OutboxStep(S.ClaimSingle(event, 0, 0)), Claimed(user, event));
  }

  lemma PublishStep(user: UserId, event: EventId, o: S.State, publish: S.Action)
    requires o == OneRow(user, event, Processing, A.NotYet) && publish == S.Publish(0, true)
    ensures S.Enabled(o, publish) && S.Apply(o, publish) == OneRow(user, event, Processing, A.Succeeded)
  {
  }

  lemma StoreStep(cfg: D.Config, t: D.State)
    requires t == D.State(map[0 := D.Inst(0, D.Main, [], [], 0, true)], {0}, {}, {})
    ensures D.Enabled(cfg, D.EMPTY, D.Publish(0, 0)) && D.Apply(cfg, D.EMPTY, D.Publish(0, 0)) == t
  {
  }

  lemma SendStep(cfg: D.Config, user: UserId, event: EventId, s: State, a: Action, s': State)
    requires Feeds(cfg, RegisteredUser(user)) && a == PublishReturns(0, true, true, 0, 0)
    requires s == Claimed(user, event) && s' == Sent(user, event)
    ensures Enabled(cfg, s, a) && Apply(cfg, s, a) == s'
  {
    PublishStep(user, event, s.outbox, S.Publish(0, true));
    StoreStep(cfg, s'.broker);
    assert Stores(cfg, s, a);
  }

  lemma SentIsReachable(cfg: D.Config, user: UserId, event: EventId, s: State)
    requires Feeds(cfg, RegisteredUser(user)) && s == Sent(user, event)
    ensures Reachable(cfg, s)
  {
    ClaimedIsReachable(cfg, user, event);
    SendStep(cfg, user, event, Claimed(user, event), PublishReturns(0, true, true, 0, 0), s);
    ReachableStep(cfg, Claimed(user, event), PublishReturns(0, true, true, 0, 0), s);
  }

  lemma PostedIsReachable(cfg: D.Config, user: UserId, event: EventId)
    requires Feeds(cfg, RegisteredUser(user))
    ensures Reachable(cfg, Posted(user, event))
  {
    SentIsReachable(cfg, user, event, Sent(user, event));
    var o, mark := Sent(user, event).outbox, S.MarkProcessed({0});
    MarkStep(user, event, o, mark);
    ReachableStep(cfg, Sent(user, event), OutboxStep(mark), Posted(user, event));
  }

  lemma MarkStep(user: UserId, event: EventId, o: S.State, mark: S.Action)
    requires o == OneRow(user, event, Processing, A.Succeeded) && mark == S.MarkProcessed({0})
    ensures S.Enabled(o, mark) && S.Apply(o, mark) == OneRow(user, event, Processed, A.Succeeded)
  {
    assert A.EventsOf(o.claims, {0}) == {event} by {
      assert o.claims[0].event == event;
    }
    assert A.EndClaims(o.claims, {0}) == OneRow(user, event, Processed, A.Succeeded).claims;
  }

  lemma DeliverStep(cfg: D.Config, user: UserId, event: EventId, s: State, s': State)
    requires s == Posted(user, event) && s' == InWork(user, event, Received)
    ensures Enabled(cfg, s, Deliver(0, 0)) && Apply(cfg, s, Deliver(0, 0)) == s'
  {
  }

  lemma RecordStep(cfg: D.Config, user: UserId, event: EventId, s: State, s': State)
    requires s == InWork(user, event, Received) && s' == InWork(user, event, Recorded)
    ensures Enabled(cfg, s, RunProcess(0, true)) && Apply(cfg, s, RunProcess(0, true)) == s'
  {
  }

  lemma InsertStep(cfg: D.Config, user: UserId, event: EventId, s: State, s': State)
    requires s == InWork(user, event, Recorded) && s' == InWork(user, event, Handled(false))
    ensures Enabled(cfg, s, InsertWallet(0, 0, false, false)) && Apply(cfg, s, InsertWallet(0, 0, false, false)) == s'
  {
  }

  lemma HandlerStep(cfg: D.Config, user: UserId, event: EventId, markOk: bool, t: D.State, t': D.State)
    requires t == InWork(user, event, Handled(false)).broker && t' == Returned(user, event, markOk).broker
    ensures var result := if markOk then D.HandlerReturnsNil(0) else D.HandlerReturnsErr(0);
            D.Enabled(cfg, t, result) && D.Apply(cfg, t, result) == t'
  {
  }

  lemma FinishStep(cfg: D.Config, user: UserId, event: EventId, markOk: bool, s: State, s': State)
    requires s == InWork(user, event, Handled(false)) && s' == Returned(user, event, markOk)
    ensures Enabled(cfg, s, Finish(0, markOk)) && Apply(cfg, s, Finish(0, markOk)) == s'
  {
    HandlerStep(cfg, user, event, markOk, s.broker, s'.broker);
    assert Live(s, 0);
  }

  lemma ReturnedIsReachable(cfg: D.Config, user: UserId, event: EventId, markOk: bool, posted: State, returned: State)
    requires Feeds(cfg, RegisteredUser(user))
    requires posted == Posted(user, event) && returned == Returned(user, event, markOk)
    ensures Reachable(cfg, returned)
  {
    PostedIsReachable(cfg, user, event);
    var s1, s2 := InWork(user, event, Received), InWork(user, event, Recorded);
    var s3 := InWork(user, event, Handled(false));
    DeliverStep(cfg, user, event, posted, s1);
    ReachableStep(cfg, posted, Deliver(0, 0), s1);
    RecordStep(cfg, user, event, s1, s2);
    ReachableStep(cfg, s1, RunProcess(0, true), s2);
    InsertStep(cfg, user, event, s2, s3);
    ReachableStep(cfg, s2, InsertWallet(0, 0, false, false), s3);
    FinishStep(cfg, user, event, markOk, s3, returned);
    ReachableStep(cfg, s3, Finish(0, markOk), returned);
  }

  /** With the event settled and nobody at work, only the broker could still help. */
  lemma LostWithoutCopies(cfg: D.Config, user: UserId, event: EventId, markOk: bool, broker: D.State)
    requires forall i :: i in broker.insts ==> !D.Deliverable(cfg, broker.insts[i].place)
    ensures Lost(cfg, Returned(user, event, markOk).(broker := broker), user)
  {
  }

  /** It does happen: one failed insert, marked failed and acknowledged, loses any user's registration. */
  lemma OneFailureCanLoseARegistration(cfg: D.Config, user: UserId, event: EventId) returns (s: State)
    requires Feeds(cfg, RegisteredUser(user))
    ensures Reachable(cfg, s) && user in s.users && Lost(cfg, s, user)
  {
    ReturnedIsReachable(cfg, user, event, true, Posted(user, event), Returned(user, event, true));
    var before := Returned(user, event, true);
    var acked := before.broker.(insts := map[]);
    s := before.(broker := acked);
    ReachableBrokerStep(cfg, before, D.Ack(0), acked);
    LostWithoutCopies(cfg, user, event, true, acked);
  }

  /** What becomes of copy 0 after its only delivery ended in an error. */
  lemma RejectStep(cfg: D.Config, t: D.State, t': D.State)
    requires cfg.maxRetry > 0 && D.RejectsToRetry(cfg) && !D.RejectsToMain(cfg)
    requires t == D.State(map[0 := D.Inst(0, D.Unacked(D.ReturnedErr), [], [], 1, true)], {0}, {}, {})
    requires t' == t.(insts := map[0 := D.Die(t.insts[0], D.Rejection(cfg), D.Retry)])
    ensures D.Enabled(cfg, t, D.Reject(0, 1)) && D.Apply(cfg, t, D.Reject(0, 1)) == t'
  {
  }

  lemma DeadLetterStep(cfg: D.Config, t: D.State, t': D.State, t'': D.State)
    requires cfg.maxRetry <= 0
    requires t == D.State(map[0 := D.Inst(0, D.Unacked(D.ReturnedErr), [], [], 1, true)], {0}, {}, {})
    requires t' == D.AfterDlqPublish(cfg, t, 0, 1) && t'' == t'.(insts := t'.insts - {0})
    ensures D.Enabled(cfg, t, D.PublishToDlq(0, 1)) && D.Apply(cfg, t, D.PublishToDlq(0, 1)) == t'
    ensures D.Enabled(cfg, t', D.Ack(0)) && D.Apply(cfg, t', D.Ack(0)) == t''
    ensures forall i :: i in t''.insts ==> t''.insts[i].place == D.Dlq
  {
  }

  lemma ReachableBrokerStep(cfg: D.Config, s: State, move: D.Action, t: D.State)
    requires Reachable(cfg, s) && AfterHandler(move) && D.Enabled(cfg, s.broker, move)
    requires D.Apply(cfg, s.broker, move) == t
    ensures Reachable(cfg, s.(broker := t))
  {
    ReachableStep(cfg, s, BrokerStep(move), s.(broker := t));
  }

  lemma RejectedIsLost(cfg: D.Config, user: UserId, event: EventId, before: State) returns (s: State)
    requires cfg.maxRetry > 0 && D.RejectsToRetry(cfg) && !D.RejectsToMain(cfg) && !D.Returns(cfg)
    requires before == Returned(user, event, false) && Reachable(cfg, before)
    ensures Reachable(cfg, s) && s == before.(broker := s.broker) && Lost(cfg, s, user)
  {
    var t := before.broker;
    var rejected := t.(insts := map[0 := D.Die(t.insts[0], D.Rejection(cfg), D.Retry)]);
    RejectStep(cfg, t, rejected);
    s := before.(broker := rejected);
    ReachableBrokerStep(cfg, before, D.Reject(0, 1), rejected);
    LostWithoutCopies(cfg, user, event, false, rejected);
  }

  lemma DeadLetterIsLost(cfg: D.Config, user: UserId, event: EventId, before: State) returns (s: State)
    requires cfg.maxRetry <= 0 && before == Returned(user, event, false) && Reachable(cfg, before)
    ensures Reachable(cfg, s) && s == before.(broker := s.broker) && Lost(cfg, s, user)
  {
    var t := before.broker;
    var copied := D.AfterDlqPublish(cfg, t, 0, 1);
    var dead := copied.(insts := copied.insts - {0});
    DeadLetterStep(cfg, t, copied, dead);
    ReachableBrokerStep(cfg, before, D.PublishToDlq(0, 1), copied);
    ReachableBrokerStep(cfg, before.(broker := copied), D.Ack(0), dead);
    s := before.(broker := dead);
    LostWithoutCopies(cfg, user, event, false, dead);
  }

  /**
   So does one whose mark fails too, wherever expired retries do not return: it is rejected and waits in vain, or,
   with no retries configured, goes to the dead-letter queue.
   */
  lemma RejectionCanLoseARegistration(cfg: D.Config, user: UserId, event: EventId) returns (s: State)
    requires Feeds(cfg, RegisteredUser(user))
    requires D.RejectsToRetry(cfg) && !D.RejectsToMain(cfg) && !D.Returns(cfg)
    ensures Reachable(cfg, s) && user in s.users && Lost(cfg, s, user)
  {
    var before := Returned(user, event, false);
    ReturnedIsReachable(cfg, user, event, false, Posted(user, event), before);
    if cfg.maxRetry > 0 {
      s := RejectedIsLost(cfg, user, event, before);
    } else {
      s := DeadLetterIsLost(cfg, user, event, before);
    }
  }
}
