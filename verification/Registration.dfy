/**
 Registration end to end: the user and its outbox row commit together, the outbox of module SqlOutbox publishes the
 event any number of times, the broker of module Delivery holds, redelivers, retries, dead-letters or drops the
 messages of the wallet service's queue as its topology says, and the wallet service's workers, crashing anywhere,
 create wallets. `cfg` is the declared topology with the worker's retry limit.
 */
module Registration {
  import opened Common
  import opened OutboxTable
  import A = AtomicOutbox
  import D = Delivery
  import DR = DeclaredRouting
  import R = Routing
  import S = SqlOutbox
  import Sub = WalletSubscriber
  import OutboxRepository

  type UserId = nat
  type WorkerId = nat
  type MsgId = D.MsgId

  /** How far the handler has got with a delivery. */
  datatype Stage = Received | Recorded | Handled(ok: bool)

  /** A worker busy with a delivery of copy `inst`. */
  datatype Job = Job(inst: D.InstId, msg: MsgId, stage: Stage)

  datatype HandlerResult = Nil | Err | Panicked

  /**
   `messages` is every message ever stored in the wallet service's queue. `owner` says which worker an outstanding
   delivery belongs to: a worker whose connection was lost goes on, but what it returns reaches the broker no more.
   `failed` are the users one of whose deliveries failed.
   */
  datatype State = State(
    users: set<UserId>,
    rowOf: map<UserId, EventId>,
    outbox: S.State,
    messages: map<MsgId, Payload>,
    broker: D.State,
    owner: map<D.InstId, WorkerId>,
    jobs: map<WorkerId, Job>,
    statuses: map<MsgId, Sub.MsgStatus>,
    wallets: Sub.Wallets,
    failed: set<UserId>)

  const EMPTY: State := State({}, map[], S.EMPTY, map[], D.EMPTY, map[], map[], map[], map[], {})

  datatype Action =
    | Register(user: UserId, event: EventId, createdAt: nat)
    | LoginCommits(user: UserId, session: string, event: EventId, createdAt: nat)
    | OutboxStep(step: S.Action)
    | PublishReturns(claim: nat, ok: bool, stored: bool, msg: MsgId, inst: D.InstId)
    | Deliver(worker: WorkerId, inst: D.InstId)
    | RunProcess(worker: WorkerId, ok: bool)
    | InsertWallet(worker: WorkerId, wallet: Sub.WalletId, lands: bool, ok: bool)
    | Finish(worker: WorkerId, markOk: bool)
    | Panic(worker: WorkerId)
    | Crash(workers: set<WorkerId>)
    | ConnectionLost(lost: set<D.InstId>)
    | BrokerStep(move: D.Action)

  /** The event a claim publishes. */
  function PayloadOf(s: State, c: nat): Payload
    requires c < |s.outbox.claims| && s.outbox.claims[c].event in s.outbox.rows
  {
    s.outbox.rows[s.outbox.claims[c].event].payload
  }

  /** Registration events are routed to the wallet service's main queue; the others are published elsewhere. */
  predicate Feeds(cfg: D.Config, p: Payload) {
    p.RegisteredUser? && cfg.names.mainQueue in DR.Routed(cfg.broker, cfg.source.0, cfg.source.1)
  }

  /** The user whose registration a message announces. */
  function UserOf(p: Payload): set<UserId> {
    if p.RegisteredUser? then {p.user} else {}
  }

  predicate At(s: State, w: WorkerId, stage: Stage) {
    w in s.jobs && s.jobs[w].stage == stage
  }

  /** What the broker does by itself and what processMessage does after the handler has returned. */
  predicate AfterHandler(a: D.Action) {
    a.Ack? || a.PublishToDlq? || a.DlqPublishFails? || a.Reject? || a.Expire?
  }

  /** What the wallet service's side demands of a step; the outbox and the broker have their own say. */
  predicate Ready(cfg: D.Config, s: State, a: Action) {
    match a
    case Register(user, _, _) => user !in s.users
    case LoginCommits(user, _, _, _) => user in s.users
    case OutboxStep(step) => !step.Insert? && !step.Publish?
    case PublishReturns(c, ok, stored, msg, _) =>
      && c < |s.outbox.claims| && s.outbox.claims[c].event in s.outbox.rows
      && msg !in s.messages && (ok ==> stored)
    case Deliver(w, i) => w !in s.jobs && i in s.broker.insts
    case RunProcess(w, _) => At(s, w, Received) && s.jobs[w].msg in s.messages
    case InsertWallet(w, wallet, lands, ok) =>
      At(s, w, Recorded) && s.jobs[w].msg in s.messages && wallet !in s.wallets && (ok ==> lands)
    case Finish(w, _) => w in s.jobs && s.jobs[w].stage.Handled? && s.jobs[w].msg in s.messages
    case Panic(w) => w in s.jobs
    case Crash(ws) => ws <= s.jobs.Keys
    case ConnectionLost(_) => true
    case BrokerStep(move) => AfterHandler(move)
  }

  /** The outbox step inside an action, if it has one. */
  function OutboxActionOf(s: State, a: Action): Option<S.Action> {
    match a
    case Register(user, event, createdAt) => Some(S.Insert(event, RegisteredUser(user), createdAt))
    case LoginCommits(user, session, event, createdAt) => Some(S.Insert(event, LoggedIn(session, user), createdAt))
    case OutboxStep(step) => Some(step)
    case PublishReturns(c, ok, _, _, _) => Some(S.Publish(c, ok))
    case _ => None
  }

  /** The message is stored in the wallet service's queue. */
  predicate Stores(cfg: D.Config, s: State, a: Action)
    requires Ready(cfg, s, a)
  {
    a.PublishReturns? && a.stored && Feeds(cfg, PayloadOf(s, a.claim))
  }

  predicate IsDuplicate(s: State, msg: MsgId) {
    msg in s.statuses && s.statuses[msg] == Sub.Sent
  }

  /** The worker's delivery is still its own. */
  predicate Live(s: State, w: WorkerId) {
    w in s.jobs && s.jobs[w].inst in s.owner && s.owner[s.jobs[w].inst] == w
  }

  /** What the broker hears when a handler returns: nothing if the delivery is no longer the worker's. */
  function Heard(s: State, w: WorkerId, result: HandlerResult): Option<D.Action>
    requires w in s.jobs
  {
    var i := s.jobs[w].inst;
    if !Live(s, w) then None
    else
      match result
      case Nil => Some(D.HandlerReturnsNil(i))
      case Err => Some(D.HandlerReturnsErr(i))
      case Panicked => Some(D.HandlerPanics(i))
  }

  /** The broker step inside an action, if it has one. */
  function BrokerActionOf(cfg: D.Config, s: State, a: Action): Option<D.Action>
    requires Ready(cfg, s, a)
  {
    match a
    case PublishReturns(_, _, _, msg, inst) => if Stores(cfg, s, a) then Some(D.Publish(inst, msg)) else None
    case Deliver(_, i) => Some(D.Deliver(i))
    case ConnectionLost(lost) => Some(D.ConnectionLost(lost))
    case BrokerStep(move) => Some(move)
    case RunProcess(w, ok) =>
      if !ok then Heard(s, w, Err) else if IsDuplicate(s, s.jobs[w].msg) then Heard(s, w, Nil) else None
    case Finish(w, markOk) => Heard(s, w, if s.jobs[w].stage.ok || markOk then Nil else Err)
    case Panic(w) => Heard(s, w, Panicked)
    case _ => None
  }

  ghost predicate Enabled(cfg: D.Config, s: State, a: Action) {
    && Ready(cfg, s, a)
    && (OutboxActionOf(s, a).Some? ==> S.Enabled(s.outbox, OutboxActionOf(s, a).value))
    && (BrokerActionOf(cfg, s, a).Some? ==> D.Enabled(cfg, s.broker, BrokerActionOf(cfg, s, a).value))
  }

  /** INSERT INTO wallets, which may fail to reach the database, or be refused by the unique key. */
  function Inserted(wallets: Sub.Wallets, user: UserId, wallet: Sub.WalletId, lands: bool): Sub.Wallets {
    if !lands || Sub.HasWallet(wallets, user) then wallets else wallets[wallet := Sub.Wallet(user, Sub.IRR, 0)]
  }

  /** The worker whose handler returns in this step. */
  function Leaving(cfg: D.Config, s: State, a: Action): Option<WorkerId>
    requires Ready(cfg, s, a)
  {
    match a
    case RunProcess(w, ok) => if !ok || IsDuplicate(s, s.jobs[w].msg) then Some(w) else None
    case Finish(w, _) => Some(w)
    case Panic(w) => Some(w)
    case _ => None
  }

  // What a step does to the tables and workers, field by field.

  function UsersAfter(s: State, a: Action): set<UserId> {
    if a.Register? then s.users + {a.user} else s.users
  }

  function RowOfAfter(s: State, a: Action): map<UserId, EventId> {
    if a.Register? then s.rowOf[a.user := a.event] else s.rowOf
  }

  function MessagesAfter(cfg: D.Config, s: State, a: Action): map<MsgId, Payload>
    requires Ready(cfg, s, a)
  {
    if Stores(cfg, s, a) then s.messages[a.msg := PayloadOf(s, a.claim)] else s.messages
  }

  function OwnerAfter(cfg: D.Config, s: State, a: Action): map<D.InstId, WorkerId>
    requires Ready(cfg, s, a)
  {
    match a
    case Deliver(w, i) => s.owner[i := w]
    case ConnectionLost(lost) => s.owner - lost
    case _ =>
      match Leaving(cfg, s, a)
      case Some(w) => if w in s.jobs && Live(s, w) then s.owner - {s.jobs[w].inst} else s.owner
      case None => s.owner
  }

  function JobsAfter(cfg: D.Config, s: State, a: Action): map<WorkerId, Job>
    requires Ready(cfg, s, a)
  {
    match a
    case Deliver(w, i) => s.jobs[w := Job(i, s.broker.insts[i].msg, Received)]
    case RunProcess(w, _) =>
      if Leaving(cfg, s, a).Some? then s.jobs - {w} else s.jobs[w := s.jobs[w].(stage := Recorded)]
    case InsertWallet(w, _, _, ok) =>
      s.jobs[w := s.jobs[w].(stage := Handled(ok || !s.messages[s.jobs[w].msg].RegisteredUser?))]
    case Finish(w, _) => s.jobs - {w}
    case Panic(w) => s.jobs - {w}
    case Crash(ws) => s.jobs - ws
    case _ => s.jobs
  }

  /** RunProcess, MarkSent and MarkFailed. */
  function StatusesAfter(cfg: D.Config, s: State, a: Action): map<MsgId, Sub.MsgStatus>
    requires Ready(cfg, s, a)
  {
    match a
    case RunProcess(w, _) =>
      if Leaving(cfg, s, a).Some? then s.statuses else s.statuses[s.jobs[w].msg := Sub.Processing]
    case Finish(w, markOk) =>
      if !markOk || s.jobs[w].msg !in s.statuses then s.statuses
      else s.statuses[s.jobs[w].msg := if s.jobs[w].stage.ok then Sub.Completed else Sub.Failed]
    case _ => s.statuses
  }

  function WalletsAfter(cfg: D.Config, s: State, a: Action): Sub.Wallets
    requires Ready(cfg, s, a)
  {
    if a.InsertWallet? && s.messages[s.jobs[a.worker].msg].RegisteredUser?
    then Inserted(s.wallets, s.messages[s.jobs[a.worker].msg].user, a.wallet, a.lands)
    else s.wallets
  }

  function FailedAfter(cfg: D.Config, s: State, a: Action): set<UserId>
    requires Ready(cfg, s, a)
  {
    if (a.RunProcess? && !a.ok) || (a.Finish? && !s.jobs[a.worker].stage.ok)
    then s.failed + UserOf(s.messages[s.jobs[a.worker].msg])
    else s.failed
  }

  ghost function OutboxAfter(s: State, a: Action): S.State
    requires OutboxActionOf(s, a).Some? ==> S.Enabled(s.outbox, OutboxActionOf(s, a).value)
  {
    match OutboxActionOf(s, a) case None => s.outbox case Some(b) => S.Apply(s.outbox, b)
  }

  ghost function BrokerAfter(cfg: D.Config, s: State, a: Action): D.State
    requires Ready(cfg, s, a)
    requires BrokerActionOf(cfg, s, a).Some? ==> D.Enabled(cfg, s.broker, BrokerActionOf(cfg, s, a).value)
  {
    match BrokerActionOf(cfg, s, a) case None => s.broker case Some(b) => D.Apply(cfg, s.broker, b)
  }

  /** The outbox and the broker take at most one step each of their own machine. */
  ghost function Apply(cfg: D.Config, s: State, a: Action): State
    requires Enabled(cfg, s, a)
  {
    State(
      UsersAfter(s, a), RowOfAfter(s, a), OutboxAfter(s, a), MessagesAfter(cfg, s, a), BrokerAfter(cfg, s, a),
      OwnerAfter(cfg, s, a), JobsAfter(cfg, s, a), StatusesAfter(cfg, s, a), WalletsAfter(cfg, s, a),
      FailedAfter(cfg, s, a))
  }

  ghost predicate Valid(cfg: D.Config, s: State, run: seq<Action>)
    decreases |run|
  {
    run == [] || (Enabled(cfg, s, run[0]) && Valid(cfg, Apply(cfg, s, run[0]), run[1..]))
  }

  ghost function Exec(cfg: D.Config, s: State, run: seq<Action>): State
    requires Valid(cfg, s, run)
    decreases |run|
  {
    if run == [] then s else Exec(cfg, Apply(cfg, s, run[0]), run[1..])
  }

  // ----- What the components promise of a step -----

  ghost predicate OutboxFacts(s: State, a: Action, s': State) {
    match OutboxActionOf(s, a)
    case None => s'.outbox == s.outbox
    case Some(b) => S.StepFacts(s.outbox, b, s'.outbox)
  }

  lemma OutboxHasFacts(s: State, a: Action, s': State)
    requires S.Consistent(s.outbox)
    requires OutboxActionOf(s, a).Some? ==> S.Enabled(s.outbox, OutboxActionOf(s, a).value)
    requires s'.outbox == OutboxAfter(s, a)
    ensures OutboxFacts(s, a, s')
  {
    if OutboxActionOf(s, a).Some? {
      S.StepHasFacts(s.outbox, OutboxActionOf(s, a).value);
    }
  }

  ghost predicate BrokerFacts(cfg: D.Config, s: State, a: Action, s': State)
    requires Ready(cfg, s, a)
  {
    match BrokerActionOf(cfg, s, a)
    case None => s'.broker == s.broker
    case Some(b) => D.StepFacts(cfg, s.broker, b, s'.broker)
  }

  lemma BrokerHasFacts(cfg: D.Config, s: State, a: Action, s': State)
    requires D.Account(s.broker) && Ready(cfg, s, a)
    requires BrokerActionOf(cfg, s, a).Some? ==> D.Enabled(cfg, s.broker, BrokerActionOf(cfg, s, a).value)
    requires s'.broker == BrokerAfter(cfg, s, a)
    ensures BrokerFacts(cfg, s, a, s')
  {
    if BrokerActionOf(cfg, s, a).Some? {
      D.StepHasFacts(cfg, s.broker, BrokerActionOf(cfg, s, a).value);
    }
  }

  ghost predicate Facts(cfg: D.Config, s: State, a: Action, s': State) {
    && Ready(cfg, s, a)
    && OutboxFacts(s, a, s') && BrokerFacts(cfg, s, a, s')
    && s'.users == UsersAfter(s, a) && s'.rowOf == RowOfAfter(s, a) && s'.messages == MessagesAfter(cfg, s, a)
    && s'.owner == OwnerAfter(cfg, s, a) && s'.jobs == JobsAfter(cfg, s, a)
    && s'.statuses == StatusesAfter(cfg, s, a) && s'.wallets == WalletsAfter(cfg, s, a)
    && s'.failed == FailedAfter(cfg, s, a)
  }

  lemma StepHasFacts(cfg: D.Config, s: State, a: Action)
    requires Enabled(cfg, s, a) && S.Consistent(s.outbox) && D.Account(s.broker)
    ensures Facts(cfg, s, a, Apply(cfg, s, a))
  {
    OutboxHasFacts(s, a, Apply(cfg, s, a));
    BrokerHasFacts(cfg, s, a, Apply(cfg, s, a));
  }

  // ----- Invariants -----

  /** Registration events, wherever they are, name committed users. */
  ghost predicate Genuine(s: State, p: Payload) {
    p.RegisteredUser? ==> p.user in s.users
  }

  ghost predicate OutboxInv(s: State) {
    && S.Consistent(s.outbox)
    && (forall e :: e in s.outbox.rows ==> Genuine(s, s.outbox.rows[e].payload))
    && (forall u :: u in s.users ==>
          u in s.rowOf && s.rowOf[u] in s.outbox.rows && s.outbox.rows[s.rowOf[u]].payload == RegisteredUser(u))
  }

  ghost predicate Stored(s: State, p: Payload) {
    exists m :: m in s.messages && s.messages[m] == p
  }

  /** The publish of claim c returned nil, and its event is routed to the queue. */
  ghost predicate Published(cfg: D.Config, s: State, c: nat)
    requires c < |s.outbox.claims|
  {
    && s.outbox.claims[c].result == A.Succeeded && s.outbox.claims[c].event in s.outbox.rows
    && Feeds(cfg, PayloadOf(s, c))
  }

  ghost predicate MessageInv(cfg: D.Config, s: State) {
    && D.Account(s.broker)
    && s.messages.Keys == s.broker.published
    && (forall m :: m in s.messages ==> Genuine(s, s.messages[m]))
    && (forall i :: i in s.broker.insts ==> s.broker.insts[i].msg in s.messages)
    && (forall c :: 0 <= c < |s.outbox.claims| && Published(cfg, s, c) ==> Stored(s, PayloadOf(s, c)))
  }

  /** A delivery of the message failed. */
  ghost predicate HasFailed(s: State, m: MsgId) {
    m in s.messages && UserOf(s.messages[m]) <= s.failed
  }

  /** The message did its work, or a delivery of it failed. */
  ghost predicate Excused(s: State, m: MsgId) {
    m in s.messages
    && (s.messages[m].RegisteredUser? ==>
          Sub.HasWallet(s.wallets, s.messages[m].user) || s.messages[m].user in s.failed)
  }

  ghost predicate DeliveryInv(s: State) {
    && (forall i :: i in s.broker.insts && D.Spoiled(s.broker.insts[i].place) ==> HasFailed(s, s.broker.insts[i].msg))
    && (forall m :: m in s.broker.dropped ==> HasFailed(s, m))
    && (forall m :: m in s.broker.handled ==> Excused(s, m))
  }

  /** Workers work on stored messages; a handler that succeeded left a wallet behind. */
  ghost predicate JobOk(s: State, w: WorkerId)
    requires w in s.jobs
  {
    var job := s.jobs[w];
    && job.msg in s.messages
    && (job.stage == Handled(true) && s.messages[job.msg].RegisteredUser? ==>
          Sub.HasWallet(s.wallets, s.messages[job.msg].user))
    && (Live(s, w) ==> job.inst in s.broker.insts && s.broker.insts[job.inst].msg == job.msg)
  }

  ghost predicate JobInv(s: State) {
    && (forall w :: w in s.jobs ==> JobOk(s, w))
    && (forall i :: i in s.owner ==> D.InPlace(s.broker, i, D.Unacked(D.Delivered)))
  }

  ghost predicate WalletInv(s: State) {
    && (forall w :: w in s.wallets ==> s.wallets[w].user in s.users)
    && Sub.OnePerUser(s.wallets)
    && Sub.StatusesOk(s.statuses)
  }

  ghost predicate Inv(cfg: D.Config, s: State) {
    OutboxInv(s) && MessageInv(cfg, s) && DeliveryInv(s) && JobInv(s) && WalletInv(s)
  }

  // ----- Tables and workers -----

  /** The deliveries that end with this step lose their owner. */
  lemma OwnerStep(cfg: D.Config, s: State, a: Action, i: D.InstId)
    requires Ready(cfg, s, a) && i in OwnerAfter(cfg, s, a)
    ensures if a.Deliver? && a.inst == i then OwnerAfter(cfg, s, a)[i] == a.worker
            else i in s.owner && OwnerAfter(cfg, s, a)[i] == s.owner[i]
    ensures BrokerActionOf(cfg, s, a).Some? ==> !D.EndsDelivery(BrokerActionOf(cfg, s, a).value, i)
  {
  }

  /** What becomes of a worker. */
  lemma JobStep(cfg: D.Config, s: State, a: Action, w: WorkerId, job: Job)
    requires Ready(cfg, s, a) && w in JobsAfter(cfg, s, a) && job == JobsAfter(cfg, s, a)[w]
    ensures if a.Deliver? && a.worker == w then job == Job(a.inst, s.broker.insts[a.inst].msg, Received)
            else w in s.jobs && job.inst == s.jobs[w].inst && job.msg == s.jobs[w].msg
    ensures !job.stage.Handled? && !(a.Deliver? && a.worker == w) ==> !s.jobs[w].stage.Handled?
    ensures job.stage == Handled(true) ==>
              || At(s, w, Handled(true))
              || (a.InsertWallet? && a.worker == w && (a.ok || !s.messages[job.msg].RegisteredUser?))
  {
  }

  lemma InsertKeepsWallets(wallets: Sub.Wallets, user: UserId, wallet: Sub.WalletId, lands: bool, users: set<UserId>)
    requires Sub.OnePerUser(wallets) && wallet !in wallets && user in users
    requires forall w :: w in wallets ==> wallets[w].user in users
    ensures var wallets' := Inserted(wallets, user, wallet, lands);
            && Sub.OnePerUser(wallets')
            && (forall w :: w in wallets' ==> wallets'[w].user in users)
            && (forall w :: w in wallets ==> w in wallets' && wallets'[w] == wallets[w])
  {
  }

  lemma StepKeepsWallets(cfg: D.Config, s: State, a: Action, s': State)
    requires WalletInv(s) && Ready(cfg, s, a) && forall m :: m in s.messages ==> Genuine(s, s.messages[m])
    requires s'.users == UsersAfter(s, a) && s'.wallets == WalletsAfter(cfg, s, a)
    requires s'.statuses == StatusesAfter(cfg, s, a)
    ensures WalletInv(s')
    ensures forall w :: w in s.wallets ==> w in s'.wallets && s'.wallets[w] == s.wallets[w]
  {
    if a.InsertWallet? {
      var p := s.messages[s.jobs[a.worker].msg];
      assert Genuine(s, p);
      if p.RegisteredUser? {
        InsertKeepsWallets(s.wallets, p.user, a.wallet, a.lands, s.users);
      }
    }
  }

  lemma OwnersStay(wallets: Sub.Wallets, wallets': Sub.Wallets, user: UserId)
    requires forall w :: w in wallets ==> w in wallets' && wallets'[w] == wallets[w]
    requires Sub.HasWallet(wallets, user)
    ensures Sub.HasWallet(wallets', user)
  {
    var w :| w in wallets && wallets[w].user == user && wallets[w].currency == Sub.IRR;
    assert wallets'[w] == wallets[w];
  }

  /** A statement that reaches the database leaves the user with a wallet. */
  lemma LandedInsertServes(wallets: Sub.Wallets, user: UserId, wallet: Sub.WalletId)
    ensures Sub.HasWallet(Inserted(wallets, user, wallet, true), user)
  {
    if !Sub.HasWallet(wallets, user) {
      assert Inserted(wallets, user, wallet, true)[wallet].user == user;
    }
  }

  // ----- Steps keep the invariants -----

  lemma StepKeepsOutboxInv(cfg: D.Config, s: State, a: Action, s': State)
    requires OutboxInv(s) && Ready(cfg, s, a) && OutboxFacts(s, a, s')
    requires s'.users == UsersAfter(s, a) && s'.rowOf == RowOfAfter(s, a)
    ensures OutboxInv(s')
  {
    forall e | e in s'.outbox.rows ensures Genuine(s', s'.outbox.rows[e].payload) {
      if e in s.outbox.rows {
        assert Genuine(s, s.outbox.rows[e].payload);
      }
    }
  }

  /** What the other fields may rely on: things only grow. */
  ghost predicate Grows(s: State, s': State) {
    && s.users <= s'.users && s.failed <= s'.failed
    && (forall m :: m in s.messages ==> m in s'.messages && s'.messages[m] == s.messages[m])
    && (forall w :: w in s.wallets ==> w in s'.wallets && s'.wallets[w] == s.wallets[w])
  }

  lemma StepKeepsStored(cfg: D.Config, s: State, a: Action, s': State, c: nat)
    requires OutboxInv(s) && MessageInv(cfg, s) && Ready(cfg, s, a) && OutboxFacts(s, a, s') && Grows(s, s')
    requires Stores(cfg, s, a) ==> a.msg in s'.messages && s'.messages[a.msg] == PayloadOf(s, a.claim)
    requires c < |s'.outbox.claims| && Published(cfg, s', c)
    ensures Stored(s', PayloadOf(s', c))
  {
    assert c < |s.outbox.claims| && PayloadOf(s', c) == PayloadOf(s, c);
    if s.outbox.claims[c].result == A.Succeeded {
      assert Published(cfg, s, c);
      var m :| m in s.messages && s.messages[m] == PayloadOf(s, c);
      assert s'.messages[m] == s.messages[m];
    } else {
      assert Stores(cfg, s, a) && s'.messages[a.msg] == PayloadOf(s, c);
    }
  }

  lemma StepKeepsMessagesGenuine(cfg: D.Config, s: State, a: Action, s': State, m: MsgId)
    requires OutboxInv(s) && MessageInv(cfg, s) && Ready(cfg, s, a) && Grows(s, s')
    requires s'.messages == MessagesAfter(cfg, s, a) && m in s'.messages
    ensures Genuine(s', s'.messages[m])
  {
    if m in s.messages {
      assert Genuine(s, s.messages[m]);
    } else {
      assert Genuine(s, PayloadOf(s, a.claim));
    }
  }

  lemma StepKeepsCopiesKnown(cfg: D.Config, s: State, a: Action, s': State, i: D.InstId)
    requires MessageInv(cfg, s) && Ready(cfg, s, a) && BrokerFacts(cfg, s, a, s')
    requires s'.messages == MessagesAfter(cfg, s, a) && i in s'.broker.insts
    ensures s'.broker.insts[i].msg in s'.messages
  {
    var b := BrokerActionOf(cfg, s, a);
    if b.Some? {
      assert D.Comes(cfg, s.broker, b.value, s'.broker.insts[i]);
    }
  }

  lemma StepKeepsPublished(cfg: D.Config, s: State, a: Action, s': State)
    requires MessageInv(cfg, s) && Ready(cfg, s, a) && BrokerFacts(cfg, s, a, s')
    requires s'.messages == MessagesAfter(cfg, s, a)
    ensures D.Account(s'.broker) && s'.messages.Keys == s'.broker.published
  {
    if Stores(cfg, s, a) {
      assert s'.messages.Keys == s.messages.Keys + {a.msg};
    }
  }

  lemma StepKeepsMessageInv(cfg: D.Config, s: State, a: Action, s': State)
    requires OutboxInv(s) && MessageInv(cfg, s) && Ready(cfg, s, a)
    requires OutboxFacts(s, a, s') && BrokerFacts(cfg, s, a, s') && Grows(s, s')
    requires s'.messages == MessagesAfter(cfg, s, a)
    ensures MessageInv(cfg, s')
  {
    StepKeepsPublished(cfg, s, a, s');
    forall m | m in s'.messages ensures Genuine(s', s'.messages[m]) { StepKeepsMessagesGenuine(cfg, s, a, s', m); }
    forall i | i in s'.broker.insts ensures s'.broker.insts[i].msg in s'.messages {
      StepKeepsCopiesKnown(cfg, s, a, s', i);
    }
    forall c | 0 <= c < |s'.outbox.claims| && Published(cfg, s', c) ensures Stored(s', PayloadOf(s', c)) {
      StepKeepsStored(cfg, s, a, s', c);
    }
  }

  /** The handler of a delivery that ends in an error has failed its user. */
  lemma ErrorsAreFailures(cfg: D.Config, s: State, a: Action, s': State, b: D.Action)
    requires Ready(cfg, s, a) && JobInv(s) && s'.failed == FailedAfter(cfg, s, a)
    requires BrokerActionOf(cfg, s, a) == Some(b) && b.HandlerReturnsErr?
    ensures b.inst in s.broker.insts && s.broker.insts[b.inst].msg in s.messages
    ensures UserOf(s.messages[s.broker.insts[b.inst].msg]) <= s'.failed
  {
    assert JobOk(s, a.worker);
  }

  /** A handler that returns nil has created the wallet, or failed its user. */
  lemma NilsAreExcused(cfg: D.Config, s: State, a: Action, s': State, b: D.Action)
    requires Ready(cfg, s, a) && JobInv(s) && Sub.StatusesOk(s.statuses) && s'.failed == FailedAfter(cfg, s, a)
    requires Grows(s, s') && BrokerActionOf(cfg, s, a) == Some(b) && b.HandlerReturnsNil?
    ensures b.inst in s.broker.insts && Excused(s', s.broker.insts[b.inst].msg)
  {
    assert JobOk(s, a.worker);
    var p := s.messages[s.jobs[a.worker].msg];
    if p.RegisteredUser? && Sub.HasWallet(s.wallets, p.user) {
      OwnersStay(s.wallets, s'.wallets, p.user);
    }
  }

  lemma FailuresStay(s: State, s': State, m: MsgId)
    requires Grows(s, s') && HasFailed(s, m)
    ensures HasFailed(s', m)
  {
  }

  lemma ExcusesStay(s: State, s': State, m: MsgId)
    requires Grows(s, s') && Excused(s, m)
    ensures Excused(s', m)
  {
    var p := s.messages[m];
    if p.RegisteredUser? && Sub.HasWallet(s.wallets, p.user) {
      OwnersStay(s.wallets, s'.wallets, p.user);
    }
  }

  lemma StepKeepsSpoiledFailed(cfg: D.Config, s: State, a: Action, s': State, i: D.InstId)
    requires DeliveryInv(s) && JobInv(s) && Ready(cfg, s, a) && BrokerFacts(cfg, s, a, s') && Grows(s, s')
    requires s'.failed == FailedAfter(cfg, s, a)
    requires i in s'.broker.insts && D.Spoiled(s'.broker.insts[i].place)
    ensures HasFailed(s', s'.broker.insts[i].msg)
  {
    var m := s'.broker.insts[i].msg;
    var b := BrokerActionOf(cfg, s, a);
    if b.None? {
      FailuresStay(s, s', m);
    } else {
      assert D.Comes(cfg, s.broker, b.value, s'.broker.insts[i]);
      var j :| j in s.broker.insts && s.broker.insts[j].msg == m
               && (D.Spoiled(s.broker.insts[j].place) || (b.value.HandlerReturnsErr? && b.value.inst == j));
      if D.Spoiled(s.broker.insts[j].place) {
        FailuresStay(s, s', m);
      } else {
        ErrorsAreFailures(cfg, s, a, s', b.value);
      }
    }
  }

  lemma StepKeepsDroppedFailed(cfg: D.Config, s: State, a: Action, s': State, m: MsgId)
    requires DeliveryInv(s) && Ready(cfg, s, a) && BrokerFacts(cfg, s, a, s') && Grows(s, s') && m in s'.broker.dropped
    ensures HasFailed(s', m)
  {
    if m !in s.broker.dropped {
      var j :| j in s.broker.insts && D.Spoiled(s.broker.insts[j].place) && s.broker.insts[j].msg == m;
    }
    FailuresStay(s, s', m);
  }

  lemma StepKeepsHandledExcused(cfg: D.Config, s: State, a: Action, s': State, m: MsgId)
    requires DeliveryInv(s) && JobInv(s) && Sub.StatusesOk(s.statuses) && Ready(cfg, s, a)
    requires BrokerFacts(cfg, s, a, s') && Grows(s, s') && s'.failed == FailedAfter(cfg, s, a) && m in s'.broker.handled
    ensures Excused(s', m)
  {
    if m in s.broker.handled {
      ExcusesStay(s, s', m);
    } else {
      NilsAreExcused(cfg, s, a, s', BrokerActionOf(cfg, s, a).value);
    }
  }

  lemma StepKeepsDeliveryInv(cfg: D.Config, s: State, a: Action, s': State)
    requires DeliveryInv(s) && JobInv(s) && Sub.StatusesOk(s.statuses) && Ready(cfg, s, a)
    requires BrokerFacts(cfg, s, a, s') && Grows(s, s') && s'.failed == FailedAfter(cfg, s, a)
    ensures DeliveryInv(s')
  {
    forall i | i in s'.broker.insts && D.Spoiled(s'.broker.insts[i].place)
      ensures HasFailed(s', s'.broker.insts[i].msg)
    {
      StepKeepsSpoiledFailed(cfg, s, a, s', i);
    }
    forall m | m in s'.broker.dropped ensures HasFailed(s', m) {
      StepKeepsDroppedFailed(cfg, s, a, s', m);
    }
    forall m | m in s'.broker.handled ensures Excused(s', m) {
      StepKeepsHandledExcused(cfg, s, a, s', m);
    }
  }

  lemma StepKeepsOwner(cfg: D.Config, s: State, a: Action, s': State, i: D.InstId)
    requires JobInv(s) && Ready(cfg, s, a) && BrokerFacts(cfg, s, a, s') && s'.owner == OwnerAfter(cfg, s, a)
    requires i in s'.owner
    ensures D.InPlace(s'.broker, i, D.Unacked(D.Delivered))
    ensures !(a.Deliver? && a.inst == i) ==>
              i in s.owner && s'.owner[i] == s.owner[i] && s'.broker.insts[i].msg == s.broker.insts[i].msg
    ensures a.Deliver? && a.inst == i ==>
              s'.owner[i] == a.worker && s'.broker.insts[i].msg == s.broker.insts[i].msg
  {
    OwnerStep(cfg, s, a, i);
  }

  lemma StepKeepsJobOk(cfg: D.Config, s: State, a: Action, s': State, w: WorkerId)
    requires JobInv(s) && MessageInv(cfg, s) && Facts(cfg, s, a, s') && Grows(s, s') && w in s'.jobs
    ensures JobOk(s', w)
  {
    var job := s'.jobs[w];
    JobStep(cfg, s, a, w, job);
    if Live(s', w) {
      StepKeepsOwner(cfg, s, a, s', job.inst);
    }
    if w in s.jobs {
      assert JobOk(s, w);
      var p := s.messages[job.msg];
      if p.RegisteredUser? && Sub.HasWallet(s.wallets, p.user) {
        OwnersStay(s.wallets, s'.wallets, p.user);
      }
      if a.InsertWallet? && a.worker == w && a.ok && p.RegisteredUser? {
        LandedInsertServes(s.wallets, p.user, a.wallet);
      }
    }
  }

  lemma FactsKeepInv(cfg: D.Config, s: State, a: Action, s': State)
    requires Inv(cfg, s) && Facts(cfg, s, a, s')
    ensures Inv(cfg, s') && Grows(s, s')
  {
    StepKeepsWallets(cfg, s, a, s');
    StepKeepsOutboxInv(cfg, s, a, s');
    StepKeepsMessageInv(cfg, s, a, s');
    StepKeepsDeliveryInv(cfg, s, a, s');
    forall w | w in s'.jobs ensures JobOk(s', w) { StepKeepsJobOk(cfg, s, a, s', w); }
    forall i | i in s'.owner ensures D.InPlace(s'.broker, i, D.Unacked(D.Delivered)) {
      StepKeepsOwner(cfg, s, a, s', i);
    }
  }

  lemma StepKeepsInv(cfg: D.Config, s: State, a: Action)
    requires Inv(cfg, s) && Enabled(cfg, s, a)
    ensures Inv(cfg, Apply(cfg, s, a)) && Grows(s, Apply(cfg, s, a))
  {
    StepHasFacts(cfg, s, a);
    FactsKeepInv(cfg, s, a, Apply(cfg, s, a));
  }

  lemma {:induction false} RunKeepsInv(cfg: D.Config, s: State, run: seq<Action>)
    requires Inv(cfg, s) && Valid(cfg, s, run)
    ensures Inv(cfg, Exec(cfg, s, run))
    ensures forall w :: w in s.wallets ==>
              w in Exec(cfg, s, run).wallets && Exec(cfg, s, run).wallets[w] == s.wallets[w]
    decreases |run|
  {
    if run != [] {
      StepKeepsInv(cfg, s, run[0]);
      RunKeepsInv(cfg, Apply(cfg, s, run[0]), run[1..]);
    }
  }

  lemma EmptyInv(cfg: D.Config)
    ensures Inv(cfg, EMPTY)
  {
  }

  // ----- The components take part with runs of their own -----

  ghost function OutboxRun(cfg: D.Config, s: State, run: seq<Action>): seq<S.Action>
    requires Valid(cfg, s, run)
    decreases |run|
  {
    if run == [] then []
    else
      var rest := OutboxRun(cfg, Apply(cfg, s, run[0]), run[1..]);
      match OutboxActionOf(s, run[0]) case None => rest case Some(b) => [b] + rest
  }

  ghost function BrokerRun(cfg: D.Config, s: State, run: seq<Action>): seq<D.Action>
    requires Valid(cfg, s, run)
    decreases |run|
  {
    if run == [] then []
    else
      var rest := BrokerRun(cfg, Apply(cfg, s, run[0]), run[1..]);
      match BrokerActionOf(cfg, s, run[0]) case None => rest case Some(b) => [b] + rest
  }

  /** What the outbox does in a run of the whole system is a run of the outbox. */
  lemma {:induction false} OutboxProjection(cfg: D.Config, s: State, run: seq<Action>)
    requires Valid(cfg, s, run)
    ensures S.Valid(s.outbox, OutboxRun(cfg, s, run))
    ensures S.Exec(s.outbox, OutboxRun(cfg, s, run)) == Exec(cfg, s, run).outbox
    decreases |run|
  {
    if run != [] {
      OutboxProjection(cfg, Apply(cfg, s, run[0]), run[1..]);
      if OutboxActionOf(s, run[0]).Some? {
        assert OutboxRun(cfg, s, run)[1..] == OutboxRun(cfg, Apply(cfg, s, run[0]), run[1..]);
      }
    }
  }

  /** What the broker does in a run of the whole system is a run of the broker: what holds of those holds here. */
  lemma {:induction false} BrokerProjection(cfg: D.Config, s: State, run: seq<Action>)
    requires Valid(cfg, s, run)
    ensures D.Valid(cfg, s.broker, BrokerRun(cfg, s, run))
    ensures D.Exec(cfg, s.broker, BrokerRun(cfg, s, run)) == Exec(cfg, s, run).broker
    decreases |run|
  {
    if run != [] {
      BrokerProjection(cfg, Apply(cfg, s, run[0]), run[1..]);
      if BrokerActionOf(cfg, s, run[0]).Some? {
        assert BrokerRun(cfg, s, run)[1..] == BrokerRun(cfg, Apply(cfg, s, run[0]), run[1..]);
      }
    }
  }

  // ----- Main results -----

  /** Every wallet belongs to a committed user, and no user has two. */
  lemma WalletsBelongToUsers(cfg: D.Config, run: seq<Action>)
    requires Valid(cfg, EMPTY, run)
    ensures var s := Exec(cfg, EMPTY, run);
            && (forall w :: w in s.wallets ==> s.wallets[w].user in s.users)
            && Sub.OnePerUser(s.wallets)
  {
    EmptyInv(cfg);
    RunKeepsInv(cfg, EMPTY, run);
  }

  /** The broker has a copy of the user's announcement that can still reach a worker. */
  ghost predicate Announced(cfg: D.Config, s: State, user: UserId) {
    exists i :: && i in s.broker.insts && D.Deliverable(cfg, s.broker.insts[i].place)
                && s.broker.insts[i].msg in s.messages && s.messages[s.broker.insts[i].msg] == RegisteredUser(user)
  }

  /** A stored announcement did its work, can still do it, or has failed once. */
  lemma MessagesAreAccountedFor(cfg: D.Config, s: State, user: UserId)
    requires MessageInv(cfg, s) && DeliveryInv(s) && Stored(s, RegisteredUser(user))
    ensures Sub.HasWallet(s.wallets, user) || Announced(cfg, s, user) || user in s.failed
  {
    var m :| m in s.messages && s.messages[m] == RegisteredUser(user);
    assert m in s.broker.published && D.Accounted(s.broker, m);
    if m in s.broker.handled {
      assert Excused(s, m);
    } else if m in s.broker.dropped {
      assert HasFailed(s, m);
    } else {
      var i :| i in s.broker.insts && s.broker.insts[i].msg == m;
      assert D.Deliverable(cfg, s.broker.insts[i].place) || D.Spoiled(s.broker.insts[i].place);
      if D.Spoiled(s.broker.insts[i].place) {
        assert HasFailed(s, m);
      }
    }
  }

  /** A processed event that feeds the queue was stored in it. */
  lemma ProcessedIsStored(cfg: D.Config, s: State, e: EventId)
    requires OutboxInv(s) && MessageInv(cfg, s) && e in s.outbox.rows && s.outbox.rows[e].status == Processed
    requires Feeds(cfg, s.outbox.rows[e].payload)
    ensures Stored(s, s.outbox.rows[e].payload)
  {
    assert A.HandedToPublisher(S.Abs(s.outbox), e);
    var c :| 0 <= c < |s.outbox.claims| && s.outbox.claims[c].event == e && s.outbox.claims[c].result == A.Succeeded;
    assert Published(cfg, s, c);
  }

  /**
   Every committed user has an outbox row of its own. If that row is processed, the event was stored in the wallet
   service's queue at least once; and then the user has a wallet, or a copy of the message can still reach a worker,
   or a delivery of it has failed.
   */
  lemma RegistrationsAreNeverForgotten(cfg: D.Config, run: seq<Action>, user: UserId)
    requires Valid(cfg, EMPTY, run) && user in Exec(cfg, EMPTY, run).users && Feeds(cfg, RegisteredUser(user))
    ensures var s := Exec(cfg, EMPTY, run);
            && user in s.rowOf && s.rowOf[user] in s.outbox.rows
            && s.outbox.rows[s.rowOf[user]].payload == RegisteredUser(user)
            && (s.outbox.rows[s.rowOf[user]].status == Processed ==>
                  && Stored(s, RegisteredUser(user))
                  && (Sub.HasWallet(s.wallets, user) || Announced(cfg, s, user) || user in s.failed))
  {
    EmptyInv(cfg);
    RunKeepsInv(cfg, EMPTY, run);
    var s := Exec(cfg, EMPTY, run);
    if s.outbox.rows[s.rowOf[user]].status == Processed {
      ProcessedIsStored(cfg, s, s.rowOf[user]);
      MessagesAreAccountedFor(cfg, s, user);
    }
  }

  /** The users served by a step: an INSERT for their registration reached the database. */
  ghost function ServedBy(cfg: D.Config, s: State, a: Action): set<UserId>
    requires Ready(cfg, s, a)
  {
    if a.InsertWallet? && a.lands then UserOf(s.messages[s.jobs[a.worker].msg]) else {}
  }

  ghost function Served(cfg: D.Config, s: State, run: seq<Action>): set<UserId>
    requires Valid(cfg, s, run)
    decreases |run|
  {
    if run == [] then {} else ServedBy(cfg, s, run[0]) + Served(cfg, Apply(cfg, s, run[0]), run[1..])
  }

  lemma StepServes(cfg: D.Config, s: State, a: Action)
    requires Ready(cfg, s, a)
    ensures Sub.Owners(WalletsAfter(cfg, s, a)) == Sub.Owners(s.wallets) + ServedBy(cfg, s, a)
  {
    if a.InsertWallet? && a.lands && s.messages[s.jobs[a.worker].msg].RegisteredUser? {
      Sub.OwnersAfter(s.wallets, WalletsAfter(cfg, s, a), s.messages[s.jobs[a.worker].msg].user, a.wallet);
    }
  }

  /**
   Idempotence over interleavings: however often, in whatever order and by however many workers deliveries are
   repeated, the users with a wallet are exactly those one of whose deliveries reached the database.
   */
  lemma {:induction false} OwnersAreTheServedUsers(cfg: D.Config, s: State, run: seq<Action>)
    requires Valid(cfg, s, run)
    ensures Sub.Owners(Exec(cfg, s, run).wallets) == Sub.Owners(s.wallets) + Served(cfg, s, run)
    decreases |run|
  {
    if run != [] {
      StepServes(cfg, s, run[0]);
      OwnersAreTheServedUsers(cfg, Apply(cfg, s, run[0]), run[1..]);
    }
  }

  /** The duplicate test never fires: whatever the history, a delivery is recorded and handled again. */
  lemma NoDeliveryIsADuplicate(cfg: D.Config, run: seq<Action>, w: WorkerId)
    requires Valid(cfg, EMPTY, run) && Enabled(cfg, Exec(cfg, EMPTY, run), RunProcess(w, true))
    ensures var s := Exec(cfg, EMPTY, run);
            var s' := Apply(cfg, s, RunProcess(w, true));
            && At(s', w, Recorded) && s'.jobs[w].msg == s.jobs[w].msg
            && s'.statuses == s.statuses[s.jobs[w].msg := Sub.Processing]
  {
    EmptyInv(cfg);
    RunKeepsInv(cfg, EMPTY, run);
  }

  /** No run, from any reachable state on, changes or removes a wallet that exists. */
  lemma WalletsArePermanent(cfg: D.Config, run: seq<Action>, more: seq<Action>, w: Sub.WalletId)
    requires Valid(cfg, EMPTY, run) && Valid(cfg, Exec(cfg, EMPTY, run), more) && w in Exec(cfg, EMPTY, run).wallets
    ensures w in Exec(cfg, Exec(cfg, EMPTY, run), more).wallets
         && Exec(cfg, Exec(cfg, EMPTY, run), more).wallets[w] == Exec(cfg, EMPTY, run).wallets[w]
  {
    EmptyInv(cfg);
    RunKeepsInv(cfg, EMPTY, run);
    RunKeepsInv(cfg, Exec(cfg, EMPTY, run), more);
  }

  /**
   The deployed configuration: registrations are published to where they reach the wallet service, but its expired
   retries reach nobody.
   */
  lemma DeployedQueue(cfg: D.Config, c: R.TopicBinding, ttl: int, user: UserId)
    requires c == R.TopicBinding("wallet-service", "user.created") && DR.HasTopic(cfg.broker, "user", [c], ttl)
    requires DR.OnlyBound(cfg.broker.bindings, "user.exchange", R.TopicBindings("user", [c]))
    requires cfg.names == R.BuildNames("user", "wallet-service")
    requires OutboxRepository.Destination(RegisteredUser(user)) == Some(cfg.source)
    ensures Feeds(cfg, RegisteredUser(user)) && D.RejectsToRetry(cfg) && D.ReachesDlq(cfg)
    ensures !D.RejectsToMain(cfg) && !D.Returns(cfg)
  {
    D.DeployedRetries(cfg, c, ttl);
  }
}
