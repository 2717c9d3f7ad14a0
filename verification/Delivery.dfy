/**
 Delivery of messages to one queue: main queue, unacknowledged deliveries, retry queue and dead-letter queue,
 with processMessage broken into the effects it has on the broker. Where a rejected, expired or dead-lettered
 message goes is what the bindings of the topology say; a message that no binding takes is dropped. Any number of
 messages and workers interleave; workers panic, connections drop and dead-letter publishes fail at any point.
 */
module Delivery {
  import opened Common
  import opened XDeath
  import opened Routing
  import opened DeclaredRouting

  type MsgId = nat
  type InstId = nat

  /** How far processMessage has got with a delivery. */
  datatype Phase = Delivered | ReturnedNil | ReturnedErr | DlqStored

  datatype Place = Main | Unacked(phase: Phase) | Retry | Dlq

  /**
   One stored copy of a message: where it is, its x-death list, the deaths it went through, how often
   its handler ran, and whether it was spared panics, lost connections and failed DLQ publishes.
   */
  datatype Inst = Inst(msg: MsgId, place: Place, items: seq<Value>, history: seq<Death>, runs: nat, spared: bool)

  /**
   `broker` is what has been declared on the broker, so where its queues' arguments send a rejected or expired
   message; `source` is the exchange and the routing key that the queue's events are published with.
   */
  datatype Config = Config(maxRetry: int, names: Names, broker: Declared, source: (string, string))

  /** `dropped` are the messages one of whose copies was routed nowhere. */
  datatype State = State(insts: map<InstId, Inst>, published: set<MsgId>, handled: set<MsgId>, dropped: set<MsgId>)

  datatype Action =
    | Publish(inst: InstId, msg: MsgId)
    | Deliver(inst: InstId)
    | HandlerReturnsNil(inst: InstId)
    | HandlerReturnsErr(inst: InstId)
    | HandlerPanics(inst: InstId)
    | Ack(inst: InstId)
    | PublishToDlq(inst: InstId, copy: InstId)
    | DlqPublishFails(inst: InstId)
    | Reject(inst: InstId, copy: InstId)
    | Expire(inst: InstId)
    | ConnectionLost(lost: set<InstId>)

  const EMPTY: State := State(map[], {}, {}, {})

  // ----- Where the topology sends a message -----

  /** A message rejected from the main queue reaches the retry queue ... */
  predicate RejectsToRetry(cfg: Config) {
    cfg.names.retryQueue in DeadLetterTargets(cfg.broker, cfg.names.mainQueue)
  }

  /** ... and a copy may go straight back to the main queue, if some pattern matches. */
  predicate RejectsToMain(cfg: Config) {
    cfg.names.mainQueue in DeadLetterTargets(cfg.broker, cfg.names.mainQueue)
  }

  /** A message expired in the retry queue reaches the main queue. */
  predicate Returns(cfg: Config) {
    cfg.names.mainQueue in DeadLetterTargets(cfg.broker, cfg.names.retryQueue)
  }

  /** The worker's dead-letter publish reaches the DLQ. */
  predicate ReachesDlq(cfg: Config) {
    cfg.names.dlq in Routed(cfg.broker, cfg.names.dlxExchange, cfg.names.dlq)
  }

  /** The direct topology of the event has been declared. */
  ghost predicate OnDirect(cfg: Config, event: string, ttl: int) {
    HasDirect(cfg.broker, event, ttl) && cfg.names == BuildNames(event, event)
  }

  lemma DirectRetriesReturn(cfg: Config, event: string, ttl: int)
    requires OnDirect(cfg, event, ttl)
    ensures RejectsToRetry(cfg) && Returns(cfg) && ReachesDlq(cfg)
    ensures OnlyBound(cfg.broker.bindings, event + ".exchange", DirectBindings(event)) ==> !RejectsToMain(cfg)
  {
    DirectRetriesCirculate(cfg.broker, event, ttl, cfg.names);
    if OnlyBound(cfg.broker.bindings, event + ".exchange", DirectBindings(event)) {
      QueuesLead(cfg.broker, event + ".exchange", event, ttl, cfg.names);
      OtherExchangesDoNotMatter(cfg.broker, event + ".exchange", Direct, DirectBindings(event), cfg.names.retryQueue);
      DirectRoute(event, Binding(cfg.names.retryQueue, cfg.names.retryQueue, event + ".exchange"));
      QueueNameCoincidences(event, event);
      assert |event + ".retry"| == |event| + 6;
    }
  }

  /** Topic topologies: rejections and dead letters arrive, but expired messages need a lucky routing key. */
  lemma TopicReturnsExactlyWhen(cfg: Config, event: string, bs: seq<TopicBinding>, ttl: int, i: nat)
    requires HasTopic(cfg.broker, event, bs, ttl) && i < |bs| && cfg.names == BuildNames(event, bs[i].queue)
    requires OnlyBound(cfg.broker.bindings, event + ".exchange", TopicBindings(event, bs))
    requires forall j :: 0 <= j < |bs| ==> bs[i].queue != bs[j].queue + ".retry"
    ensures RejectsToRetry(cfg) && ReachesDlq(cfg) && (Returns(cfg) <==> KeyMatchesOwnName(event, bs, bs[i].queue))
  {
    TopicRejectionsArrive(cfg.broker, event, bs, ttl, i, cfg.names);
    TopicRetriesReturnExactlyWhen(cfg.broker, event, bs, ttl, i, cfg.names);
  }

  /** The deployed user topology feeds the wallet service's queue, but does not return its retries. */
  lemma DeployedRetries(cfg: Config, c: TopicBinding, ttl: int)
    requires c == TopicBinding("wallet-service", "user.created") && HasTopic(cfg.broker, "user", [c], ttl)
    requires OnlyBound(cfg.broker.bindings, "user.exchange", TopicBindings("user", [c]))
    requires cfg.names == BuildNames("user", "wallet-service") && cfg.source == ("user.exchange", "user.created")
    ensures cfg.names.mainQueue in Routed(cfg.broker, cfg.source.0, cfg.source.1)
    ensures RejectsToRetry(cfg) && !RejectsToMain(cfg) && ReachesDlq(cfg) && !Returns(cfg)
  {
    DeployedUserTopology(cfg.broker, c, ttl, cfg.names);
    DeployedNames(cfg.names);
  }

  lemma FanoutNeverReturns(cfg: Config, event: string, bases: seq<string>, ttl: int, i: nat)
    requires HasFanout(cfg.broker, event, bases, ttl) && i < |bases| && cfg.names == BuildNames(event, bases[i])
    requires OnlyBound(cfg.broker.bindings, event + ".retry.exchange", FanoutBindings(event, bases))
    requires forall j :: 0 <= j < |bases| ==> bases[i] != bases[j] + ".retry"
    ensures RejectsToRetry(cfg) && ReachesDlq(cfg) && !Returns(cfg)
  {
    FanoutRejectionsArrive(cfg.broker, event, bases, ttl, i, cfg.names);
    FanoutRetriesNeverReturn(cfg.broker, event, bases, ttl, i, cfg.names);
  }

  // ----- The broker -----

  function Rejections(cfg: Config, i: Inst): nat {
    Occurrences(i.history, Rejection(cfg))
  }

  function Rejection(cfg: Config): Death {
    Death(cfg.names.mainQueue, REJECTED)
  }

  function Expiry(cfg: Config): Death {
    Death(cfg.names.retryQueue, EXPIRED)
  }

  /** extractRejectedCount(headers, mainQueue) >= maxRetry. */
  predicate Exhausted(cfg: Config, i: Inst) {
    FirstCount(i.items, Rejection(cfg)) >= cfg.maxRetry
  }

  predicate InPlace(s: State, i: InstId, p: Place) {
    i in s.insts && s.insts[i].place == p
  }

  ghost predicate Enabled(cfg: Config, s: State, a: Action) {
    match a
    case Publish(i, m) => i !in s.insts && m !in s.published
    case Deliver(i) => InPlace(s, i, Main)
    case HandlerReturnsNil(i) => InPlace(s, i, Unacked(Delivered))
    case HandlerReturnsErr(i) => InPlace(s, i, Unacked(Delivered))
    case HandlerPanics(i) => InPlace(s, i, Unacked(Delivered))
    case Ack(i) => InPlace(s, i, Unacked(ReturnedNil)) || InPlace(s, i, Unacked(DlqStored))
    case PublishToDlq(i, copy) => InPlace(s, i, Unacked(ReturnedErr)) && Exhausted(cfg, s.insts[i]) && copy !in s.insts
    case DlqPublishFails(i) => InPlace(s, i, Unacked(ReturnedErr)) && Exhausted(cfg, s.insts[i])
    case Reject(i, copy) => InPlace(s, i, Unacked(ReturnedErr)) && !Exhausted(cfg, s.insts[i]) && copy !in s.insts
    case Expire(i) => InPlace(s, i, Retry)
    case ConnectionLost(lost) => forall i :: i in lost ==> i in s.insts && s.insts[i].place.Unacked?
  }

  /** The dead-letter cycle of one copy: x-death is updated and the copy moves on. */
  function Die(i: Inst, d: Death, to: Place): Inst {
    i.(place := to, items := RecordDeath(i.items, d), history := i.history + [d])
  }

  function Requeued(i: Inst): Inst {
    i.(place := Main, spared := false)
  }

  /** Copy i is routed nowhere. */
  function Drop(s: State, i: InstId): State
    requires i in s.insts
  {
    s.(insts := s.insts - {i}, dropped := s.dropped + {s.insts[i].msg})
  }

  /** Copy i is rejected: it is sent on to whichever of its queues the bindings name. */
  function AfterReject(cfg: Config, s: State, i: InstId, copy: InstId): State
    requires i in s.insts
  {
    var dead := Die(s.insts[i], Rejection(cfg), Retry);
    if RejectsToRetry(cfg) then
      s.(insts := if RejectsToMain(cfg) then s.insts[i := dead][copy := dead.(place := Main)] else s.insts[i := dead])
    else if RejectsToMain(cfg) then s.(insts := s.insts[i := dead.(place := Main)])
    else Drop(s, i)
  }

  /** Copy i expires in the retry queue. */
  function AfterExpiry(cfg: Config, s: State, i: InstId): State
    requires i in s.insts
  {
    if Returns(cfg) then s.(insts := s.insts[i := Die(s.insts[i], Expiry(cfg), Main)]) else Drop(s, i)
  }

  /** A copy of delivery i is published to the dead-letter exchange. */
  function AfterDlqPublish(cfg: Config, s: State, i: InstId, copy: InstId): State
    requires i in s.insts
  {
    var stored := s.(insts := s.insts[i := s.insts[i].(place := Unacked(DlqStored))]);
    if ReachesDlq(cfg) then stored.(insts := stored.insts[copy := s.insts[i].(place := Dlq)])
    else stored.(dropped := s.dropped + {s.insts[i].msg})
  }

  ghost function Apply(cfg: Config, s: State, a: Action): State
    requires Enabled(cfg, s, a)
  {
    match a
    case Publish(i, m) =>
      s.(insts := s.insts[i := Inst(m, Main, [], [], 0, true)], published := s.published + {m})
    case Deliver(i) => s.(insts := s.insts[i := s.insts[i].(place := Unacked(Delivered))])
    case HandlerReturnsNil(i) =>
      s.(insts := s.insts[i := s.insts[i].(place := Unacked(ReturnedNil), runs := s.insts[i].runs + 1)],
         handled := s.handled + {s.insts[i].msg})
    case HandlerReturnsErr(i) =>
      s.(insts := s.insts[i := s.insts[i].(place := Unacked(ReturnedErr), runs := s.insts[i].runs + 1)])
    case HandlerPanics(i) => s.(insts := s.insts[i := Requeued(s.insts[i]).(runs := s.insts[i].runs + 1)])
    case Ack(i) => s.(insts := s.insts - {i})
    case PublishToDlq(i, copy) => AfterDlqPublish(cfg, s, i, copy)
    case DlqPublishFails(i) => s.(insts := s.insts[i := Requeued(s.insts[i])])
    case Reject(i, copy) => AfterReject(cfg, s, i, copy)
    case Expire(i) => AfterExpiry(cfg, s, i)
    case ConnectionLost(lost) =>
      s.(insts := map i | i in s.insts :: if i in lost then Requeued(s.insts[i]) else s.insts[i])
  }

  ghost predicate Valid(cfg: Config, s: State, run: seq<Action>)
    decreases |run|
  {
    run == [] || (Enabled(cfg, s, run[0]) && Valid(cfg, Apply(cfg, s, run[0]), run[1..]))
  }

  ghost function Exec(cfg: Config, s: State, run: seq<Action>): State
    requires Valid(cfg, s, run)
    decreases |run|
  {
    if run == [] then s else Exec(cfg, Apply(cfg, s, run[0]), run[1..])
  }

  // ----- Invariants -----

  function Bound(cfg: Config): nat {
    Max(cfg.maxRetry, 0)
  }

  predicate AfterHandler(p: Place) {
    p == Dlq || (p.Unacked? && p.phase != Delivered)
  }

  ghost predicate InstOk(cfg: Config, i: Inst) {
    && Represents(i.items, i.history)
    && Rejections(cfg, i) <= Bound(cfg)
    && i.runs >= Rejections(cfg, i) + (if AfterHandler(i.place) then 1 else 0)
    && (i.spared ==> i.runs == Rejections(cfg, i) + (if AfterHandler(i.place) then 1 else 0))
    && (i.place == Dlq || i.place == Unacked(DlqStored) ==> Rejections(cfg, i) == Bound(cfg))
  }

  /** Nothing is unaccounted for. */
  ghost predicate Account(s: State) {
    && (forall i :: InPlace(s, i, Unacked(ReturnedNil)) ==> s.insts[i].msg in s.handled)
    && (forall i :: InPlace(s, i, Unacked(DlqStored)) ==> DlqHas(s, s.insts[i].msg) || s.insts[i].msg in s.dropped)
    && (forall m :: m in s.published ==> Accounted(s, m))
  }

  /** A topology that binds its retry and dead-letter queues drops a message only if expired ones do not return. */
  ghost predicate DropsOk(cfg: Config, s: State) {
    && (RejectsToRetry(cfg) && ReachesDlq(cfg) && (Returns(cfg) || cfg.maxRetry <= 0) ==> s.dropped == {})
    && (cfg.maxRetry <= 0 ==> forall i :: i in s.insts ==> s.insts[i].place != Retry)
  }

  ghost predicate Inv(cfg: Config, s: State) {
    AllOk(cfg, s) && Account(s) && DropsOk(cfg, s)
  }

  ghost predicate Accounted(s: State, m: MsgId) {
    m in s.handled || m in s.dropped || Stored(s, m)
  }

  ghost predicate DlqHas(s: State, m: MsgId) {
    exists j :: InPlace(s, j, Dlq) && s.insts[j].msg == m
  }

  ghost predicate Stored(s: State, m: MsgId) {
    exists i :: i in s.insts && s.insts[i].msg == m
  }

  lemma DieKeepsOk(cfg: Config, i: Inst, d: Death, to: Place)
    requires InstOk(cfg, i) && !AfterHandler(to)
    requires d == Rejection(cfg) ==>
               i.place == Unacked(ReturnedErr) && Rejections(cfg, i) < Bound(cfg)
    requires d != Rejection(cfg) ==> !AfterHandler(i.place)
    ensures InstOk(cfg, Die(i, d, to))
  {
    RecordDeathRepresents(i.items, i.history, d);
    OccurrencesAppend(i.history, d, Rejection(cfg));
  }

  lemma DlqCopyOk(cfg: Config, i: Inst)
    requires InstOk(cfg, i) && i.place == Unacked(ReturnedErr) && Exhausted(cfg, i)
    ensures InstOk(cfg, i.(place := Dlq)) && InstOk(cfg, i.(place := Unacked(DlqStored)))
  {
    CountAgreesWithHistory(i.items, i.history, Rejection(cfg));
  }

  lemma RejectedOk(cfg: Config, i: Inst)
    requires InstOk(cfg, i) && i.place == Unacked(ReturnedErr) && !Exhausted(cfg, i)
    ensures InstOk(cfg, Die(i, Rejection(cfg), Retry)) && InstOk(cfg, Die(i, Rejection(cfg), Main))
    ensures cfg.maxRetry > 0
  {
    CountAgreesWithHistory(i.items, i.history, Rejection(cfg));
    DieKeepsOk(cfg, i, Rejection(cfg), Retry);
    DieKeepsOk(cfg, i, Rejection(cfg), Main);
  }

  ghost predicate AllOk(cfg: Config, s: State) {
    forall i :: i in s.insts ==> InstOk(cfg, s.insts[i])
  }

  lemma RejectKeepsOk(cfg: Config, s: State, i: InstId, copy: InstId)
    requires AllOk(cfg, s) && Enabled(cfg, s, Reject(i, copy))
    ensures AllOk(cfg, AfterReject(cfg, s, i, copy))
  {
    RejectedOk(cfg, s.insts[i]);
  }

  lemma ExpiryKeepsOk(cfg: Config, s: State, i: InstId)
    requires AllOk(cfg, s) && Enabled(cfg, s, Expire(i))
    ensures AllOk(cfg, AfterExpiry(cfg, s, i))
  {
    DieKeepsOk(cfg, s.insts[i], Expiry(cfg), Main);
  }

  lemma DlqPublishKeepsOk(cfg: Config, s: State, i: InstId, copy: InstId)
    requires AllOk(cfg, s) && Enabled(cfg, s, PublishToDlq(i, copy))
    ensures AllOk(cfg, AfterDlqPublish(cfg, s, i, copy))
  {
    DlqCopyOk(cfg, s.insts[i]);
  }

  lemma StepKeepsAllOk(cfg: Config, s: State, a: Action)
    requires AllOk(cfg, s) && Enabled(cfg, s, a)
    ensures AllOk(cfg, Apply(cfg, s, a))
  {
    match a
    case PublishToDlq(j, copy) => DlqPublishKeepsOk(cfg, s, j, copy);
    case Reject(j, copy) => RejectKeepsOk(cfg, s, j, copy);
    case Expire(j) => ExpiryKeepsOk(cfg, s, j);
    case _ =>
  }

  /** A copy in the dead-letter queue rests there: no step touches it. */
  lemma DlqIsFinal(cfg: Config, s: State, a: Action, i: InstId)
    requires Enabled(cfg, s, a) && InPlace(s, i, Dlq)
    ensures InPlace(Apply(cfg, s, a), i, Dlq) && Apply(cfg, s, a).insts[i] == s.insts[i]
  {
  }

  lemma StepKeepsDlqHas(cfg: Config, s: State, a: Action, m: MsgId)
    requires Enabled(cfg, s, a) && DlqHas(s, m)
    ensures DlqHas(Apply(cfg, s, a), m)
  {
    var j :| InPlace(s, j, Dlq) && s.insts[j].msg == m;
    DlqIsFinal(cfg, s, a, j);
  }

  lemma StepKeepsStored(cfg: Config, s: State, a: Action, m: MsgId)
    requires Account(s) && Enabled(cfg, s, a) && Stored(s, m)
    ensures Accounted(Apply(cfg, s, a), m)
  {
    var i :| i in s.insts && s.insts[i].msg == m;
    var s' := Apply(cfg, s, a);
    if a == Ack(i) {
      if DlqHas(s, m) {
        StepKeepsDlqHas(cfg, s, a, m);
      }
    } else {
      StaysUnlessDropped(cfg, s, a, i);
    }
  }

  /** Only an acknowledgement or the routing removes a copy, and no step changes its message. */
  lemma StaysUnlessDropped(cfg: Config, s: State, a: Action, i: InstId)
    requires Enabled(cfg, s, a) && i in s.insts && a != Ack(i)
    ensures i in Apply(cfg, s, a).insts ==> Apply(cfg, s, a).insts[i].msg == s.insts[i].msg
    ensures i !in Apply(cfg, s, a).insts ==> s.insts[i].msg in Apply(cfg, s, a).dropped
  {
  }

  lemma StepKeepsDlqCopies(cfg: Config, s: State, a: Action, i: InstId)
    requires Account(s) && Enabled(cfg, s, a) && InPlace(Apply(cfg, s, a), i, Unacked(DlqStored))
    ensures var s' := Apply(cfg, s, a); DlqHas(s', s'.insts[i].msg) || s'.insts[i].msg in s'.dropped
  {
    var s' := Apply(cfg, s, a);
    if InPlace(s, i, Unacked(DlqStored)) {
      if DlqHas(s, s.insts[i].msg) {
        StepKeepsDlqHas(cfg, s, a, s.insts[i].msg);
      }
    } else {
      assert a.PublishToDlq? && a.inst == i;
      assert ReachesDlq(cfg) ==> InPlace(s', a.copy, Dlq) && s'.insts[a.copy].msg == s'.insts[i].msg;
    }
  }

  lemma StepKeepsHandled(cfg: Config, s: State, a: Action, i: InstId)
    requires Account(s) && Enabled(cfg, s, a) && InPlace(Apply(cfg, s, a), i, Unacked(ReturnedNil))
    ensures Apply(cfg, s, a).insts[i].msg in Apply(cfg, s, a).handled
  {
    assert InPlace(s, i, Unacked(ReturnedNil)) || a == HandlerReturnsNil(i);
  }

  lemma StepKeepsAccounted(cfg: Config, s: State, a: Action, m: MsgId)
    requires Account(s) && Enabled(cfg, s, a) && m in Apply(cfg, s, a).published
    ensures Accounted(Apply(cfg, s, a), m)
  {
    var s' := Apply(cfg, s, a);
    if m in s.published {
      assert Accounted(s, m);
      if Stored(s, m) {
        StepKeepsStored(cfg, s, a, m);
      }
    } else {
      assert a.inst in s'.insts && s'.insts[a.inst].msg == m;
    }
  }

  lemma StepKeepsAccount(cfg: Config, s: State, a: Action)
    requires Account(s) && Enabled(cfg, s, a)
    ensures Account(Apply(cfg, s, a))
  {
    var s' := Apply(cfg, s, a);
    forall i | InPlace(s', i, Unacked(ReturnedNil)) ensures s'.insts[i].msg in s'.handled {
      StepKeepsHandled(cfg, s, a, i);
    }
    forall i | InPlace(s', i, Unacked(DlqStored))
      ensures DlqHas(s', s'.insts[i].msg) || s'.insts[i].msg in s'.dropped
    {
      StepKeepsDlqCopies(cfg, s, a, i);
    }
    forall m | m in s'.published ensures Accounted(s', m) {
      StepKeepsAccounted(cfg, s, a, m);
    }
  }

  lemma StepKeepsDropsOk(cfg: Config, s: State, a: Action)
    requires AllOk(cfg, s) && DropsOk(cfg, s) && Enabled(cfg, s, a)
    ensures DropsOk(cfg, Apply(cfg, s, a))
  {
    if a.Reject? {
      RejectedOk(cfg, s.insts[a.inst]);
    }
  }

  lemma StepKeepsInv(cfg: Config, s: State, a: Action)
    requires Inv(cfg, s) && Enabled(cfg, s, a)
    ensures Inv(cfg, Apply(cfg, s, a))
  {
    StepKeepsAllOk(cfg, s, a);
    StepKeepsAccount(cfg, s, a);
    StepKeepsDropsOk(cfg, s, a);
  }

  lemma {:induction false} RunKeepsInv(cfg: Config, s: State, run: seq<Action>)
    requires Inv(cfg, s) && Valid(cfg, s, run)
    ensures Inv(cfg, Exec(cfg, s, run))
    decreases |run|
  {
    if run != [] {
      StepKeepsInv(cfg, s, run[0]);
      RunKeepsInv(cfg, Apply(cfg, s, run[0]), run[1..]);
    }
  }

  // ----- Main results -----

  /** Where a message may be: handled, in the DLQ, or in some copy that is not about to be acknowledged away. */
  ghost predicate Safe(s: State, m: MsgId) {
    || m in s.handled
    || DlqHas(s, m)
    || (exists i :: i in s.insts && s.insts[i].msg == m && s.insts[i].place != Unacked(DlqStored))
  }

  /** Whatever the topology, a published message is safe or was dropped by the routing. */
  lemma LostOnlyByRouting(cfg: Config, run: seq<Action>, m: MsgId)
    requires Valid(cfg, EMPTY, run) && m in Exec(cfg, EMPTY, run).published
    ensures Safe(Exec(cfg, EMPTY, run), m) || m in Exec(cfg, EMPTY, run).dropped
  {
    RunKeepsInv(cfg, EMPTY, run);
    var s := Exec(cfg, EMPTY, run);
    if m !in s.handled && m !in s.dropped {
      var i :| i in s.insts && s.insts[i].msg == m;
      assert s.insts[i].place == Unacked(DlqStored) ==> DlqHas(s, m);
    }
  }

  /**
   No message is lost on the direct topology, whatever else is declared beside it: at every moment of
   every run a published message is in the main queue, a delivery, the retry queue or the dead-letter queue,
   unless its handler has returned nil. A delivery already copied to the dead-letter queue is not the only copy.
   */
  lemma NoMessageIsLost(cfg: Config, event: string, ttl: int, run: seq<Action>, m: MsgId)
    requires OnDirect(cfg, event, ttl)
    requires Valid(cfg, EMPTY, run) && m in Exec(cfg, EMPTY, run).published
    ensures Safe(Exec(cfg, EMPTY, run), m)
  {
    assert RejectsToRetry(cfg) && Returns(cfg) && ReachesDlq(cfg) by {
      DirectRetriesReturn(cfg, event, ttl);
    }
    NothingIsDropped(cfg, run);
    LostOnlyByRouting(cfg, run, m);
  }

  lemma NothingIsDropped(cfg: Config, run: seq<Action>)
    requires RejectsToRetry(cfg) && ReachesDlq(cfg) && (Returns(cfg) || cfg.maxRetry <= 0) && Valid(cfg, EMPTY, run)
    ensures Exec(cfg, EMPTY, run).dropped == {}
  {
    RunKeepsInv(cfg, EMPTY, run);
  }

  ghost predicate DropsMessages(cfg: Config) {
    exists run :: Valid(cfg, EMPTY, run) && Exec(cfg, EMPTY, run).dropped != {}
  }

  lemma ValidStep(cfg: Config, s: State, a: Action, rest: seq<Action>)
    requires Enabled(cfg, s, a) && Valid(cfg, Apply(cfg, s, a), rest)
    ensures Valid(cfg, s, [a] + rest) && Exec(cfg, s, [a] + rest) == Exec(cfg, Apply(cfg, s, a), rest)
  {
    assert ([a] + rest)[1..] == rest;
  }

  /** One failing delivery, rejected and expired. */
  lemma ExpiredRetryIsDropped(cfg: Config) returns (run: seq<Action>)
    requires RejectsToRetry(cfg) && cfg.maxRetry > 0 && !Returns(cfg)
    ensures Valid(cfg, EMPTY, run) && Exec(cfg, EMPTY, run).dropped == {0}
  {
    var s1 := Apply(cfg, EMPTY, Publish(0, 0));
    var s2 := Apply(cfg, s1, Deliver(0));
    var s3 := Apply(cfg, s2, HandlerReturnsErr(0));
    var s4 := Apply(cfg, s3, Reject(0, 1));
    var s5 := Apply(cfg, s4, Expire(0));
    assert Valid(cfg, s5, []) && Exec(cfg, s5, []) == s5;
    ValidStep(cfg, s4, Expire(0), []);
    run := [Expire(0)] + [];
    ValidStep(cfg, s3, Reject(0, 1), run);
    run := [Reject(0, 1)] + run;
    ValidStep(cfg, s2, HandlerReturnsErr(0), run);
    run := [HandlerReturnsErr(0)] + run;
    ValidStep(cfg, s1, Deliver(0), run);
    run := [Deliver(0)] + run;
    ValidStep(cfg, EMPTY, Publish(0, 0), run);
    run := [Publish(0, 0)] + run;
  }

  /** Exactly when a topology whose retry and dead-letter queues are bound can drop a message. */
  lemma DropsExactlyWhen(cfg: Config)
    requires RejectsToRetry(cfg) && ReachesDlq(cfg)
    ensures DropsMessages(cfg) <==> cfg.maxRetry > 0 && !Returns(cfg)
  {
    if cfg.maxRetry > 0 && !Returns(cfg) {
      var run := ExpiredRetryIsDropped(cfg);
      assert Exec(cfg, EMPTY, run).dropped != {};
    } else {
      forall run | Valid(cfg, EMPTY, run) ensures Exec(cfg, EMPTY, run).dropped == {} {
        NothingIsDropped(cfg, run);
      }
    }
  }

  /**
   A message that came to the dead-letter queue ran at least max(maxRetry, 0) + 1 times, and exactly
   that often if it was spared panics, lost connections and failed dead-letter publishes.
   */
  lemma DeadLettersRanExactly(cfg: Config, run: seq<Action>, i: InstId)
    requires Valid(cfg, EMPTY, run) && InPlace(Exec(cfg, EMPTY, run), i, Dlq)
    ensures var inst := Exec(cfg, EMPTY, run).insts[i];
            var limit := if cfg.maxRetry > 0 then cfg.maxRetry else 0;
            inst.runs >= limit + 1 && (inst.spared ==> inst.runs == limit + 1)
  {
    RunKeepsInv(cfg, EMPTY, run);
    assert InstOk(cfg, Exec(cfg, EMPTY, run).insts[i]);
  }

  /** The worker's decision is the right one: it gives up exactly when maxRetry rejections have happened. */
  lemma GivesUpExactlyAfterMaxRetry(cfg: Config, run: seq<Action>, i: InstId)
    requires Valid(cfg, EMPTY, run) && i in Exec(cfg, EMPTY, run).insts
    ensures var inst := Exec(cfg, EMPTY, run).insts[i];
            var limit := if cfg.maxRetry > 0 then cfg.maxRetry else 0;
            Exhausted(cfg, inst) <==> Occurrences(inst.history, Death(cfg.names.mainQueue, "rejected")) == limit
  {
    RunKeepsInv(cfg, EMPTY, run);
    var inst := Exec(cfg, EMPTY, run).insts[i];
    assert InstOk(cfg, inst);
    CountAgreesWithHistory(inst.items, inst.history, Rejection(cfg));
  }

  /** A delivery requeued by a panic, a failed dead-letter publish or a lost connection keeps its headers. */
  lemma RequeueKeepsHeaders(cfg: Config, s: State, a: Action, i: InstId)
    requires Enabled(cfg, s, a)
    requires a == HandlerPanics(i) || a == DlqPublishFails(i) || (a.ConnectionLost? && i in a.lost)
    ensures i in Apply(cfg, s, a).insts && Apply(cfg, s, a).insts[i].place == Main
    ensures Apply(cfg, s, a).insts[i].items == s.insts[i].items && Apply(cfg, s, a).insts[i].msg == s.insts[i].msg
  {
  }

  lemma HistoryStep(cfg: Config, s: State, a: Action, i: InstId)
    requires Enabled(cfg, s, a) && i in s.insts && i in Apply(cfg, s, a).insts
    ensures Apply(cfg, s, a).insts[i].history == s.insts[i].history + (
              if a.Reject? && a.inst == i then [Rejection(cfg)] else if a == Expire(i) then [Expiry(cfg)] else [])
  {
  }

  /** The retry count that the worker reads off a copy goes up by one with each rejection, and only then. */
  lemma RetryCountMovesOnlyByRejection(cfg: Config, s: State, a: Action, i: InstId)
    requires AllOk(cfg, s) && Enabled(cfg, s, a) && i in s.insts && i in Apply(cfg, s, a).insts
    ensures FirstCount(Apply(cfg, s, a).insts[i].items, Rejection(cfg))
         == FirstCount(s.insts[i].items, Rejection(cfg)) + (if a.Reject? && a.inst == i then 1 else 0)
  {
    StepKeepsAllOk(cfg, s, a);
    HistoryStep(cfg, s, a, i);
    CountsAlong(cfg, s.insts[i], Apply(cfg, s, a).insts[i], if a.Reject? && a.inst == i then [Rejection(cfg)]
                                                           else if a == Expire(i) then [Expiry(cfg)] else []);
  }

  lemma CountsAlong(cfg: Config, i: Inst, j: Inst, deaths: seq<Death>)
    requires InstOk(cfg, i) && InstOk(cfg, j) && j.history == i.history + deaths
    requires deaths == [] || deaths == [Rejection(cfg)] || deaths == [Expiry(cfg)]
    ensures FirstCount(j.items, Rejection(cfg))
         == FirstCount(i.items, Rejection(cfg)) + (if deaths == [Rejection(cfg)] then 1 else 0)
  {
    CountAgreesWithHistory(i.items, i.history, Rejection(cfg));
    CountAgreesWithHistory(j.items, j.history, Rejection(cfg));
    if deaths == [] {
      assert i.history + deaths == i.history;
    } else {
      OccurrencesAppend(i.history, deaths[0], Rejection(cfg));
      assert deaths == [deaths[0]];
    }
  }

  // ----- Progress of a message whose handler always fails -----

  /** Steps of a copy that involve no fault and no success of its handler. */
  ghost predicate FailingStep(a: Action, i: InstId) {
    || a == Deliver(i) || a == HandlerReturnsErr(i) || a == Expire(i)
    || (a.Reject? && a.inst == i) || (a.PublishToDlq? && a.inst == i)
  }

  function Rank(p: Place): nat {
    match p
    case Retry => 4
    case Main => 3
    case Unacked(Delivered) => 2
    case Unacked(ReturnedErr) => 1
    case _ => 0
  }

  /** Upper bound on the number of failing steps a copy can still take. */
  function Work(cfg: Config, i: Inst): int {
    5 * (Bound(cfg) - Rejections(cfg, i)) + Rank(i.place)
  }

  /** A death moves the copy on: a rejection uses up one retry, an expiry none. */
  lemma WorkAfterDeath(cfg: Config, i: Inst, d: Death, to: Place)
    ensures Work(cfg, Die(i, d, to))
         == Work(cfg, i) - Rank(i.place) + Rank(to) - (if d == Rejection(cfg) then 5 else 0)
  {
    OccurrencesAppend(i.history, d, Rejection(cfg));
  }

  /** The copy has less work left than before, or was dropped. */
  ghost predicate Closer(cfg: Config, s: State, s': State, i: InstId)
    requires i in s.insts
  {
    if i in s'.insts then 0 <= Work(cfg, s'.insts[i]) < Work(cfg, s.insts[i]) else s.insts[i].msg in s'.dropped
  }

  lemma RejectGetsCloser(cfg: Config, s: State, i: InstId, copy: InstId)
    requires i in s.insts && Rejections(cfg, s.insts[i]) < Bound(cfg) && s.insts[i].place == Unacked(ReturnedErr)
    ensures Closer(cfg, s, AfterReject(cfg, s, i, copy), i) || copy == i
  {
    WorkAfterDeath(cfg, s.insts[i], Rejection(cfg), Retry);
    WorkAfterDeath(cfg, s.insts[i], Rejection(cfg), Main);
  }

  lemma ExpiryGetsCloser(cfg: Config, s: State, i: InstId)
    requires i in s.insts && Rejections(cfg, s.insts[i]) <= Bound(cfg) && s.insts[i].place == Retry
    ensures Closer(cfg, s, AfterExpiry(cfg, s, i), i)
  {
    WorkAfterDeath(cfg, s.insts[i], Expiry(cfg), Main);
  }

  /** Every failing step brings the copy closer to its end ... */
  lemma FailingStepsDecrease(cfg: Config, s: State, a: Action, i: InstId)
    requires AllOk(cfg, s) && Enabled(cfg, s, a) && FailingStep(a, i)
    ensures Closer(cfg, s, Apply(cfg, s, a), i)
  {
    assert InstOk(cfg, s.insts[i]);
    match a
    case Reject(_, copy) =>
      CountAgreesWithHistory(s.insts[i].items, s.insts[i].history, Rejection(cfg));
      RejectGetsCloser(cfg, s, i, copy);
    case Expire(_) => ExpiryGetsCloser(cfg, s, i);
    case _ =>
  }

  /** ... and until it is in the dead-letter queue, or its handler succeeded, one is always possible. */
  lemma FailingStepExists(cfg: Config, s: State, i: InstId, free: InstId) returns (a: Action)
    requires i in s.insts && free !in s.insts
    requires !AfterHandler(s.insts[i].place) || s.insts[i].place == Unacked(ReturnedErr)
    ensures Enabled(cfg, s, a) && FailingStep(a, i)
  {
    var inst := s.insts[i];
    if inst.place == Main {
      a := Deliver(i);
    } else if inst.place == Retry {
      a := Expire(i);
    } else if inst.place == Unacked(Delivered) {
      a := HandlerReturnsErr(i);
    } else {
      a := if Exhausted(cfg, inst) then PublishToDlq(i, free) else Reject(i, free);
    }
  }

  // ----- What one step can do, for systems built on this machine -----

  /** Places a copy only gets to after its handler has returned an error. */
  predicate Spoiled(p: Place) {
    p == Retry || p == Dlq || p == Unacked(ReturnedErr) || p == Unacked(DlqStored)
  }

  /** The copy may be handed to a worker again: it waits, or will be requeued if its connection is lost. */
  predicate Deliverable(cfg: Config, p: Place) {
    p == Main || p.Unacked? || (p == Retry && Returns(cfg))
  }

  ghost predicate SpoiledMsg(s: State, m: MsgId) {
    exists i :: i in s.insts && Spoiled(s.insts[i].place) && s.insts[i].msg == m
  }

  ghost predicate DeliverableMsg(cfg: Config, s: State, m: MsgId) {
    exists i :: i in s.insts && Deliverable(cfg, s.insts[i].place) && s.insts[i].msg == m
  }

  predicate EndsDelivery(a: Action, i: InstId) {
    || a == HandlerReturnsNil(i) || a == HandlerReturnsErr(i) || a == HandlerPanics(i)
    || (a.ConnectionLost? && i in a.lost)
  }

  /** The step is the handler's return on a copy of message m. */
  predicate ReturnsOn(s: State, a: Action, m: MsgId) {
    (a.HandlerReturnsNil? || a.HandlerReturnsErr?) && a.inst in s.insts && s.insts[a.inst].msg == m
  }

  /** Where a copy of the next state comes from. */
  ghost predicate Comes(cfg: Config, s: State, a: Action, i: Inst) {
    || (a.Publish? && a.msg == i.msg && i.place == Main)
    || (exists j :: j in s.insts && s.insts[j].msg == i.msg
                    && (Spoiled(i.place) ==> Spoiled(s.insts[j].place) || (a.HandlerReturnsErr? && a.inst == j))
                    && (Deliverable(cfg, i.place) ==> Deliverable(cfg, s.insts[j].place)))
  }

  lemma EveryCopyComesFrom(cfg: Config, s: State, a: Action, i: InstId)
    requires Enabled(cfg, s, a) && i in Apply(cfg, s, a).insts
    ensures Comes(cfg, s, a, Apply(cfg, s, a).insts[i])
  {
    var s' := Apply(cfg, s, a);
    if i in s.insts {
      assert s'.insts[i].msg == s.insts[i].msg;
    } else if !a.Publish? {
      assert s'.insts[i].msg == s.insts[a.inst].msg;
    }
  }

  ghost predicate StepFacts(cfg: Config, s: State, a: Action, s': State) {
    && Account(s')
    && s'.published == s.published + (if a.Publish? then {a.msg} else {})
    && (forall m :: m in s'.handled ==> m in s.handled || (a.HandlerReturnsNil? && ReturnsOn(s, a, m)))
    && (forall m :: m in s'.dropped ==> m in s.dropped || SpoiledMsg(s, m))
    && (forall i :: i in s'.insts ==> Comes(cfg, s, a, s'.insts[i]))
    && (a.Publish? ==> a.inst in s'.insts && s'.insts[a.inst].place == Main && s'.insts[a.inst].msg == a.msg)
    && (a.Deliver? ==> InPlace(s', a.inst, Unacked(Delivered)) && InPlace(s, a.inst, Main)
                       && s'.insts[a.inst].msg == s.insts[a.inst].msg)
    && (forall i :: InPlace(s, i, Unacked(Delivered)) && !EndsDelivery(a, i) ==>
          InPlace(s', i, Unacked(Delivered)) && s'.insts[i].msg == s.insts[i].msg)
  }

  lemma DropsWereSpoiled(cfg: Config, s: State, a: Action, m: MsgId)
    requires Enabled(cfg, s, a) && m in Apply(cfg, s, a).dropped
    ensures m in s.dropped || SpoiledMsg(s, m)
  {
    if m !in s.dropped {
      assert s.insts[a.inst].msg == m && Spoiled(s.insts[a.inst].place);
    }
  }

  lemma OtherDeliveriesStay(cfg: Config, s: State, a: Action, i: InstId)
    requires Enabled(cfg, s, a) && InPlace(s, i, Unacked(Delivered)) && !EndsDelivery(a, i)
    ensures InPlace(Apply(cfg, s, a), i, Unacked(Delivered)) && Apply(cfg, s, a).insts[i].msg == s.insts[i].msg
  {
  }

  lemma HandledComesFromNil(cfg: Config, s: State, a: Action, m: MsgId)
    requires Enabled(cfg, s, a) && m in Apply(cfg, s, a).handled
    ensures m in s.handled || (a.HandlerReturnsNil? && ReturnsOn(s, a, m))
  {
  }

  lemma StepHasFacts(cfg: Config, s: State, a: Action)
    requires Account(s) && Enabled(cfg, s, a)
    ensures StepFacts(cfg, s, a, Apply(cfg, s, a))
  {
    var s' := Apply(cfg, s, a);
    StepKeepsAccount(cfg, s, a);
    forall m | m in s'.handled ensures m in s.handled || (a.HandlerReturnsNil? && ReturnsOn(s, a, m)) {
      HandledComesFromNil(cfg, s, a, m);
    }
    forall m | m in s'.dropped ensures m in s.dropped || SpoiledMsg(s, m) { DropsWereSpoiled(cfg, s, a, m); }
    forall i | i in s'.insts ensures Comes(cfg, s, a, s'.insts[i]) { EveryCopyComesFrom(cfg, s, a, i); }
    forall i | InPlace(s, i, Unacked(Delivered)) && !EndsDelivery(a, i)
      ensures InPlace(s', i, Unacked(Delivered)) && s'.insts[i].msg == s.insts[i].msg
    {
      OtherDeliveriesStay(cfg, s, a, i);
    }
  }
}
