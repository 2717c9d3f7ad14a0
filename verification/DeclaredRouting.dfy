/** Where a broker with declared exchanges, queues and bindings sends published, rejected and expired messages. */
module DeclaredRouting {
  import opened Common
  import opened Routing

  /** The declared queues with their arguments. */
  type Queues = map<string, QueueArgs>

  /** All that has been declared on a broker. */
  datatype Declared = Declared(exchanges: map<string, Kind>, queues: Queues, bindings: set<Binding>)

  /** Main, retry and dead-letter queue of a base whose dead letters go through exchange `dlx`. */
  function BaseQueues(dlx: string, base: string, ttl: int): Queues {
    var n := BuildNames(base, base);
    map[n.mainQueue := MainArgs(dlx, n.retryQueue), n.retryQueue := RetryArgs(ttl, dlx, n.mainQueue), n.dlq := DLQ_ARGS]
  }

  /** The queues that receive a message published to `exchange` with routing key `key`. */
  function Routed(d: Declared, exchange: string, key: string): set<string> {
    if exchange in d.exchanges then Route(d.exchanges[exchange], d.bindings, exchange, key) else {}
  }

  /** The queues that receive a message rejected from, or expired in, `queue`, by the arguments of that queue. */
  function DeadLetterTargets(d: Declared, queue: string): set<string> {
    if queue in d.queues && d.queues[queue].deadLetter.Some?
    then Routed(d, d.queues[queue].deadLetter.value.0, d.queues[queue].deadLetter.value.1)
    else {}
  }

  ghost predicate Includes(all: Queues, part: Queues) {
    forall q :: q in part ==> q in all && all[q] == part[q]
  }

  /** Nothing else is bound to the exchange. */
  ghost predicate OnlyBound(bindings: set<Binding>, exchange: string, allowed: set<Binding>) {
    forall b :: b in bindings && b.exchange == exchange ==> b in allowed
  }

  ghost predicate HasExchange(d: Declared, name: string, kind: Kind) {
    name in d.exchanges && d.exchanges[name] == kind
  }

  /** The topologies as the declarations leave them, beside anything else. */
  ghost predicate HasDirect(d: Declared, event: string, ttl: int) {
    && HasExchange(d, event + ".exchange", Direct) && HasExchange(d, event + ".dlx", Direct)
    && Includes(d.queues, BaseQueues(event + ".exchange", event, ttl))
    && DirectBindings(event) <= d.bindings
  }

  ghost predicate HasTopic(d: Declared, event: string, bs: seq<TopicBinding>, ttl: int) {
    && HasExchange(d, event + ".exchange", Topic) && HasExchange(d, event + ".dlx", Direct)
    && (forall i :: 0 <= i < |bs| ==> Includes(d.queues, BaseQueues(event + ".exchange", bs[i].queue, ttl)))
    && TopicBindings(event, bs) <= d.bindings
  }

  ghost predicate HasFanout(d: Declared, event: string, bases: seq<string>, ttl: int) {
    && HasExchange(d, event + ".exchange", Fanout) && HasExchange(d, event + ".retry.exchange", Direct)
    && HasExchange(d, event + ".dlx", Direct)
    && (forall i :: 0 <= i < |bases| ==> Includes(d.queues, BaseQueues(event + ".retry.exchange", bases[i], ttl)))
    && FanoutBindings(event, bases) <= d.bindings
  }

  // ----- Steps of the argument -----

  /** What becomes of a rejected message, an expired one and a dead letter, by the arguments of their queues. */
  lemma QueuesLead(d: Declared, dlx: string, base: string, ttl: int, n: Names)
    requires Includes(d.queues, BaseQueues(dlx, base, ttl)) && n == BuildNames(base, base)
    ensures DeadLetterTargets(d, n.mainQueue) == Routed(d, dlx, n.retryQueue)
    ensures DeadLetterTargets(d, n.retryQueue) == Routed(d, dlx, n.mainQueue)
    ensures DeadLetterTargets(d, n.dlq) == {}
    ensures d.queues[n.mainQueue].ttl == None && d.queues[n.retryQueue].ttl == Some(ttl) && d.queues[n.dlq].ttl == None
  {
    var part := BaseQueues(dlx, base, ttl);
    QueueNameCoincidences(base, base);
    assert |base + ".retry"| == |base| + 6;
    assert n.mainQueue in part && n.retryQueue in part && n.dlq in part;
  }

  lemma BoundQueueReceives(d: Declared, b: Binding, kind: Kind, key: string)
    requires b in d.bindings && HasExchange(d, b.exchange, kind) && Accepts(kind, b, key)
    ensures b.queue in Routed(d, b.exchange, key)
  {
  }

  /** Bindings to other exchanges do not matter. */
  lemma OtherExchangesDoNotMatter(d: Declared, exchange: string, kind: Kind, part: set<Binding>, key: string)
    requires HasExchange(d, exchange, kind) && part <= d.bindings && OnlyBound(d.bindings, exchange, part)
    ensures Routed(d, exchange, key) == Route(kind, part, exchange, key)
  {
  }

  // ----- Direct topologies -----

  /**
   On any broker that holds the direct topology of an event: a published message reaches the main queue, a rejected
   one the retry queue, which keeps it for the configured time, an expired one the main queue again, and the worker's
   dead-letter publish the DLQ, where it stays.
   */
  lemma DirectRetriesCirculate(d: Declared, event: string, ttl: int, n: Names)
    requires HasDirect(d, event, ttl) && n == BuildNames(event, event)
    ensures n.mainQueue in Routed(d, n.mainExchange, n.mainQueue)
    ensures n.retryQueue in DeadLetterTargets(d, n.mainQueue)
    ensures n.retryQueue in d.queues && d.queues[n.retryQueue].ttl == Some(ttl)
    ensures n.mainQueue in DeadLetterTargets(d, n.retryQueue)
    ensures n.dlq in Routed(d, n.dlxExchange, n.dlq) && DeadLetterTargets(d, n.dlq) == {}
  {
    QueuesLead(d, n.mainExchange, event, ttl, n);
    BoundQueueReceives(d, Binding(n.mainQueue, n.mainQueue, n.mainExchange), Direct, n.mainQueue);
    BoundQueueReceives(d, Binding(n.retryQueue, n.retryQueue, n.mainExchange), Direct, n.retryQueue);
    BoundQueueReceives(d, Binding(n.dlq, n.dlq, n.dlxExchange), Direct, n.dlq);
    assert n.retryQueue in BaseQueues(n.mainExchange, event, ttl);
  }

  /** Where a key of the event's own bindings is routed, by these bindings alone. */
  lemma DirectRoute(event: string, b: Binding)
    requires b in DirectBindings(event)
    ensures Route(Direct, DirectBindings(event), b.exchange, b.key) == {b.queue}
  {
    QueueNameCoincidences(event, event);
    assert |event + ".retry"| == |event| + 6;
  }

  /** If nothing else is bound to the event's exchanges, each of these queues is reached alone. */
  lemma DirectRoutingClosure(d: Declared, event: string, ttl: int, n: Names)
    requires HasDirect(d, event, ttl) && n == BuildNames(event, event)
    requires OnlyBound(d.bindings, n.mainExchange, DirectBindings(event))
    requires OnlyBound(d.bindings, n.dlxExchange, DirectBindings(event))
    ensures Routed(d, n.mainExchange, n.mainQueue) == {n.mainQueue}
    ensures DeadLetterTargets(d, n.mainQueue) == {n.retryQueue} && DeadLetterTargets(d, n.retryQueue) == {n.mainQueue}
    ensures Routed(d, n.dlxExchange, n.dlq) == {n.dlq}
  {
    QueuesLead(d, n.mainExchange, event, ttl, n);
    var own := DirectBindings(event);
    OtherExchangesDoNotMatter(d, n.mainExchange, Direct, own, n.mainQueue);
    OtherExchangesDoNotMatter(d, n.mainExchange, Direct, own, n.retryQueue);
    OtherExchangesDoNotMatter(d, n.dlxExchange, Direct, own, n.dlq);
    DirectRoute(event, Binding(n.mainQueue, n.mainQueue, n.mainExchange));
    DirectRoute(event, Binding(n.retryQueue, n.retryQueue, n.mainExchange));
    DirectRoute(event, Binding(n.dlq, n.dlq, n.dlxExchange));
  }

  // ----- Topic topologies -----

  /** Rejected messages and dead letters of a topic topology arrive, whatever else is declared. */
  lemma TopicRejectionsArrive(d: Declared, event: string, bs: seq<TopicBinding>, ttl: int, i: nat, n: Names)
    requires HasTopic(d, event, bs, ttl) && i < |bs| && n == BuildNames(event, bs[i].queue)
    ensures n.retryQueue in DeadLetterTargets(d, n.mainQueue)
    ensures n.retryQueue in d.queues && d.queues[n.retryQueue].ttl == Some(ttl)
    ensures n.dlq in Routed(d, n.dlxExchange, n.dlq) && DeadLetterTargets(d, n.dlq) == {}
  {
    var own := BuildNames(bs[i].queue, bs[i].queue);
    QueuesLead(d, n.mainExchange, bs[i].queue, ttl, own);
    var retry, dlq := Binding(n.retryQueue, n.retryQueue, n.mainExchange), Binding(n.dlq, n.dlq, n.dlxExchange);
    assert retry in BindingsForTopic(event, bs[i]) && dlq in BindingsForTopic(event, bs[i]);
    WordsMatchThemselves(Words(n.retryQueue));
    BoundQueueReceives(d, retry, Topic, n.retryQueue);
    BoundQueueReceives(d, dlq, Direct, n.dlq);
    assert n.retryQueue in BaseQueues(n.mainExchange, bs[i].queue, ttl);
  }

  /** Expired ones come back exactly when a routing key configured for the queue matches the queue's own name. */
  lemma TopicRetriesReturnExactlyWhen(d: Declared, event: string, bs: seq<TopicBinding>, ttl: int, i: nat, n: Names)
    requires HasTopic(d, event, bs, ttl) && i < |bs| && n == BuildNames(event, bs[i].queue)
    requires OnlyBound(d.bindings, n.mainExchange, TopicBindings(event, bs))
    requires forall j :: 0 <= j < |bs| ==> bs[i].queue != bs[j].queue + ".retry"
    ensures n.mainQueue in DeadLetterTargets(d, n.retryQueue) <==> KeyMatchesOwnName(event, bs, bs[i].queue)
  {
    QueuesLead(d, n.mainExchange, bs[i].queue, ttl, BuildNames(bs[i].queue, bs[i].queue));
    OtherExchangesDoNotMatter(d, n.mainExchange, Topic, TopicBindings(event, bs), n.mainQueue);
    TopicRetryReturnsExactlyWhen(event, bs, bs[i].queue, n.mainExchange, n.mainQueue);
  }

  /** The deployed user topology: registrations and rejections arrive, each at one queue; expired retries nowhere. */
  lemma DeployedUserTopology(d: Declared, c: TopicBinding, ttl: int, n: Names)
    requires c == TopicBinding("wallet-service", "user.created") && n == BuildNames("user", "wallet-service")
    requires HasTopic(d, "user", [c], ttl) && OnlyBound(d.bindings, "user.exchange", TopicBindings("user", [c]))
    ensures Routed(d, "user.exchange", "user.created") == {"wallet-service.queue"}
    ensures DeadLetterTargets(d, "wallet-service.queue") == {"wallet-service.retry.queue"}
    ensures DeadLetterTargets(d, "wallet-service.retry.queue") == {}
    ensures "wallet-service.dlq" in Routed(d, "user.dlx", "wallet-service.dlq")
  {
    DeployedNames(n);
    DeployedUserRetriesAreDropped(c, n);
    assert [c][0] == c;
    QueuesLead(d, n.mainExchange, c.queue, ttl, BuildNames(c.queue, c.queue));
    OtherExchangesDoNotMatter(d, n.mainExchange, Topic, TopicBindings("user", [c]), c.routingKey);
    OtherExchangesDoNotMatter(d, n.mainExchange, Topic, TopicBindings("user", [c]), n.retryQueue);
    OtherExchangesDoNotMatter(d, n.mainExchange, Topic, TopicBindings("user", [c]), n.mainQueue);
    TopicRejectionsArrive(d, "user", [c], ttl, 0, n);
  }

  // ----- Fanout topologies -----

  lemma FanoutRejectionsArrive(d: Declared, event: string, bases: seq<string>, ttl: int, i: nat, n: Names)
    requires HasFanout(d, event, bases, ttl) && i < |bases| && n == BuildNames(event, bases[i])
    ensures n.mainQueue in Routed(d, n.mainExchange, "")
    ensures n.retryQueue in DeadLetterTargets(d, n.mainQueue)
    ensures n.retryQueue in d.queues && d.queues[n.retryQueue].ttl == Some(ttl)
    ensures n.dlq in Routed(d, n.dlxExchange, n.dlq) && DeadLetterTargets(d, n.dlq) == {}
  {
    QueuesLead(d, event + ".retry.exchange", bases[i], ttl, BuildNames(bases[i], bases[i]));
    var main := Binding(n.mainQueue, "", event + ".exchange");
    var retry := Binding(n.retryQueue, n.retryQueue, event + ".retry.exchange");
    var dlq := Binding(n.dlq, n.dlq, event + ".dlx");
    assert {main, retry, dlq} == BindingsForFanout(event, bases[i]);
    var all := FanoutBindings(event, bases);
    assert main in all && retry in all && dlq in all;
    BoundQueueReceives(d, main, Fanout, "");
    BoundQueueReceives(d, retry, Direct, n.retryQueue);
    BoundQueueReceives(d, dlq, Direct, n.dlq);
    assert n.retryQueue in BaseQueues(event + ".retry.exchange", bases[i], ttl);
  }

  lemma FanoutRetriesNeverReturn(d: Declared, event: string, bases: seq<string>, ttl: int, i: nat, n: Names)
    requires HasFanout(d, event, bases, ttl) && i < |bases| && n == BuildNames(event, bases[i])
    requires OnlyBound(d.bindings, event + ".retry.exchange", FanoutBindings(event, bases))
    requires forall j :: 0 <= j < |bases| ==> bases[i] != bases[j] + ".retry"
    ensures DeadLetterTargets(d, n.retryQueue) == {}
  {
    QueuesLead(d, event + ".retry.exchange", bases[i], ttl, BuildNames(bases[i], bases[i]));
    OtherExchangesDoNotMatter(d, event + ".retry.exchange", Direct, FanoutBindings(event, bases), n.mainQueue);
    FanoutRetryNeverReturns(event, bases, bases[i]);
  }

  // ----- The deployed direct topology -----

  lemma NotificationNames(n: Names)
    requires n == BuildNames("notification", "notification")
    ensures n.mainExchange == "notification.exchange" && n.dlxExchange == "notification.dlx"
    ensures n.mainQueue == "notification.queue" && n.retryQueue == "notification.retry.queue"
    ensures n.dlq == "notification.dlq"
  {
  }
}
