/** The topology declarations, statement by statement, with the broker's refusal of inequivalent redeclarations. */
module Topology {
  import opened Common
  import opened Routing
  import opened DeclaredRouting

  /** The broker accepts declaring `more` on top of `queues`. */
  ghost predicate Agrees(queues: Queues, more: Queues) {
    forall q :: q in queues && q in more ==> queues[q] == more[q]
  }

  /** The broker accepts declaring exchange `name` of kind `kind`. */
  ghost predicate KindFits(exchanges: map<string, Kind>, name: string, kind: Kind) {
    name in exchanges ==> exchanges[name] == kind
  }

  lemma BasesAgreeExactlyWhen(dlx: string, dlx': string, base: string, base': string, ttl: int)
    requires base == base' ==> dlx == dlx'
    ensures Agrees(BaseQueues(dlx, base, ttl), BaseQueues(dlx', base', ttl))
       <==> base != base' + ".retry" && base' != base + ".retry"
  {
    QueueNameCoincidences(base, base');
    QueueNameCoincidences(base', base);
    QueueNameCoincidences(base, base);
    QueueNameCoincidences(base', base');
    var n, n' := BuildNames(base, base), BuildNames(base', base');
    assert |base + ".retry"| == |base| + 6 && |base' + ".retry"| == |base'| + 6;
    if base == base' + ".retry" {
      assert n.mainQueue in BaseQueues(dlx, base, ttl) && n.mainQueue in BaseQueues(dlx', base', ttl);
    }
    if base' == base + ".retry" {
      assert n'.mainQueue in BaseQueues(dlx, base, ttl) && n'.mainQueue in BaseQueues(dlx', base', ttl);
    }
  }

  class Channel {
    var exchanges: map<string, Kind>
    var queues: Queues
    var bindings: set<Binding>

    constructor ()
      ensures exchanges == map[] && queues == map[] && bindings == {}
    {
      exchanges, queues, bindings := map[], map[], {};
    }

    function State(): Declared
      reads this
    {
      Declared(exchanges, queues, bindings)
    }

    method DeclareExchange(name: string, kind: Kind) returns (ok: bool)
      modifies this`exchanges
      ensures ok <==> (name in old(exchanges) ==> old(exchanges)[name] == kind)
      ensures exchanges == if ok then old(exchanges)[name := kind] else old(exchanges)
    {
      if name in exchanges && exchanges[name] != kind {
        return false;
      }
      exchanges := exchanges[name := kind];
      return true;
    }

    method DeclareQueue(name: string, args: QueueArgs) returns (ok: bool)
      modifies this`queues
      ensures ok <==> (name in old(queues) ==> old(queues)[name] == args)
      ensures queues == if ok then old(queues)[name := args] else old(queues)
    {
      if name in queues && queues[name] != args {
        return false;
      }
      queues := queues[name := args];
      return true;
    }

    method QueueBind(queue: string, key: string, exchange: string) returns (ok: bool)
      modifies this`bindings
      ensures ok <==> queue in queues && exchange in exchanges
      ensures bindings == if ok then old(bindings) + {Binding(queue, key, exchange)} else old(bindings)
    {
      if queue !in queues || exchange !in exchanges {
        return false;
      }
      bindings := bindings + {Binding(queue, key, exchange)};
      return true;
    }

    /** The three queue declarations shared by every topology. */
    method DeclareQueues(dlx: string, base: string, ttl: int) returns (ok: bool)
      modifies this`queues
      ensures ok <==> Agrees(old(queues), BaseQueues(dlx, base, ttl))
      ensures ok ==> queues == old(queues) + BaseQueues(dlx, base, ttl)
    {
      var n := BuildNames(base, base);
      QueueNameCoincidences(base, base);
      assert |base + ".retry"| == |base| + 6;
      ghost var main, retry, dlq := MainArgs(dlx, n.retryQueue), RetryArgs(ttl, dlx, n.mainQueue), DLQ_ARGS;
      assert forall q :: q in BaseQueues(dlx, base, ttl) <==> q == n.mainQueue || q == n.retryQueue || q == n.dlq;
      assert Agrees(queues, BaseQueues(dlx, base, ttl)) <==>
             (n.mainQueue in queues ==> queues[n.mainQueue] == main)
             && (n.retryQueue in queues ==> queues[n.retryQueue] == retry)
             && (n.dlq in queues ==> queues[n.dlq] == dlq);
      ok := DeclareQueue(n.mainQueue, MainArgs(dlx, n.retryQueue));
      if !ok {
        return;
      }
      ok := DeclareQueue(n.retryQueue, RetryArgs(ttl, dlx, n.mainQueue));
      if !ok {
        return;
      }
      ok := DeclareQueue(n.dlq, DLQ_ARGS);
    }

    /**
     DeclareDirect. On success the channel itself sends a rejected message to the retry queue, which holds it for the
     configured time and sends it back to the main queue; each of them alone if nothing was bound to the event's
     exchanges before.
     */
    method DeclareDirect(event: string, ttl: int) returns (ok: bool)
      modifies this
      ensures ok <==> && KindFits(old(exchanges), event + ".exchange", Direct)
                      && KindFits(old(exchanges), event + ".dlx", Direct)
                      && Agrees(old(queues), BaseQueues(event + ".exchange", event, ttl))
      ensures ok ==> exchanges == old(exchanges)[event + ".exchange" := Direct][event + ".dlx" := Direct]
      ensures ok ==> queues == old(queues) + BaseQueues(event + ".exchange", event, ttl)
      ensures ok ==> bindings == old(bindings) + DirectBindings(event)
      ensures ok ==> HasDirect(State(), event, ttl)
      ensures ok ==> RetryWaits(State(), BuildNames(event, event), ttl)
      ensures ok ==> RetryReturns(State(), BuildNames(event, event))
      ensures ok && Unbound(old(bindings), event + ".exchange") && Unbound(old(bindings), event + ".dlx") ==>
                var n := BuildNames(event, event);
                && DeadLetterTargets(State(), n.mainQueue) == {n.retryQueue}
                && DeadLetterTargets(State(), n.retryQueue) == {n.mainQueue}
    {
      ghost var before := State();
      ok := DeclareDirectParts(event, ttl);
      if ok {
        DirectIsDeclared(before, State(), event, ttl, BuildNames(event, event));
      }
    }

    /** The statements of DeclareDirect. */
    method DeclareDirectParts(event: string, ttl: int) returns (ok: bool)
      modifies this
      ensures ok <==> && KindFits(old(exchanges), event + ".exchange", Direct)
                      && KindFits(old(exchanges), event + ".dlx", Direct)
                      && Agrees(old(queues), BaseQueues(event + ".exchange", event, ttl))
      ensures ok ==> exchanges == old(exchanges)[event + ".exchange" := Direct][event + ".dlx" := Direct]
      ensures ok ==> queues == old(queues) + BaseQueues(event + ".exchange", event, ttl)
      ensures ok ==> bindings == old(bindings) + DirectBindings(event)
    {
      var n := BuildNames(event, event);
      QueueNameCoincidences(event, event);
      ok := DeclareExchange(n.mainExchange, Direct);
      if !ok {
        return;
      }
      ok := DeclareExchange(n.dlxExchange, Direct);
      if !ok {
        return;
      }
      ok := DeclareQueues(n.mainExchange, event, ttl);
      if !ok {
        return;
      }
      ok := BindAll([(n.mainQueue, n.mainExchange), (n.retryQueue, n.mainExchange), (n.dlq, n.dlxExchange)]);
    }

    /** DeclareDirect's loop: bind three queues under their own names. */
    method BindAll(todo: seq<(string, string)>) returns (ok: bool)
      requires |todo| == 3 && forall k :: 0 <= k < |todo| ==> todo[k].0 in queues && todo[k].1 in exchanges
      modifies this`bindings
      ensures ok
      ensures bindings == old(bindings) + {Binding(todo[0].0, todo[0].0, todo[0].1),
                                           Binding(todo[1].0, todo[1].0, todo[1].1),
                                           Binding(todo[2].0, todo[2].0, todo[2].1)}
    {
      ok := true;
      var i := 0;
      while i < |todo|
        invariant 0 <= i <= |todo| && ok
        invariant bindings == old(bindings)
                    + (if i > 0 then {Binding(todo[0].0, todo[0].0, todo[0].1)} else {})
                    + (if i > 1 then {Binding(todo[1].0, todo[1].0, todo[1].1)} else {})
                    + (if i > 2 then {Binding(todo[2].0, todo[2].0, todo[2].1)} else {})
      {
        ok := QueueBind(todo[i].0, todo[i].0, todo[i].1);
        i := i + 1;
      }
    }

    /** One round of DeclareTopic's loop; `already` is the lookup in declaredQueues. */
    method DeclareTopicBinding(event: string, ttl: int, b: TopicBinding, already: bool, ghost next: Queues)
      returns (ok: bool)
      requires event + ".exchange" in exchanges && event + ".dlx" in exchanges
      requires next == BaseQueues(event + ".exchange", b.queue, ttl)
      requires already ==> next.Keys <= queues.Keys && Agrees(queues, next)
      modifies this`queues, this`bindings
      ensures ok <==> Agrees(old(queues), next)
      ensures ok ==> queues == old(queues) + next
      ensures ok ==> bindings == old(bindings)
                       + ({Binding(BuildNames(event, b.queue).mainQueue, b.routingKey, event + ".exchange")}
                          + (if already then {} else BindingsForTopic(event, b)))
    {
      var n := BuildNames(event, b.queue);
      assert next.Keys == {n.mainQueue, n.retryQueue, n.dlq};
      if already {
        MergeSame(queues, next);
      } else {
        ok := DeclareQueues(n.mainExchange, b.queue, ttl);
        if !ok {
          return;
        }
        ok := QueueBind(n.retryQueue, n.retryQueue, n.mainExchange);
        ok := QueueBind(n.dlq, n.dlq, n.dlxExchange);
      }
      ok := QueueBind(n.mainQueue, b.routingKey, n.mainExchange);
    }

    /** The round for binding i, when the first i bindings were declared on top of `start` and `before`. */
    method DeclareNextTopicBinding(event: string, ttl: int, bs: seq<TopicBinding>, i: nat, already: bool,
                                   ghost start: Queues, ghost before: set<Binding>)
      returns (ok: bool)
      requires event + ".exchange" in exchanges && event + ".dlx" in exchanges && i < |bs|
      requires already ==> exists k :: 0 <= k < i && bs[k].queue == bs[i].queue
      requires Accepted(start, queues, Always(event + ".exchange"), QueueBases(bs), i, ttl)
      requires bindings == before + TopicBindings(event, bs[..i])
      modifies this`queues, this`bindings
      ensures ok ==> Accepted(start, queues, Always(event + ".exchange"), QueueBases(bs), i + 1, ttl)
      ensures ok ==> bindings == before + TopicBindings(event, bs[..i + 1])
      ensures !ok ==> !NoRetryNames(QueueBases(bs)) || !AllAgree(start, event + ".exchange", QueueBases(bs), ttl)
    {
      ghost var bases, next := QueueBases(bs), BaseQueues(event + ".exchange", bs[i].queue, ttl);
      assert already ==> exists k :: 0 <= k < i && bases[k] == bases[i] by {
        if already {
          var k :| 0 <= k < i && bs[k].queue == bs[i].queue;
          assert bases[k] == bases[i];
        }
      }
      NextRound(start, queues, Always(event + ".exchange"), bases, i, ttl, next);
      TopicBindingsStep(event, bs, i, already);
      ok := DeclareTopicBinding(event, ttl, bs[i], already, next);
    }

    /** DeclareTopic's loop: each queue is declared once, however many routing keys are configured for it. */
    method DeclareTopicBindings(event: string, ttl: int, bs: seq<TopicBinding>) returns (ok: bool)
      requires event + ".exchange" in exchanges && event + ".dlx" in exchanges
      modifies this`queues, this`bindings
      ensures ok <==> NoRetryNames(QueueBases(bs)) && AllAgree(old(queues), event + ".exchange", QueueBases(bs), ttl)
      ensures ok ==> QueuesAdded(old(queues), queues, Always(event + ".exchange"), QueueBases(bs), ttl)
      ensures ok ==> bindings == old(bindings) + TopicBindings(event, bs)
    {
      ok := true;
      ghost var start, before := queues, bindings;
      var declared: set<string> := {};
      var i := 0;
      while i < |bs|
        invariant 0 <= i <= |bs| && ok
        invariant declared == set k | 0 <= k < i :: bs[k].queue
        invariant Accepted(start, queues, Always(event + ".exchange"), QueueBases(bs), i, ttl)
        invariant bindings == before + TopicBindings(event, bs[..i])
      {
        ok := DeclareNextTopicBinding(event, ttl, bs, i, bs[i].queue in declared, start, before);
        if !ok {
          return;
        }
        declared := declared + {bs[i].queue};
        i := i + 1;
      }
      AllAccepted(start, queues, Always(event + ".exchange"), QueueBases(bs), ttl);
      assert bs[..|bs|] == bs;
    }

    /**
     DeclareTopic. It succeeds exactly when nothing declared before contradicts it and no configured queue is
     another one's name plus ".retry". The channel then sends each queue's rejected messages to its retry queue, which
     holds them for the configured time; if nothing was bound to the event's exchange before, the expired ones come
     back exactly when a routing key configured for the queue matches the queue's own name.
     */
    method DeclareTopic(event: string, ttl: int, bs: seq<TopicBinding>) returns (ok: bool)
      modifies this
      ensures ok <==> && KindFits(old(exchanges), event + ".exchange", Topic)
                      && KindFits(old(exchanges), event + ".dlx", Direct)
                      && NoRetryNames(QueueBases(bs)) && AllAgree(old(queues), event + ".exchange", QueueBases(bs), ttl)
      ensures ok ==> exchanges == old(exchanges)[event + ".exchange" := Topic][event + ".dlx" := Direct]
      ensures ok ==> QueuesAdded(old(queues), queues, Always(event + ".exchange"), QueueBases(bs), ttl)
      ensures ok ==> bindings == old(bindings) + TopicBindings(event, bs)
      ensures ok ==> HasTopic(State(), event, bs, ttl)
      ensures ok ==> forall i :: 0 <= i < |bs| ==> RetryWaits(State(), BuildNames(event, bs[i].queue), ttl)
      ensures ok && Unbound(old(bindings), event + ".exchange") ==>
                forall i :: 0 <= i < |bs| ==>
                  (RetryReturns(State(), BuildNames(event, bs[i].queue)) <==> KeyMatchesOwnName(event, bs, bs[i].queue))
    {
      ghost var before := State();
      QueueNameCoincidences(event, event);
      ok := DeclareExchange(event + ".exchange", Topic);
      if !ok {
        return;
      }
      ok := DeclareExchange(event + ".dlx", Direct);
      if !ok {
        return;
      }
      ok := DeclareTopicBindings(event, ttl, bs);
      if ok {
        TopicIsDeclared(before, State(), event, bs, ttl);
      }
    }

    /** One round of DeclareFanout's loop. */
    method DeclareFanoutQueue(event: string, ttl: int, base: string) returns (ok: bool)
      requires event + ".exchange" in exchanges && event + ".retry.exchange" in exchanges && event + ".dlx" in exchanges
      modifies this`queues, this`bindings
      ensures ok <==> Agrees(old(queues), BaseQueues(event + ".retry.exchange", base, ttl))
      ensures ok ==> queues == old(queues) + BaseQueues(event + ".retry.exchange", base, ttl)
      ensures ok ==> bindings == old(bindings) + BindingsForFanout(event, base)
    {
      var n := BuildNames(event, base);
      assert BaseQueues(event + ".retry.exchange", base, ttl).Keys == {n.mainQueue, n.retryQueue, n.dlq};
      ok := DeclareQueues(event + ".retry.exchange", base, ttl);
      if !ok {
        return;
      }
      ok := QueueBind(n.mainQueue, "", event + ".exchange");
      ok := QueueBind(n.retryQueue, n.retryQueue, event + ".retry.exchange");
      ok := QueueBind(n.dlq, n.dlq, event + ".dlx");
    }

    /** DeclareFanout's loop. */
    method DeclareFanoutQueues(event: string, ttl: int, bases: seq<string>) returns (ok: bool)
      requires event + ".exchange" in exchanges && event + ".retry.exchange" in exchanges && event + ".dlx" in exchanges
      modifies this`queues, this`bindings
      ensures ok <==> NoRetryNames(bases) && AllAgree(old(queues), event + ".retry.exchange", bases, ttl)
      ensures ok ==> QueuesAdded(old(queues), queues, Always(event + ".retry.exchange"), bases, ttl)
      ensures ok ==> bindings == old(bindings) + FanoutBindings(event, bases)
    {
      ok := true;
      ghost var start, dlx := queues, Always(event + ".retry.exchange");
      var i := 0;
      while i < |bases|
        invariant 0 <= i <= |bases| && ok
        invariant Accepted(start, queues, dlx, bases, i, ttl)
        invariant bindings == old(bindings) + FanoutBindings(event, bases[..i])
      {
        NextRound(start, queues, dlx, bases, i, ttl, BaseQueues(event + ".retry.exchange", bases[i], ttl));
        ok := DeclareFanoutQueue(event, ttl, bases[i]);
        if !ok {
          return;
        }
        FanoutBindingsStep(event, bases, i);
        i := i + 1;
      }
      AllAccepted(start, queues, dlx, bases, ttl);
      assert bases[..|bases|] == bases;
    }

    /**
     DeclareFanout: dead letters go through a retry exchange that only knows the retry queues, so rejected messages
     wait there and, if nothing else was bound to that exchange, expired ones reach no queue.
     */
    method DeclareFanout(event: string, ttl: int, bases: seq<string>) returns (ok: bool)
      modifies this
      ensures ok <==> && KindFits(old(exchanges), event + ".exchange", Fanout)
                      && KindFits(old(exchanges), event + ".retry.exchange", Direct)
                      && KindFits(old(exchanges), event + ".dlx", Direct)
                      && NoRetryNames(bases) && AllAgree(old(queues), event + ".retry.exchange", bases, ttl)
      ensures ok ==> exchanges == old(exchanges)[event + ".exchange" := Fanout]
                                  [event + ".retry.exchange" := Direct][event + ".dlx" := Direct]
      ensures ok ==> QueuesAdded(old(queues), queues, Always(event + ".retry.exchange"), bases, ttl)
      ensures ok ==> bindings == old(bindings) + FanoutBindings(event, bases)
      ensures ok ==> HasFanout(State(), event, bases, ttl)
      ensures ok ==> forall i :: 0 <= i < |bases| ==> RetryWaits(State(), BuildNames(event, bases[i]), ttl)
      ensures ok && Unbound(old(bindings), event + ".retry.exchange") ==>
                forall i :: 0 <= i < |bases| ==>
                  DeadLetterTargets(State(), BuildNames(event, bases[i]).retryQueue) == {}
    {
      ghost var before := State();
      var fanoutExchange, retryExchange, dlxExchange := event + ".exchange", event + ".retry.exchange", event + ".dlx";
      assert |fanoutExchange| == |event| + 9 && |retryExchange| == |event| + 15 && |dlxExchange| == |event| + 4;
      ok := DeclareExchange(fanoutExchange, Fanout);
      if !ok {
        return;
      }
      ok := DeclareExchange(retryExchange, Direct);
      if !ok {
        return;
      }
      ok := DeclareExchange(dlxExchange, Direct);
      if !ok {
        return;
      }
      ok := DeclareFanoutQueues(event, ttl, bases);
      if ok {
        FanoutIsDeclared(before, State(), event, bases, ttl);
      }
    }
  }

  // ----- What the declared broker does with rejected and expired messages -----

  ghost predicate Unbound(bindings: set<Binding>, exchange: string) {
    forall b :: b in bindings ==> b.exchange != exchange
  }

  /** A message rejected from the main queue is sent to the retry queue, which holds it for `ttl`. */
  ghost predicate RetryWaits(d: Declared, n: Names, ttl: int) {
    && n.retryQueue in DeadLetterTargets(d, n.mainQueue)
    && n.retryQueue in d.queues && d.queues[n.retryQueue].ttl == Some(ttl)
  }

  /** A message expired in the retry queue is sent to the main queue. */
  ghost predicate RetryReturns(d: Declared, n: Names) {
    n.mainQueue in DeadLetterTargets(d, n.retryQueue)
  }

  /** The queues are those there were and those of the bases, each with its own arguments. */
  ghost predicate QueuesAdded(start: Queues, queues: Queues, dlx: string -> string, bases: seq<string>, ttl: int) {
    && Includes(queues, start)
    && (forall i :: 0 <= i < |bases| ==> Includes(queues, BaseQueues(dlx(bases[i]), bases[i], ttl)))
    && (forall q :: q in queues ==>
          q in start || exists i :: 0 <= i < |bases| && q in BaseQueues(dlx(bases[i]), bases[i], ttl))
  }

  lemma DirectIsDeclared(before: Declared, after: Declared, event: string, ttl: int, n: Names)
    requires n == BuildNames(event, event)
    requires after.exchanges == before.exchanges[event + ".exchange" := Direct][event + ".dlx" := Direct]
    requires after.queues == before.queues + BaseQueues(event + ".exchange", event, ttl)
    requires after.bindings == before.bindings + DirectBindings(event)
    ensures HasDirect(after, event, ttl)
    ensures n.retryQueue in DeadLetterTargets(after, n.mainQueue)
    ensures n.mainQueue in DeadLetterTargets(after, n.retryQueue)
    ensures n.retryQueue in after.queues && after.queues[n.retryQueue].ttl == Some(ttl)
    ensures Unbound(before.bindings, n.mainExchange) && Unbound(before.bindings, n.dlxExchange) ==>
              DeadLetterTargets(after, n.mainQueue) == {n.retryQueue}
              && DeadLetterTargets(after, n.retryQueue) == {n.mainQueue}
  {
    QueueNameCoincidences(event, event);
    DirectRetriesCirculate(after, event, ttl, n);
    if Unbound(before.bindings, n.mainExchange) && Unbound(before.bindings, n.dlxExchange) {
      DirectRoutingClosure(after, event, ttl, n);
    }
  }

  lemma TopicQueuesIncluded(queues: Queues, queues': Queues, event: string, bs: seq<TopicBinding>, ttl: int, i: nat)
    requires QueuesAdded(queues, queues', Always(event + ".exchange"), QueueBases(bs), ttl) && i < |bs|
    ensures Includes(queues', BaseQueues(event + ".exchange", bs[i].queue, ttl))
  {
    assert QueueBases(bs)[i] == bs[i].queue;
  }

  lemma TopicReturns(d: Declared, event: string, bs: seq<TopicBinding>, ttl: int, i: nat)
    requires HasTopic(d, event, bs, ttl) && OnlyBound(d.bindings, event + ".exchange", TopicBindings(event, bs))
    requires i < |bs| && NoRetryNames(QueueBases(bs))
    ensures RetryReturns(d, BuildNames(event, bs[i].queue)) <==> KeyMatchesOwnName(event, bs, bs[i].queue)
  {
    var bases := QueueBases(bs);
    forall j | 0 <= j < |bs| ensures bs[i].queue != bs[j].queue + ".retry" {
      assert bases[i] != bases[j] + ".retry";
    }
    TopicRetriesReturnExactlyWhen(d, event, bs, ttl, i, BuildNames(event, bs[i].queue));
  }

  lemma TopicIsDeclared(before: Declared, after: Declared, event: string, bs: seq<TopicBinding>, ttl: int)
    requires after.exchanges == before.exchanges[event + ".exchange" := Topic][event + ".dlx" := Direct]
    requires QueuesAdded(before.queues, after.queues, Always(event + ".exchange"), QueueBases(bs), ttl)
    requires after.bindings == before.bindings + TopicBindings(event, bs) && NoRetryNames(QueueBases(bs))
    ensures HasTopic(after, event, bs, ttl)
    ensures forall i :: 0 <= i < |bs| ==> RetryWaits(after, BuildNames(event, bs[i].queue), ttl)
    ensures Unbound(before.bindings, event + ".exchange") ==>
              forall i :: 0 <= i < |bs| ==>
                (RetryReturns(after, BuildNames(event, bs[i].queue)) <==> KeyMatchesOwnName(event, bs, bs[i].queue))
  {
    QueueNameCoincidences(event, event);
    forall i | 0 <= i < |bs| ensures Includes(after.queues, BaseQueues(event + ".exchange", bs[i].queue, ttl)) {
      TopicQueuesIncluded(before.queues, after.queues, event, bs, ttl, i);
    }
    assert HasTopic(after, event, bs, ttl);
    forall i | 0 <= i < |bs| ensures RetryWaits(after, BuildNames(event, bs[i].queue), ttl) {
      TopicRejectionsArrive(after, event, bs, ttl, i, BuildNames(event, bs[i].queue));
    }
    if Unbound(before.bindings, event + ".exchange") {
      forall i | 0 <= i < |bs|
        ensures RetryReturns(after, BuildNames(event, bs[i].queue)) <==> KeyMatchesOwnName(event, bs, bs[i].queue)
      {
        TopicReturns(after, event, bs, ttl, i);
      }
    }
  }

  lemma FanoutIsDeclared(before: Declared, after: Declared, event: string, bases: seq<string>, ttl: int)
    requires after.exchanges == before.exchanges[event + ".exchange" := Fanout]
                                [event + ".retry.exchange" := Direct][event + ".dlx" := Direct]
    requires QueuesAdded(before.queues, after.queues, Always(event + ".retry.exchange"), bases, ttl)
    requires after.bindings == before.bindings + FanoutBindings(event, bases) && NoRetryNames(bases)
    ensures HasFanout(after, event, bases, ttl)
    ensures forall i :: 0 <= i < |bases| ==> RetryWaits(after, BuildNames(event, bases[i]), ttl)
    ensures Unbound(before.bindings, event + ".retry.exchange") ==>
              forall i :: 0 <= i < |bases| ==> DeadLetterTargets(after, BuildNames(event, bases[i]).retryQueue) == {}
  {
    assert |event + ".exchange"| == |event| + 9 && |event + ".retry.exchange"| == |event| + 15;
    assert |event + ".dlx"| == |event| + 4;
    forall i | 0 <= i < |bases| ensures RetryWaits(after, BuildNames(event, bases[i]), ttl) {
      FanoutRejectionsArrive(after, event, bases, ttl, i, BuildNames(event, bases[i]));
    }
    if Unbound(before.bindings, event + ".retry.exchange") {
      forall i | 0 <= i < |bases| ensures DeadLetterTargets(after, BuildNames(event, bases[i]).retryQueue) == {} {
        FanoutRetriesNeverReturn(after, event, bases, ttl, i, BuildNames(event, bases[i]));
      }
    }
  }

  lemma TopicBindingsStep(event: string, bs: seq<TopicBinding>, i: nat, already: bool)
    requires i < |bs| && (already ==> exists k :: 0 <= k < i && bs[k].queue == bs[i].queue)
    ensures TopicBindings(event, bs[..i + 1])
         == TopicBindings(event, bs[..i])
            + ({Binding(BuildNames(event, bs[i].queue).mainQueue, bs[i].routingKey, event + ".exchange")}
               + (if already then {} else BindingsForTopic(event, bs[i])))
  {
    var before, after := bs[..i], bs[..i + 1];
    forall b | b in BindingsForTopic(event, bs[i]) ensures b in TopicBindings(event, after) {
      assert after[i] == bs[i];
    }
    forall b | b in TopicBindings(event, before) ensures b in TopicBindings(event, after) {
      var k :| 0 <= k < |before| && b in BindingsForTopic(event, before[k]);
      assert after[k] == before[k];
    }
    forall b | b in TopicBindings(event, after)
      ensures b in TopicBindings(event, before) || b in BindingsForTopic(event, bs[i])
    {
      var k :| 0 <= k < |after| && b in BindingsForTopic(event, after[k]);
      if k < i {
        assert before[k] == after[k];
      }
    }
    if already {
      var k :| 0 <= k < i && bs[k].queue == bs[i].queue;
      var n := BuildNames(event, bs[i].queue);
      assert before[k].queue == bs[i].queue;
      assert Binding(n.retryQueue, n.retryQueue, n.mainExchange) in BindingsForTopic(event, before[k]);
      assert Binding(n.dlq, n.dlq, n.dlxExchange) in BindingsForTopic(event, before[k]);
    }
  }

  lemma FanoutBindingsStep(event: string, bases: seq<string>, i: nat)
    requires i < |bases|
    ensures FanoutBindings(event, bases[..i + 1])
         == FanoutBindings(event, bases[..i]) + BindingsForFanout(event, bases[i])
  {
    var before, after := bases[..i], bases[..i + 1];
    forall b | b in BindingsForFanout(event, bases[i]) ensures b in FanoutBindings(event, after) {
      assert after[i] == bases[i];
    }
    forall b | b in FanoutBindings(event, before) ensures b in FanoutBindings(event, after) {
      var k :| 0 <= k < |before| && b in BindingsForFanout(event, before[k]);
      assert after[k] == before[k];
    }
    forall b | b in FanoutBindings(event, after)
      ensures b in FanoutBindings(event, before) || b in BindingsForFanout(event, bases[i])
    {
      var k :| 0 <= k < |after| && b in BindingsForFanout(event, after[k]);
      if k < i {
        assert before[k] == after[k];
      }
    }
  }

  /** No queue of these bases was declared differently before. */
  ghost predicate AllAgree(queues: Queues, dlx: string, bases: seq<string>, ttl: int) {
    forall i :: 0 <= i < |bases| ==> Agrees(queues, BaseQueues(dlx, bases[i], ttl))
  }

  /** The queue base of each configured binding. */
  ghost function QueueBases(bs: seq<TopicBinding>): seq<string> {
    seq(|bs|, i requires 0 <= i < |bs| => bs[i].queue)
  }

  /** No event of the list is another one's name plus ".retry". */
  ghost predicate NoRetryNames(events: seq<string>) {
    forall i, j :: 0 <= i < |events| && 0 <= j < |events| ==> events[i] != events[j] + ".retry"
  }

  /** The declared queues are those of `start` and of the first k bases, each dead-lettering through its exchange. */
  ghost predicate DeclaredUpTo(start: Queues, queues: Queues, dlx: string -> string, bases: seq<string>, k: nat,
                               ttl: int) {
    && k <= |bases|
    && (forall q :: q in start ==> q in queues && queues[q] == start[q])
    && (forall q :: q in queues && q !in start ==> exists i :: 0 <= i < k && HasQueue(queues, dlx, q, bases[i], ttl))
    && (forall i :: 0 <= i < k ==> BaseQueues(dlx(bases[i]), bases[i], ttl).Keys <= queues.Keys)
    && (forall i :: 0 <= i < k ==> Agrees(queues, BaseQueues(dlx(bases[i]), bases[i], ttl)))
  }

  ghost predicate HasQueue(queues: Queues, dlx: string -> string, q: string, base: string, ttl: int) {
    && q in queues && q in BaseQueues(dlx(base), base, ttl)
    && queues[q] == BaseQueues(dlx(base), base, ttl)[q]
  }

  lemma NextBaseAgreesExactlyWhen(start: Queues, queues: Queues, dlx: string -> string, bases: seq<string>, k: nat,
                                  ttl: int)
    requires DeclaredUpTo(start, queues, dlx, bases, k, ttl) && k < |bases|
    ensures Agrees(queues, BaseQueues(dlx(bases[k]), bases[k], ttl))
       <==> Agrees(start, BaseQueues(dlx(bases[k]), bases[k], ttl))
            && forall i :: 0 <= i < k ==> bases[i] != bases[k] + ".retry" && bases[k] != bases[i] + ".retry"
  {
    var next := BaseQueues(dlx(bases[k]), bases[k], ttl);
    forall i | 0 <= i < k
      ensures Agrees(BaseQueues(dlx(bases[i]), bases[i], ttl), next)
         <==> bases[i] != bases[k] + ".retry" && bases[k] != bases[i] + ".retry"
    {
      BasesAgreeExactlyWhen(dlx(bases[i]), dlx(bases[k]), bases[i], bases[k], ttl);
    }
    if Agrees(queues, next) {
      forall i | 0 <= i < k ensures Agrees(BaseQueues(dlx(bases[i]), bases[i], ttl), next) {
        AgreesThrough(queues, next, BaseQueues(dlx(bases[i]), bases[i], ttl));
      }
    } else {
      var q :| q in queues && q in next && queues[q] != next[q];
      if q !in start {
        var i :| 0 <= i < k && HasQueue(queues, dlx, q, bases[i], ttl);
        assert !Agrees(BaseQueues(dlx(bases[i]), bases[i], ttl), next);
      }
    }
  }

  lemma AgreesThrough(queues: Queues, next: Queues, mine: Queues)
    requires mine.Keys <= queues.Keys && Agrees(queues, mine) && Agrees(queues, next)
    ensures Agrees(mine, next)
  {
    forall q | q in mine && q in next ensures mine[q] == next[q] {
      assert q in queues.Keys;
    }
  }

  /** What a later agreeing declaration leaves in place. */
  lemma AgreesFrame(queues: Queues, next: Queues, mine: Queues)
    requires mine.Keys <= queues.Keys && Agrees(queues, mine) && Agrees(queues, next)
    ensures mine.Keys <= (queues + next).Keys && Agrees(queues + next, mine)
  {
    forall q | q in queues + next && q in mine ensures (queues + next)[q] == mine[q] {
      assert q in queues.Keys;
    }
  }

  lemma DeclareExtends(start: Queues, queues: Queues, dlx: string -> string, bases: seq<string>, k: nat, ttl: int,
                       next: Queues)
    requires DeclaredUpTo(start, queues, dlx, bases, k, ttl) && k < |bases|
    requires next == BaseQueues(dlx(bases[k]), bases[k], ttl) && Agrees(queues, next)
    ensures DeclaredUpTo(start, queues + next, dlx, bases, k + 1, ttl)
  {
    var queues' := queues + next;
    forall q | q in queues' && q !in start
      ensures exists i :: 0 <= i < k + 1 && HasQueue(queues', dlx, q, bases[i], ttl)
    {
      if q in next {
        assert HasQueue(queues', dlx, q, bases[k], ttl);
      } else {
        var i :| 0 <= i < k && HasQueue(queues, dlx, q, bases[i], ttl);
        assert HasQueue(queues', dlx, q, bases[i], ttl);
      }
    }
    forall i | 0 <= i < k + 1
      ensures BaseQueues(dlx(bases[i]), bases[i], ttl).Keys <= queues'.Keys
      ensures Agrees(queues', BaseQueues(dlx(bases[i]), bases[i], ttl))
    {
      if i < k {
        AgreesFrame(queues, next, BaseQueues(dlx(bases[i]), bases[i], ttl));
      }
    }
  }

  lemma MergeSame(queues: Queues, next: Queues)
    requires next.Keys <= queues.Keys && Agrees(queues, next)
    ensures queues + next == queues
  {
  }

  /** Every base dead-letters through the same exchange. */
  ghost function Always(exchange: string): string -> string {
    _ => exchange
  }

  /** The first k bases were accepted on top of `start`. */
  ghost predicate Accepted(start: Queues, queues: Queues, dlx: string -> string,
                           bases: seq<string>, k: nat, ttl: int) {
    && DeclaredUpTo(start, queues, dlx, bases, k, ttl)
    && NoRetryNames(bases[..k])
    && (forall i :: 0 <= i < k ==> Agrees(start, BaseQueues(dlx(bases[i]), bases[i], ttl)))
  }

  /** One more base: when the broker accepts it, and what is declared then. */
  lemma NextRound(start: Queues, queues: Queues, dlx: string -> string, bases: seq<string>,
                  k: nat, ttl: int, next: Queues)
    requires k < |bases| && Accepted(start, queues, dlx, bases, k, ttl)
    requires next == BaseQueues(dlx(bases[k]), bases[k], ttl)
    ensures !Agrees(queues, next) ==> !NoRetryNames(bases) || !Agrees(start, next)
    ensures Agrees(queues, next) ==> Accepted(start, queues + next, dlx, bases, k + 1, ttl)
    ensures (exists i :: 0 <= i < k && bases[i] == bases[k]) ==> next.Keys <= queues.Keys && Agrees(queues, next)
  {
    NextBaseAgreesExactlyWhen(start, queues, dlx, bases, k, ttl);
    NoRetryStep(bases, k);
    if Agrees(queues, next) {
      DeclareExtends(start, queues, dlx, bases, k, ttl, next);
    }
  }

  lemma AllAccepted(start: Queues, queues: Queues, dlx: string -> string,
                    bases: seq<string>, ttl: int)
    requires Accepted(start, queues, dlx, bases, |bases|, ttl)
    ensures NoRetryNames(bases)
    ensures forall i :: 0 <= i < |bases| ==> Agrees(start, BaseQueues(dlx(bases[i]), bases[i], ttl))
    ensures QueuesAdded(start, queues, dlx, bases, ttl)
  {
    assert bases[..|bases|] == bases;
    forall i | 0 <= i < |bases| ensures Includes(queues, BaseQueues(dlx(bases[i]), bases[i], ttl)) {
      var mine := BaseQueues(dlx(bases[i]), bases[i], ttl);
      assert Agrees(queues, mine) && mine.Keys <= queues.Keys;
      forall q | q in mine ensures q in queues && queues[q] == mine[q] {
        assert q in mine.Keys;
      }
    }
    forall q | q in queues && q !in start
      ensures exists i :: 0 <= i < |bases| && q in BaseQueues(dlx(bases[i]), bases[i], ttl)
    {
      var i :| 0 <= i < |bases| && HasQueue(queues, dlx, q, bases[i], ttl);
    }
  }

  /** Both exchanges of the event are new or direct already. */
  ghost predicate DirectFits(exchanges: map<string, Kind>, event: string) {
    KindFits(exchanges, event + ".exchange", Direct) && KindFits(exchanges, event + ".dlx", Direct)
  }

  ghost predicate AllDirectFit(exchanges: map<string, Kind>, events: seq<string>) {
    forall i :: 0 <= i < |events| ==> DirectFits(exchanges, events[i])
  }

  /** Every event dead-letters through its own exchange. */
  ghost function OwnExchange(): string -> string {
    (event: string) => event + ".exchange"
  }

  /** The exchanges with the two direct ones of each event. */
  function WithExchanges(start: map<string, Kind>, events: seq<string>): map<string, Kind> {
    if events == [] then start
    else
      var last := events[|events| - 1];
      WithExchanges(start, events[..|events| - 1])[last + ".exchange" := Direct][last + ".dlx" := Direct]
  }

  /** Exactly the two exchanges of each event become direct ones; the others stay as they were. */
  lemma {:induction false} WithExchangesExactly(start: map<string, Kind>, events: seq<string>, x: string)
    ensures var after := WithExchanges(start, events);
            if exists i :: 0 <= i < |events| && (x == events[i] + ".exchange" || x == events[i] + ".dlx")
            then x in after && after[x] == Direct
            else (x in after <==> x in start) && (x in start ==> after[x] == start[x])
  {
    if events != [] {
      var init, last := events[..|events| - 1], events[|events| - 1];
      WithExchangesExactly(start, init, x);
      if i :| 0 <= i < |init| && (x == init[i] + ".exchange" || x == init[i] + ".dlx") {
        assert events[i] == init[i];
      }
      if j :| 0 <= j < |events| && (x == events[j] + ".exchange" || x == events[j] + ".dlx") {
        assert j < |init| ==> init[j] == events[j];
      }
    }
  }

  /** Whether one more event fits does not depend on the direct exchanges added before it. */
  lemma FitsAfterExactlyWhen(start: map<string, Kind>, events: seq<string>, event: string)
    ensures DirectFits(WithExchanges(start, events), event) || !DirectFits(start, event)
    ensures AllDirectFit(start, events) && DirectFits(WithExchanges(start, events), event) ==> DirectFits(start, event)
  {
    WithExchangesExactly(start, events, event + ".exchange");
    WithExchangesExactly(start, events, event + ".dlx");
  }

  /** What the declared topologies of all events do, on the broker itself. */
  lemma AllDirectIsDeclared(before: Declared, after: Declared, events: seq<string>, ttl: int, i: nat, n: Names)
    requires i < |events| && n == BuildNames(events[i], events[i])
    requires after.exchanges == WithExchanges(before.exchanges, events)
    requires QueuesAdded(before.queues, after.queues, OwnExchange(), events, ttl)
    requires after.bindings == before.bindings + AllDirectBindings(set j | 0 <= j < |events| :: events[j])
    ensures HasDirect(after, events[i], ttl) && RetryWaits(after, n, ttl) && RetryReturns(after, n)
    ensures Unbound(before.bindings, n.mainExchange) && Unbound(before.bindings, n.dlxExchange) ==>
              DeadLetterTargets(after, n.mainQueue) == {n.retryQueue}
              && DeadLetterTargets(after, n.retryQueue) == {n.mainQueue}
              && Routed(after, n.dlxExchange, n.dlq) == {n.dlq}
  {
    var event, all := events[i], set j | 0 <= j < |events| :: events[j];
    assert event in all && DirectBindings(event) <= AllDirectBindings(all);
    assert Includes(after.queues, BaseQueues(OwnExchange()(event), event, ttl));
    WithExchangesExactly(before.exchanges, events, event + ".exchange");
    WithExchangesExactly(before.exchanges, events, event + ".dlx");
    assert HasDirect(after, event, ttl);
    DirectRetriesCirculate(after, event, ttl, n);
    if Unbound(before.bindings, n.mainExchange) && Unbound(before.bindings, n.dlxExchange) {
      forall b | b in after.bindings && (b.exchange == n.mainExchange || b.exchange == n.dlxExchange)
        ensures b in DirectBindings(event)
      {
        DirectBindingsAreOwn(all, event, b);
      }
      DirectRoutingClosure(after, event, ttl, n);
    }
  }

  /** The first k topologies have been declared on top of `start`. */
  ghost predicate DeclaredDirect(start: Declared, d: Declared, events: seq<string>, k: nat, ttl: int) {
    && k <= |events|
    && d.exchanges == WithExchanges(start.exchanges, events[..k]) && AllDirectFit(start.exchanges, events[..k])
    && Accepted(start.queues, d.queues, OwnExchange(), events, k, ttl)
    && d.bindings == start.bindings + AllDirectBindings(set i | 0 <= i < k :: events[i])
  }

  lemma NextExchanges(start: map<string, Kind>, events: seq<string>, k: nat, was: map<string, Kind>,
                      after: map<string, Kind>)
    requires k < |events| && was == WithExchanges(start, events[..k]) && AllDirectFit(start, events[..k])
    requires after == was[events[k] + ".exchange" := Direct][events[k] + ".dlx" := Direct]
    ensures after == WithExchanges(start, events[..k + 1])
    ensures DirectFits(was, events[k]) ==> AllDirectFit(start, events[..k + 1])
    ensures !DirectFits(was, events[k]) ==> !AllDirectFit(start, events)
  {
    var upTo, next := events[..k], events[..k + 1];
    assert next[..k] == upTo && next[k] == events[k];
    FitsAfterExactlyWhen(start, upTo, events[k]);
    if DirectFits(was, events[k]) {
      forall i | 0 <= i < |next| ensures DirectFits(start, next[i]) {
        if i < k {
          assert next[i] == upTo[i];
        }
      }
    }
  }

  /** The declaration of one more event is accepted exactly when it does not contradict `start` or an earlier one. */
  lemma NextDirect(start: Declared, d: Declared, events: seq<string>, k: nat, ttl: int, d': Declared, next: Queues)
    requires k < |events| && DeclaredDirect(start, d, events, k, ttl)
    requires next == BaseQueues(events[k] + ".exchange", events[k], ttl)
    requires d'.exchanges == d.exchanges[events[k] + ".exchange" := Direct][events[k] + ".dlx" := Direct]
    requires d'.queues == d.queues + next && d'.bindings == d.bindings + DirectBindings(events[k])
    ensures DirectFits(d.exchanges, events[k]) && Agrees(d.queues, next) ==>
              DeclaredDirect(start, d', events, k + 1, ttl)
    ensures !(DirectFits(d.exchanges, events[k]) && Agrees(d.queues, next)) ==>
              !NoRetryNames(events) || !AllDirectFit(start.exchanges, events) || !Agrees(start.queues, next)
  {
    NextRound(start.queues, d.queues, OwnExchange(), events, k, ttl, next);
    NextExchanges(start.exchanges, events, k, d.exchanges, d'.exchanges);
    BindingsStep(events, k);
  }

  /**
   The direct topologies of a list of events can all be declared exactly when nothing declared before contradicts
   them and no event is another one's name plus ".retry". The broker then sends every event's rejected messages to its
   retry queue for the configured time and the expired ones back, to no other queue if nothing was bound to the
   event's exchanges before.
   */
  method DeclareAllDirect(ch: Channel, events: seq<string>, ttl: int) returns (ok: bool)
    modifies ch
    ensures ok <==> && NoRetryNames(events) && AllDirectFit(old(ch.exchanges), events)
                    && forall i :: 0 <= i < |events| ==>
                         Agrees(old(ch.queues), BaseQueues(events[i] + ".exchange", events[i], ttl))
    ensures ok ==> ch.bindings == old(ch.bindings) + AllDirectBindings(set i | 0 <= i < |events| :: events[i])
    ensures ok ==> QueuesAdded(old(ch.queues), ch.queues, OwnExchange(), events, ttl)
    ensures ok ==> ch.exchanges == WithExchanges(old(ch.exchanges), events)
    ensures ok ==> forall i :: 0 <= i < |events| ==>
              var n := BuildNames(events[i], events[i]);
              && HasDirect(ch.State(), events[i], ttl)
              && RetryWaits(ch.State(), n, ttl) && RetryReturns(ch.State(), n)
              && (Unbound(old(ch.bindings), n.mainExchange) && Unbound(old(ch.bindings), n.dlxExchange) ==>
                    DeadLetterTargets(ch.State(), n.mainQueue) == {n.retryQueue}
                    && DeadLetterTargets(ch.State(), n.retryQueue) == {n.mainQueue})
  {
    ghost var old' := ch.State();
    ok := DeclareAllDirectParts(ch, events, ttl);
    if ok {
      assert events[..|events|] == events;
      AllAccepted(old'.queues, ch.queues, OwnExchange(), events, ttl);
      forall i | 0 <= i < |events|
        ensures var n := BuildNames(events[i], events[i]);
                && HasDirect(ch.State(), events[i], ttl)
                && RetryWaits(ch.State(), n, ttl) && RetryReturns(ch.State(), n)
                && (Unbound(old'.bindings, n.mainExchange) && Unbound(old'.bindings, n.dlxExchange) ==>
                      DeadLetterTargets(ch.State(), n.mainQueue) == {n.retryQueue}
                      && DeadLetterTargets(ch.State(), n.retryQueue) == {n.mainQueue})
      {
        AllDirectIsDeclared(old', ch.State(), events, ttl, i, BuildNames(events[i], events[i]));
      }
    }
  }

  method DeclareAllDirectParts(ch: Channel, events: seq<string>, ttl: int) returns (ok: bool)
    modifies ch
    ensures ok <==> && NoRetryNames(events) && AllDirectFit(old(ch.exchanges), events)
                    && forall i :: 0 <= i < |events| ==>
                         Agrees(old(ch.queues), BaseQueues(events[i] + ".exchange", events[i], ttl))
    ensures ok ==> DeclaredDirect(old(ch.State()), ch.State(), events, |events|, ttl)
  {
    ghost var start := ch.State();
    assert events[..0] == [];
    var k := 0;
    ok := true;
    while k < |events|
      invariant 0 <= k <= |events| && ok
      invariant DeclaredDirect(start, ch.State(), events, k, ttl)
    {
      ok := DeclareNextDirect(ch, events, k, ttl, start);
      if !ok {
        return;
      }
      k := k + 1;
    }
    AllAccepted(start.queues, ch.queues, OwnExchange(), events, ttl);
    assert events[..|events|] == events;
  }

  /** The round for event k. */
  method DeclareNextDirect(ch: Channel, events: seq<string>, k: nat, ttl: int, ghost start: Declared) returns (ok: bool)
    requires k < |events| && DeclaredDirect(start, ch.State(), events, k, ttl)
    modifies ch
    ensures ok ==> DeclaredDirect(start, ch.State(), events, k + 1, ttl)
    ensures !ok ==> || !NoRetryNames(events) || !AllDirectFit(start.exchanges, events)
                    || !Agrees(start.queues, BaseQueues(events[k] + ".exchange", events[k], ttl))
  {
    ghost var d, next := ch.State(), BaseQueues(events[k] + ".exchange", events[k], ttl);
    ghost var d' := Declared(d.exchanges[events[k] + ".exchange" := Direct][events[k] + ".dlx" := Direct],
                             d.queues + next, d.bindings + DirectBindings(events[k]));
    NextDirect(start, d, events, k, ttl, d', next);
    ok := ch.DeclareDirectParts(events[k], ttl);
    assert ok ==> ch.State() == d';
  }

  lemma NoRetryStep(events: seq<string>, k: nat)
    requires k < |events| && NoRetryNames(events[..k])
    ensures NoRetryNames(events[..k + 1]) <==>
              forall i :: 0 <= i < k ==> events[i] != events[k] + ".retry" && events[k] != events[i] + ".retry"
    ensures !NoRetryNames(events[..k + 1]) ==> !NoRetryNames(events)
  {
    var upTo, next := events[..k], events[..k + 1];
    assert |events[k] + ".retry"| == |events[k]| + 6;
    forall i, j | 0 <= i < k && 0 <= j < k ensures events[i] != events[j] + ".retry" {
      assert upTo[i] != upTo[j] + ".retry";
    }
    if i, j :| 0 <= i < |next| && 0 <= j < |next| && next[i] == next[j] + ".retry" {
      assert events[i] == events[j] + ".retry";
    }
    if i :| 0 <= i < k && (events[i] == events[k] + ".retry" || events[k] == events[i] + ".retry") {
      assert next[i] == next[k] + ".retry" || next[k] == next[i] + ".retry";
    }
  }

  lemma BindingsStep(events: seq<string>, k: nat)
    requires k < |events|
    ensures AllDirectBindings(set i | 0 <= i < k + 1 :: events[i])
         == AllDirectBindings(set i | 0 <= i < k :: events[i]) + DirectBindings(events[k])
  {
    var before, after := set i | 0 <= i < k :: events[i], set i | 0 <= i < k + 1 :: events[i];
    assert after == before + {events[k]};
    forall b
      ensures b in AllDirectBindings(after) <==> b in AllDirectBindings(before) || b in DirectBindings(events[k])
    {
      if b in DirectBindings(events[k]) {
        assert events[k] in after;
      }
    }
  }
}
