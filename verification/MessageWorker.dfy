/** processMessage as imperative code over a broker, and the life of a message whose handler always fails. */
module MessageWorker {
  import opened Common
  import opened XDeath
  import opened Delivery
  import opened Routing
  import opened DeclaredRouting

  datatype HandlerOutcome = Nil | Error | Panic

  function HeadersOf(items: seq<Value>): Headers {
    if items == [] then None else Some(map["x-death" := List(items)])
  }

  /** The retry count of a delivery with this x-death list. */
  method RetryCount(items: seq<Value>, queue: string) returns (n: int)
    ensures n == FirstCount(items, Death(queue, REJECTED))
  {
    n := ExtractRejectedCount(HeadersOf(items), queue);
    assert items != [] ==> HeadersOf(items).value["x-death"] == List(items);
  }

  class Broker {
    const cfg: Config
    var insts: map<InstId, Inst>
    var dropped: set<MsgId>
    var nextId: InstId

    constructor (cfg: Config)
      ensures this.cfg == cfg && insts == map[] && dropped == {} && nextId == 0
    {
      this.cfg, insts, dropped, nextId := cfg, map[], {}, 0;
    }

    /** The stored copies and the drops, as a state of the delivery machine. */
    function Stored(): State
      reads this
    {
      State(insts, {}, {}, dropped)
    }

    ghost predicate IdsBelowNext()
      reads this
    {
      forall i :: i in insts ==> i < nextId
    }

    /** A publisher stores a new message in the main queue. */
    method Publish(msg: MsgId) returns (i: InstId)
      requires IdsBelowNext()
      modifies this
      ensures IdsBelowNext() && i !in old(insts)
      ensures insts == old(insts)[i := Inst(msg, Main, [], [], 0, true)] && dropped == old(dropped)
    {
      i := nextId;
      insts := insts[i := Inst(msg, Main, [], [], 0, true)];
      nextId := nextId + 1;
    }

    /**
     processMessage on a delivery: nil acknowledges it, a panic requeues it unchanged, an error rejects it, or - once
     the retries are used up - publishes a copy with the same message id and headers to the dead-letter exchange and
     acknowledges it, requeueing the delivery if that publish fails.
     */
    method ProcessMessage(i: InstId, outcome: HandlerOutcome, dlqPublishFails: bool) returns (copy: InstId)
      requires IdsBelowNext() && i in insts && insts[i].place == Unacked(Delivered)
      modifies this
      ensures IdsBelowNext() && copy !in old(insts)
      ensures var ran := old(insts)[i].(runs := old(insts)[i].runs + 1);
              var began := old(Stored()).(insts := old(insts)[i := ran]);
              Stored() == match outcome
                          case Nil => old(Stored()).(insts := old(insts) - {i})
                          case Panic => began.(insts := old(insts)[i := Requeued(ran)])
                          case Error =>
                            if !Exhausted(cfg, old(insts)[i]) then AfterReject(cfg, began, i, copy)
                            else if dlqPublishFails then began.(insts := old(insts)[i := Requeued(ran)])
                            else
                              var stored := AfterDlqPublish(cfg, began, i, copy);
                              stored.(insts := stored.insts - {i})
    {
      copy := nextId;
      nextId := nextId + 1;
      insts := insts[i := insts[i].(runs := insts[i].runs + 1)];
      if outcome == Panic {
        insts := insts[i := Requeued(insts[i])];
        return;
      }
      if outcome == Nil {
        insts := insts - {i};
        return;
      }
      var rejected := RetryCount(insts[i].items, cfg.names.mainQueue);
      if rejected >= cfg.maxRetry {
        if dlqPublishFails {
          insts := insts[i := Requeued(insts[i])];
          return;
        }
        if ReachesDlq(cfg) {
          insts := insts[copy := insts[i].(place := Dlq)];
        } else {
          dropped := dropped + {insts[i].msg};
        }
        insts := insts - {i};
        return;
      }
      Reject(i, copy);
    }

    /** msg.Nack(false, false): the broker sends the delivery on as the bindings say. */
    method Reject(i: InstId, copy: InstId)
      requires i in insts && copy !in insts && insts[i].place.Unacked?
      modifies this`insts, this`dropped
      ensures Stored() == AfterReject(cfg, old(Stored()), i, copy)
    {
      var dead := Die(insts[i], Rejection(cfg), Retry);
      if RejectsToRetry(cfg) {
        insts := insts[i := dead];
        if RejectsToMain(cfg) {
          insts := insts[copy := dead.(place := Main)];
        }
      } else if RejectsToMain(cfg) {
        insts := insts[i := dead.(place := Main)];
      } else {
        dropped := dropped + {insts[i].msg};
        insts := insts - {i};
      }
    }

    /**
     On the direct topology, a message whose handler always returns an error, with no faults: deliver, process and
     expire it until it rests in the dead-letter queue. The handler runs exactly max(maxRetry, 0) + 1 times.
     */
    method RunFailingMessage(msg: MsgId, ghost event: string, ghost ttl: int) returns (attempts: nat, resting: InstId)
      requires IdsBelowNext() && OnDirect(cfg, event, ttl)
      requires OnlyBound(cfg.broker.bindings, event + ".exchange", DirectBindings(event))
      modifies this
      ensures attempts == (if cfg.maxRetry > 0 then cfg.maxRetry else 0) + 1 && dropped == old(dropped)
      ensures resting in insts && insts[resting].msg == msg && insts[resting].place == Dlq
      ensures insts == old(insts)[resting := insts[resting]] && resting !in old(insts)
      ensures insts[resting].runs == attempts
    {
      assert Circular(cfg) by {
        DirectRetriesReturn(cfg, event, ttl);
      }
      attempts, resting := FailUntilDead(msg);
    }

    /** The same on any topology whose retries circulate. */
    method FailUntilDead(msg: MsgId) returns (attempts: nat, resting: InstId)
      requires IdsBelowNext() && Circular(cfg)
      modifies this
      ensures attempts == Bound(cfg) + 1 && dropped == old(dropped)
      ensures resting in insts && insts[resting].msg == msg && insts[resting].place == Dlq
      ensures insts == old(insts)[resting := insts[resting]] && resting !in old(insts)
      ensures insts[resting].runs == attempts
    {
      var i := Publish(msg);
      EmptyHistory(cfg, insts[i]);
      attempts := 0;
      while insts[i].place == Main
        invariant IdsBelowNext() && i !in old(insts) && i in insts && insts == old(insts)[i := insts[i]]
        invariant insts[i].msg == msg && insts[i].spared && insts[i].runs == attempts && dropped == old(dropped)
        invariant InstOk(cfg, insts[i])
        invariant insts[i].place == Main || insts[i].place == Dlq
        decreases Work(cfg, insts[i])
      {
        i := FailOnce(i);
        attempts := attempts + 1;
      }
      resting := i;
    }

    /** One failing attempt on a message in the main queue: it is back there with less work left, or in the DLQ. */
    method FailOnce(i: InstId) returns (j: InstId)
      requires IdsBelowNext() && i in insts && insts[i].place == Main && insts[i].spared && InstOk(cfg, insts[i])
      requires Circular(cfg)
      modifies this
      ensures IdsBelowNext() && (j == i || j !in old(insts)) && dropped == old(dropped)
      ensures j in insts && insts == (old(insts) - {i})[j := insts[j]]
      ensures IsFailedAttempt(cfg, old(insts)[i], insts[j])
    {
      AttemptFails(cfg, insts[i], AfterAttempt(cfg, insts[i]));
      j := Attempt(i);
    }

    /** Deliver, process with an error, and let the rejected copy expire. */
    method Attempt(i: InstId) returns (j: InstId)
      requires IdsBelowNext() && i in insts && insts[i].place == Main && Circular(cfg)
      modifies this
      ensures IdsBelowNext() && dropped == old(dropped)
      ensures if Exhausted(cfg, old(insts)[i])
              then j !in old(insts) && insts == (old(insts) - {i})[j := AfterAttempt(cfg, old(insts)[i])]
              else j == i && insts == old(insts)[i := AfterAttempt(cfg, old(insts)[i])]
    {
      var gone := Exhausted(cfg, insts[i]);
      insts := insts[i := insts[i].(place := Unacked(Delivered))];
      ghost var began := Stored().(insts := insts[i := insts[i].(runs := insts[i].runs + 1)]);
      j := ProcessMessage(i, Error, false);
      CircularStep(cfg, began, i, j);
      if !gone {
        insts := insts[i := Die(insts[i], Expiry(cfg), Main)];
        j := i;
      }
    }
  }

  /** Rejected messages reach the retry queue alone, expired ones return, dead letters arrive. */
  predicate Circular(cfg: Config) {
    RejectsToRetry(cfg) && !RejectsToMain(cfg) && Returns(cfg) && ReachesDlq(cfg)
  }

  /** One more run, less work left, and in the DLQ exactly when the retries were used up. */
  ghost predicate IsFailedAttempt(cfg: Config, i: Inst, j: Inst) {
    && j.msg == i.msg && j.spared && j.runs == i.runs + 1
    && InstOk(cfg, j) && Work(cfg, j) < Work(cfg, i)
    && j.place == if Exhausted(cfg, i) then Dlq else Main
  }

  /** The copy after one more failing attempt: in the DLQ, or rejected, expired and back in the main queue. */
  function AfterAttempt(cfg: Config, i: Inst): Inst {
    var ran := i.(place := Unacked(Delivered), runs := i.runs + 1);
    if Exhausted(cfg, i) then ran.(place := Dlq) else Die(Die(ran, Rejection(cfg), Retry), Expiry(cfg), Main)
  }

  lemma AttemptFails(cfg: Config, i: Inst, j: Inst)
    requires InstOk(cfg, i) && i.place == Main && i.spared && j == AfterAttempt(cfg, i)
    ensures IsFailedAttempt(cfg, i, j)
  {
    if Exhausted(cfg, i) {
      LastAttempt(cfg, i);
    } else {
      RetryCycle(cfg, i);
    }
  }

  /** Where a copy goes when retries circulate: to the retry queue, or in the end to the DLQ. */
  lemma CircularStep(cfg: Config, t: State, i: InstId, copy: InstId)
    requires Circular(cfg) && i in t.insts && copy !in t.insts
    ensures AfterReject(cfg, t, i, copy) == t.(insts := t.insts[i := Die(t.insts[i], Rejection(cfg), Retry)])
    ensures AfterDlqPublish(cfg, t, i, copy).dropped == t.dropped
    ensures AfterDlqPublish(cfg, t, i, copy).insts - {i} == (t.insts - {i})[copy := t.insts[i].(place := Dlq)]
  {
  }

  /** The last attempt: the handler runs once more and the copy comes to rest in the dead-letter queue. */
  lemma LastAttempt(cfg: Config, i: Inst)
    requires InstOk(cfg, i) && i.place == Main && i.spared && Exhausted(cfg, i)
    ensures var dead := i.(place := Dlq, runs := i.runs + 1);
            InstOk(cfg, dead) && Work(cfg, dead) < Work(cfg, i)
  {
    ExhaustedMeansBound(cfg, i);
  }

  lemma EmptyHistory(cfg: Config, i: Inst)
    requires i.items == [] && i.history == [] && i.runs == 0 && i.place == Main
    ensures InstOk(cfg, i)
  {
  }

  lemma ExhaustedMeansBound(cfg: Config, i: Inst)
    requires InstOk(cfg, i)
    ensures Exhausted(cfg, i) <==> Rejections(cfg, i) == Bound(cfg)
  {
    CountAgreesWithHistory(i.items, i.history, Rejection(cfg));
  }

  /** One retry: the handler runs once more, the copy is rejected, then expires back into the main queue. */
  lemma RetryCycle(cfg: Config, i: Inst)
    requires InstOk(cfg, i) && i.place == Main && i.spared && !Exhausted(cfg, i)
    ensures var ran := i.(place := Unacked(Delivered), runs := i.runs + 1);
            var back := Die(Die(ran, Rejection(cfg), Retry), Expiry(cfg), Main);
            InstOk(cfg, back) && Work(cfg, back) < Work(cfg, i)
  {
    ExhaustedMeansBound(cfg, i);
    var ran := i.(place := Unacked(ReturnedErr), runs := i.runs + 1);
    DieKeepsOk(cfg, ran, Rejection(cfg), Retry);
    WorkAfterDeath(cfg, ran, Rejection(cfg), Retry);
    var dead := Die(ran, Rejection(cfg), Retry);
    DieKeepsOk(cfg, dead, Expiry(cfg), Main);
    WorkAfterDeath(cfg, dead, Expiry(cfg), Main);
  }
}
