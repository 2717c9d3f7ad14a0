/** Exchanges, queues and bindings declared by the topology code, and where the broker routes a message. */
module Routing {
  import opened Common

  datatype Names = Names(mainExchange: string, dlxExchange: string, mainQueue: string, retryQueue: string, dlq: string)

  function BuildNames(eventName: string, queueBase: string): Names {
    Names(eventName + ".exchange", eventName + ".dlx",
          queueBase + ".queue", queueBase + ".retry.queue", queueBase + ".dlq")
  }

  datatype Kind = Direct | Topic | Fanout

  /** Queue arguments: time to live, and the dead-letter exchange with its routing key. */
  datatype QueueArgs = QueueArgs(ttl: Option<int>, deadLetter: Option<(string, string)>)

  datatype Binding = Binding(queue: string, key: string, exchange: string)

  function MainArgs(dlx: string, key: string): QueueArgs { QueueArgs(None, Some((dlx, key))) }

  function RetryArgs(ttl: int, dlx: string, key: string): QueueArgs { QueueArgs(Some(ttl), Some((dlx, key))) }

  const DLQ_ARGS: QueueArgs := QueueArgs(None, None)

  // ----- Topic patterns (section 3.1.3.3 of the AMQP 0-9-1 specification) -----

  /** The dot-separated words of a routing key. */
  function Words(key: string): seq<string> {
    if key == "" then [""]
    else
      var rest := Words(key[1..]);
      if key[0] == '.' then [""] + rest
      else if rest == [] then [[key[0]]]
      else [[key[0]] + rest[0]] + rest[1..]
  }

  /** '*' stands for exactly one word, '#' for any number of words. */
  predicate Matches(pattern: seq<string>, words: seq<string>)
    decreases |pattern| + |words|
  {
    if pattern == [] then words == []
    else if pattern[0] == "#" then Matches(pattern[1..], words) || (words != [] && Matches(pattern, words[1..]))
    else words != [] && (pattern[0] == "*" || pattern[0] == words[0]) && Matches(pattern[1..], words[1..])
  }

  lemma {:induction false} WordsNonEmpty(key: string)
    ensures Words(key) != []
  {
    if key != "" {
      WordsNonEmpty(key[1..]);
    }
  }

  /** Joining the words with dots gives the key back, so distinct keys have distinct words. */
  function Join(words: seq<string>): string {
    if words == [] then "" else if |words| == 1 then words[0] else words[0] + "." + Join(words[1..])
  }

  lemma {:induction false} JoinWords(key: string)
    ensures Join(Words(key)) == key
  {
    if key != "" {
      var rest := Words(key[1..]);
      WordsNonEmpty(key[1..]);
      JoinWords(key[1..]);
      if key[0] == '.' {
        assert Words(key)[1..] == rest;
      } else {
        assert Words(key)[1..] == rest[1..];
      }
    }
  }

  predicate Wildcardless(pattern: string) {
    '*' !in pattern && '#' !in pattern
  }

  lemma {:induction false} WordsOfWildcardless(key: string)
    requires Wildcardless(key)
    ensures forall i :: 0 <= i < |Words(key)| ==> Words(key)[i] != "*" && Words(key)[i] != "#"
  {
    if key != "" {
      WordsOfWildcardless(key[1..]);
      WordsNonEmpty(key[1..]);
      if key[0] != '.' {
        assert Words(key)[0][0] == key[0] && key[0] in key;
        assert forall i :: 1 <= i < |Words(key)| ==> Words(key)[i] == Words(key[1..])[i];
      } else {
        assert forall i :: 1 <= i < |Words(key)| ==> Words(key)[i] == Words(key[1..])[i - 1];
      }
    }
  }

  lemma {:induction false} LiteralWordsMatchThemselves(pattern: seq<string>, words: seq<string>)
    requires forall i :: 0 <= i < |pattern| ==> pattern[i] != "*" && pattern[i] != "#"
    ensures Matches(pattern, words) <==> pattern == words
  {
    if pattern != [] && words != [] {
      LiteralWordsMatchThemselves(pattern[1..], words[1..]);
      assert pattern == [pattern[0]] + pattern[1..] && words == [words[0]] + words[1..];
    }
  }

  /** '#' stands for any number of words, none included ... */
  lemma {:induction false} HashMatchesExactlySuffixes(rest: seq<string>, words: seq<string>)
    ensures Matches(["#"] + rest, words) <==> exists k :: 0 <= k <= |words| && Matches(rest, words[k..])
    decreases |words|
  {
    assert (["#"] + rest)[1..] == rest;
    assert words[0..] == words;
    if words != [] {
      HashMatchesExactlySuffixes(rest, words[1..]);
      if j :| 0 <= j <= |words[1..]| && Matches(rest, words[1..][j..]) {
        assert words[1..][j..] == words[j + 1..];
      }
      if k :| 0 < k <= |words| && Matches(rest, words[k..]) {
        assert words[1..][k - 1..] == words[k..];
      }
    }
  }

  /** ... and '*' for exactly one. */
  lemma StarMatchesExactlyOneWord(rest: seq<string>, words: seq<string>)
    ensures Matches(["*"] + rest, words) <==> |words| >= 1 && Matches(rest, words[1..])
  {
    assert (["*"] + rest)[1..] == rest;
  }

  /** Every pattern matches its own words. */
  lemma {:induction false} WordsMatchThemselves(words: seq<string>)
    ensures Matches(words, words)
  {
    if words != [] {
      WordsMatchThemselves(words[1..]);
      if words[0] == "#" {
        HashAbsorbsAWord(words[1..], words);
      }
    }
  }

  lemma HashAbsorbsAWord(pattern: seq<string>, words: seq<string>)
    requires words != [] && Matches(pattern, words[1..])
    ensures Matches(["#"] + pattern, words)
  {
    assert (["#"] + pattern)[1..] == pattern;
    assert Matches(["#"] + pattern, words[1..]);
  }

  /** A pattern without wildcards matches exactly itself. */
  lemma LiteralPatternMatchesItself(pattern: string, key: string)
    requires Wildcardless(pattern)
    ensures Matches(Words(pattern), Words(key)) <==> pattern == key
  {
    WordsOfWildcardless(pattern);
    LiteralWordsMatchThemselves(Words(pattern), Words(key));
    JoinWords(pattern);
    JoinWords(key);
  }

  // ----- Routing -----

  predicate Accepts(kind: Kind, b: Binding, key: string) {
    match kind
    case Direct => b.key == key
    case Topic => Matches(Words(b.key), Words(key))
    case Fanout => true
  }

  /** The queues that receive a message sent to `exchange` with routing key `key`. */
  function Route(kind: Kind, bindings: set<Binding>, exchange: string, key: string): set<string> {
    set b | b in bindings && b.exchange == exchange && Accepts(kind, b, key) :: b.queue
  }

  // ----- Names -----

  lemma SameSuffix(a: string, b: string, suffix: string)
    ensures a + suffix == b + suffix <==> a == b
  {
    if a + suffix == b + suffix {
      assert a == (a + suffix)[..|a|] && b == (b + suffix)[..|b|];
    }
  }

  lemma DifferentEnding(a: string, x: string, b: string, y: string)
    requires x != "" && y != "" && x[|x| - 1] != y[|y| - 1]
    ensures a + x != b + y
  {
    assert (a + x)[|a + x| - 1] != (b + y)[|b + y| - 1];
  }

  function QueuesOf(event: string): set<string> {
    var n := BuildNames(event, event);
    {n.mainQueue, n.retryQueue, n.dlq}
  }

  /** Every coincidence there can be between the queue names of two bases. */
  lemma QueueNameCoincidences(a: string, b: string)
    ensures BuildNames(a, a).mainQueue == BuildNames(b, b).mainQueue <==> a == b
    ensures BuildNames(a, a).retryQueue == BuildNames(b, b).retryQueue <==> a == b
    ensures BuildNames(a, a).dlq == BuildNames(b, b).dlq <==> a == b
    ensures BuildNames(a, a).mainQueue == BuildNames(b, b).retryQueue <==> a == b + ".retry"
    ensures BuildNames(a, a).mainQueue != BuildNames(b, b).dlq
    ensures BuildNames(a, a).retryQueue != BuildNames(b, b).dlq
    ensures BuildNames(a, a).mainExchange != BuildNames(b, b).dlxExchange
    ensures BuildNames(a, a).mainExchange == BuildNames(b, b).mainExchange <==> a == b
    ensures BuildNames(a, a).dlxExchange == BuildNames(b, b).dlxExchange <==> a == b
  {
    SameSuffix(a, b, ".queue");
    SameSuffix(a, b, ".retry.queue");
    SameSuffix(a, b, ".dlq");
    assert b + ".retry.queue" == (b + ".retry") + ".queue";
    SameSuffix(a, b + ".retry", ".queue");
    DifferentEnding(a, ".queue", b, ".dlq");
    DifferentEnding(a, ".retry.queue", b, ".dlq");
    DifferentEnding(a, ".exchange", b, ".dlx");
    SameSuffix(a, b, ".exchange");
    SameSuffix(a, b, ".dlx");
  }

  /** Two direct topologies share a queue exactly when one event is the other's name plus ".retry". */
  lemma QueuesSharedExactlyWhen(a: string, b: string)
    requires a != b
    ensures QueuesOf(a) !! QueuesOf(b) <==> a != b + ".retry" && b != a + ".retry"
  {
    QueueNameCoincidences(a, b);
    QueueNameCoincidences(b, a);
    if a == b + ".retry" {
      assert BuildNames(a, a).mainQueue in QueuesOf(a) && BuildNames(a, a).mainQueue in QueuesOf(b);
    }
    if b == a + ".retry" {
      assert BuildNames(b, b).mainQueue in QueuesOf(a) && BuildNames(b, b).mainQueue in QueuesOf(b);
    }
  }

  // ----- Direct topologies -----

  function DirectBindings(event: string): set<Binding> {
    var n := BuildNames(event, event);
    {Binding(n.mainQueue, n.mainQueue, n.mainExchange), Binding(n.retryQueue, n.retryQueue, n.mainExchange),
     Binding(n.dlq, n.dlq, n.dlxExchange)}
  }

  function AllDirectBindings(events: set<string>): set<Binding> {
    set e, b | e in events && b in DirectBindings(e) :: b
  }

  /** The exchange of one event's binding tells it apart from every other event's. */
  lemma DirectBindingsAreOwn(events: set<string>, event: string, b: Binding)
    requires b in AllDirectBindings(events)
    requires b.exchange == event + ".exchange" || b.exchange == event + ".dlx"
    ensures b in DirectBindings(event)
  {
    var e :| e in events && b in DirectBindings(e);
    QueueNameCoincidences(e, event);
    QueueNameCoincidences(event, e);
  }

  // ----- Topic and fanout topologies: no return path -----

  datatype TopicBinding = TopicBinding(queue: string, routingKey: string)

  /** The bindings DeclareTopic makes for one configured binding. */
  function BindingsForTopic(event: string, b: TopicBinding): set<Binding> {
    var n := BuildNames(event, b.queue);
    {Binding(n.retryQueue, n.retryQueue, n.mainExchange), Binding(n.dlq, n.dlq, n.dlxExchange),
     Binding(n.mainQueue, b.routingKey, n.mainExchange)}
  }

  function TopicBindings(event: string, bs: seq<TopicBinding>): set<Binding> {
    set i, b | 0 <= i < |bs| && b in BindingsForTopic(event, bs[i]) :: b
  }

  /** The bindings DeclareFanout makes for one queue. */
  function BindingsForFanout(event: string, queueBase: string): set<Binding> {
    var n := BuildNames(event, queueBase);
    {Binding(n.mainQueue, "", event + ".exchange"), Binding(n.retryQueue, n.retryQueue, event + ".retry.exchange"),
     Binding(n.dlq, n.dlq, event + ".dlx")}
  }

  function FanoutBindings(event: string, queues: seq<string>): set<Binding> {
    set i, b | 0 <= i < |queues| && b in BindingsForFanout(event, queues[i]) :: b
  }

  /** Of the bindings made for a queue, only its configured ones put messages into its main queue. */
  lemma OnlyConfiguredBindingsFeedMain(event: string, c: TopicBinding, b: Binding, queue: string)
    requires b in BindingsForTopic(event, c) && queue != c.queue + ".retry"
    ensures var n := BuildNames(event, queue);
            b.queue == n.mainQueue <==> c.queue == queue && b == Binding(n.mainQueue, c.routingKey, n.mainExchange)
  {
    QueueNameCoincidences(queue, c.queue);
  }

  ghost predicate KeyMatchesOwnName(event: string, bs: seq<TopicBinding>, queue: string) {
    exists i :: 0 <= i < |bs| && bs[i].queue == queue
                && Matches(Words(bs[i].routingKey), Words(BuildNames(event, queue).mainQueue))
  }

  /**
   On a topic topology an expired message is routed with its main queue's name as key. It returns to that
   queue exactly when some routing key configured for the queue happens to match the queue's own name.
   */
  lemma TopicRetryReturnsExactlyWhen(event: string, bs: seq<TopicBinding>, queue: string, exchange: string,
                                     name: string)
    requires forall i :: 0 <= i < |bs| ==> queue != bs[i].queue + ".retry"
    requires exchange == BuildNames(event, queue).mainExchange && name == BuildNames(event, queue).mainQueue
    ensures name in Route(Topic, TopicBindings(event, bs), exchange, name) <==> KeyMatchesOwnName(event, bs, queue)
  {
    var bindings := TopicBindings(event, bs);
    if name in Route(Topic, bindings, exchange, name) {
      var b :| b in bindings && b.exchange == exchange && Accepts(Topic, b, name) && b.queue == name;
      var i :| 0 <= i < |bs| && b in BindingsForTopic(event, bs[i]);
      OnlyConfiguredBindingsFeedMain(event, bs[i], b, queue);
      assert KeyMatchesOwnName(event, bs, queue);
    }
    if KeyMatchesOwnName(event, bs, queue) {
      var i :| 0 <= i < |bs| && bs[i].queue == queue && Matches(Words(bs[i].routingKey), Words(name));
      var b := Binding(name, bs[i].routingKey, exchange);
      assert b in BindingsForTopic(event, bs[i]) && b in bindings && Accepts(Topic, b, name);
    }
  }

  /** With one configured binding and no wildcards, a topic exchange routes exactly two keys. */
  lemma SingleTopicRoute(event: string, c: TopicBinding, n: Names, key: string)
    requires n == BuildNames(event, c.queue) && Wildcardless(c.routingKey) && Wildcardless(n.retryQueue)
    ensures Route(Topic, TopicBindings(event, [c]), n.mainExchange, key)
         == (if key == c.routingKey then {n.mainQueue} else {}) + (if key == n.retryQueue then {n.retryQueue} else {})
  {
    var bindings := TopicBindings(event, [c]);
    var main := Binding(n.mainQueue, c.routingKey, n.mainExchange);
    var retry := Binding(n.retryQueue, n.retryQueue, n.mainExchange);
    assert [c][0] == c && main in BindingsForTopic(event, c) && retry in BindingsForTopic(event, c);
    assert main in bindings && retry in bindings;
    QueueNameCoincidences(event, event);
    assert forall b :: b in bindings && b.exchange == n.mainExchange ==> b == main || b == retry;
    LiteralPatternMatchesItself(c.routingKey, key);
    LiteralPatternMatchesItself(n.retryQueue, key);
    assert Accepts(Topic, main, key) <==> key == c.routingKey;
    assert Accepts(Topic, retry, key) <==> key == n.retryQueue;
  }

  lemma WildcardlessConcat(a: string, b: string)
    requires Wildcardless(a) && Wildcardless(b)
    ensures Wildcardless(a + b)
  {
  }

  lemma DeployedNames(n: Names)
    requires n == BuildNames("user", "wallet-service")
    ensures n.mainExchange == "user.exchange" && n.dlxExchange == "user.dlx"
    ensures n.mainQueue == "wallet-service.queue" && n.retryQueue == "wallet-service.retry.queue"
    ensures n.dlq == "wallet-service.dlq" && Wildcardless(n.retryQueue)
  {
    assert Wildcardless("wallet-service") by {
      WildcardlessConcat("wallet", "-service");
      assert "wallet" + "-service" == "wallet-service";
    }
    assert Wildcardless(".retry.queue") by {
      WildcardlessConcat(".retry", ".queue");
      assert ".retry" + ".queue" == ".retry.queue";
    }
    WildcardlessConcat("wallet-service", ".retry.queue");
  }

  /** The deployed user topology: publishing and rejecting work, but an expired retry is routed nowhere. */
  lemma DeployedUserRetriesAreDropped(c: TopicBinding, n: Names)
    requires c == TopicBinding("wallet-service", "user.created") && n == BuildNames("user", "wallet-service")
    ensures Route(Topic, TopicBindings("user", [c]), n.mainExchange, c.routingKey) == {n.mainQueue}
    ensures Route(Topic, TopicBindings("user", [c]), n.mainExchange, n.retryQueue) == {n.retryQueue}
    ensures Route(Topic, TopicBindings("user", [c]), n.mainExchange, n.mainQueue) == {}
  {
    DeployedNames(n);
    assert |c.routingKey| == 12 && Wildcardless(c.routingKey);
    SingleTopicRoute("user", c, n, c.routingKey);
    SingleTopicRoute("user", c, n, n.retryQueue);
    SingleTopicRoute("user", c, n, n.mainQueue);
  }

  /** The retry exchange of a fanout topology only knows the retry queues' own names. */
  lemma FanoutRetryBinding(event: string, queueBase: string, b: Binding, queue: string)
    requires b in BindingsForFanout(event, queueBase) && b.exchange == event + ".retry.exchange"
    requires queue != queueBase + ".retry"
    ensures b.key != BuildNames(event, queue).mainQueue
  {
    QueueNameCoincidences(queue, queueBase);
    assert |event + ".exchange"| == |event| + 9 && |event + ".dlx"| == |event| + 4;
    assert |event + ".retry.exchange"| == |event| + 15;
    var n := BuildNames(event, queueBase);
    assert b == Binding(n.retryQueue, n.retryQueue, event + ".retry.exchange");
  }

  /** On a fanout topology an expired message never returns to its main queue. */
  lemma FanoutRetryNeverReturns(event: string, queues: seq<string>, queue: string)
    requires forall i :: 0 <= i < |queues| ==> queue != queues[i] + ".retry"
    ensures var key := BuildNames(event, queue).mainQueue;
            Route(Direct, FanoutBindings(event, queues), event + ".retry.exchange", key) == {}
  {
    forall b | b in FanoutBindings(event, queues) && b.exchange == event + ".retry.exchange"
      ensures b.key != BuildNames(event, queue).mainQueue
    {
      var i :| 0 <= i < |queues| && b in BindingsForFanout(event, queues[i]);
      FanoutRetryBinding(event, queues[i], b, queue);
    }
  }
}
