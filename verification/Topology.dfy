/** The retry topology of a consumer: what DeclareConsumerTopology builds on the broker, and
    where the broker then routes a rejected and an expired message. */
module Topology {
  import opened Counting

  // ----- Topic routing (AMQP 0-9-1, section 3.1.3.3) -----

  function WordsFrom(s: string): (words: seq<string>)
    ensures |words| >= 1
  {
    if s == "" then [""]
    else if s[0] == '.' then [""] + WordsFrom(s[1..])
    else
      var rest := WordsFrom(s[1..]);
      [[s[0]] + rest[0]] + rest[1..]
  }

  /** The words of a routing key or pattern, delimited by dots; the empty key has none. */
  function Words(s: string): seq<string> {
    if s == "" then [] else WordsFrom(s)
  }

  /** "*" stands for exactly one word and "#" for zero or more. */
  predicate Matches(pattern: seq<string>, key: seq<string>)
    decreases |pattern| + |key|
  {
    if pattern == [] then key == []
    else if pattern[0] == "#" then Matches(pattern[1..], key) || (key != [] && Matches(pattern, key[1..]))
    else key != [] && (pattern[0] == "*" || pattern[0] == key[0]) && Matches(pattern[1..], key[1..])
  }

  predicate Selects(pattern: string, key: string) {
    Matches(Words(pattern), Words(key))
  }

  lemma {:induction false} MatchesItself(pattern: seq<string>)
    ensures Matches(pattern, pattern)
  {
    if pattern != [] {
      MatchesItself(pattern[1..]);
      if pattern[0] == "#" {
        assert Matches(pattern, pattern[1..]) by {
          assert Matches(pattern[1..], pattern[1..]);
        }
      }
    }
  }

  /** The key made of these words, delimited by dots. */
  function Dotted(words: seq<string>): string
    requires words != []
  {
    if |words| == 1 then words[0] else words[0] + "." + Dotted(words[1..])
  }

  lemma {:induction false} WordsOfPrefix(a: string, s: string)
    requires '.' !in a
    ensures WordsFrom(a + s)[0] == a + WordsFrom(s)[0] && WordsFrom(a + s)[1..] == WordsFrom(s)[1..]
  {
    if a == "" {
      assert a + s == s;
    } else {
      assert (a + s)[1..] == a[1..] + s && (a + s)[0] == a[0];
      assert a[0] in a;
      WordsOfPrefix(a[1..], s);
      assert a == [a[0]] + a[1..];
    }
  }

  lemma {:induction false} DottedWords(words: seq<string>)
    requires words != [] && forall i :: 0 <= i < |words| ==> '.' !in words[i]
    ensures WordsFrom(Dotted(words)) == words
  {
    if |words| == 1 {
      WordsOfPrefix(words[0], "");
      assert words[0] + "" == words[0];
    } else {
      DottedWords(words[1..]);
      var tail := "." + Dotted(words[1..]);
      assert tail[1..] == Dotted(words[1..]);
      assert WordsFrom(tail) == [""] + words[1..];
      assert Dotted(words) == words[0] + tail;
      WordsOfPrefix(words[0], tail);
      assert words[0] + "" == words[0] && words == [words[0]] + words[1..];
      assert WordsFrom(Dotted(words)) == [WordsFrom(Dotted(words))[0]] + WordsFrom(Dotted(words))[1..];
    }
  }

  /** A key is its words with dots between them. */
  lemma {:induction false} WordsOfDotted(words: seq<string>)
    requires words != [] && words != [""] && forall i :: 0 <= i < |words| ==> '.' !in words[i]
    ensures Words(Dotted(words)) == words
  {
    DottedWords(words);
    assert Dotted(words) == "" ==> |words| == 1;
  }

  /** Without wildcards a pattern selects one key: itself. */
  lemma {:induction false} PlainPatternSelectsItself(pattern: seq<string>, key: seq<string>)
    requires "*" !in pattern && "#" !in pattern
    ensures Matches(pattern, key) <==> pattern == key
  {
    if pattern != [] && key != [] {
      PlainPatternSelectsItself(pattern[1..], key[1..]);
      assert pattern == [pattern[0]] + pattern[1..] && key == [key[0]] + key[1..];
    }
  }

  /** A star stands for one word, whichever it is, and a hash for any number of words. */
  lemma {:induction false} WildcardsSelect(before: seq<string>, after: seq<string>, words: seq<string>)
    requires "*" !in before && "#" !in before && "*" !in after && "#" !in after
    ensures Matches(before + ["*"] + after, words)
            <==> |words| == |before| + 1 + |after| && before <= words && words[|before| + 1..] == after
    ensures Matches(before + ["#"] + after, words)
            <==> |words| >= |before| + |after| && before <= words && words[|words| - |after|..] == after
  {
    var star, hash := before + ["*"] + after, before + ["#"] + after;
    if before != [] {
      assert star[1..] == before[1..] + ["*"] + after && hash[1..] == before[1..] + ["#"] + after;
      if words != [] {
        WildcardsSelect(before[1..], after, words[1..]);
        assert before == [before[0]] + before[1..] && words == [words[0]] + words[1..];
      }
    } else {
      assert star[1..] == after && hash[1..] == after;
      PlainPatternSelectsItself(after, words);
      if words != [] {
        PlainPatternSelectsItself(after, words[1..]);
        WildcardsSelect(before, after, words[1..]);
        assert |words| > |after| ==> words[1..][|words[1..]| - |after|..] == words[|words| - |after|..];
      }
    }
  }

  // ----- The broker -----

  datatype QueueArgs = QueueArgs(ttl: Option<int>, deadLetterExchange: Option<string>, deadLetterKey: Option<string>)

  datatype Binding = Binding(exchange: string, pattern: string, queue: string)

  /** Everything declared on the broker. */
  datatype Wiring = Wiring(exchanges: set<string>, queues: map<string, QueueArgs>, bindings: set<Binding>)

  datatype TopologySpec = TopologySpec(exchange: string, routingKey: string, queueName: string, retryTTL: int)

  function RetryQueueName(queueName: string): string { queueName + ".retry" }
  function DLQQueueName(queueName: string): string { queueName + ".dlq" }
  function RetryExchangeName(queueName: string): string { queueName + ".retry.exchange" }

  /** Duration / time.Millisecond truncates toward zero. */
  function Milliseconds(nanoseconds: int): int {
    if nanoseconds >= 0 then nanoseconds / 1_000_000 else -(-nanoseconds / 1_000_000)
  }

  function MainArgs(spec: TopologySpec): QueueArgs {
    QueueArgs(None, Some(RetryExchangeName(spec.queueName)), None)
  }

  function RetryArgs(spec: TopologySpec): QueueArgs {
    QueueArgs(Some(Milliseconds(spec.retryTTL)), Some(spec.exchange), Some(spec.routingKey))
  }

  const PLAIN_ARGS := QueueArgs(None, None, None)

  /** The broker refuses a negative TTL, and a redeclaration with other arguments. */
  predicate Declarable(queues: map<string, QueueArgs>, name: string, args: QueueArgs) {
    && (args.ttl.Some? ==> args.ttl.value >= 0)
    && (name in queues ==> queues[name] == args)
  }

  /** Nothing that was declared is lost. */
  ghost predicate Grows(w: Wiring, w': Wiring) {
    && w.exchanges <= w'.exchanges && w.bindings <= w'.bindings
    && (forall q :: q in w.queues ==> q in w'.queues && w'.queues[q] == w.queues[q])
  }

  /** The topology of one consumer is in place. */
  predicate Wired(w: Wiring, spec: TopologySpec) {
    var q := spec.queueName;
    && spec.exchange in w.exchanges && RetryExchangeName(q) in w.exchanges
    && q in w.queues && w.queues[q] == MainArgs(spec)
    && RetryQueueName(q) in w.queues && w.queues[RetryQueueName(q)] == RetryArgs(spec)
    && DLQQueueName(q) in w.queues && w.queues[DLQQueueName(q)] == PLAIN_ARGS
    && Binding(spec.exchange, spec.routingKey, q) in w.bindings
    && Binding(RetryExchangeName(q), spec.routingKey, RetryQueueName(q)) in w.bindings
  }

  /** What is added, and no more. */
  ghost function WiringAfter(w: Wiring, spec: TopologySpec): Wiring {
    var q := spec.queueName;
    Wiring(
      w.exchanges + {spec.exchange, RetryExchangeName(q)},
      w.queues[q := MainArgs(spec)][RetryQueueName(q) := RetryArgs(spec)][DLQQueueName(q) := PLAIN_ARGS],
      w.bindings + {Binding(spec.exchange, spec.routingKey, q),
                    Binding(RetryExchangeName(q), spec.routingKey, RetryQueueName(q))})
  }

  ghost predicate AllDeclarable(w: Wiring, spec: TopologySpec) {
    && Declarable(w.queues, spec.queueName, MainArgs(spec))
    && Declarable(w.queues, RetryQueueName(spec.queueName), RetryArgs(spec))
    && Declarable(w.queues, DLQQueueName(spec.queueName), PLAIN_ARGS)
  }

  /** The wiring once the first n of the seven declarations have taken effect. */
  function Declared(w: Wiring, spec: TopologySpec, n: nat): Wiring
    decreases n
  {
    var q := spec.queueName;
    if n == 0 then w
    else
      var before := Declared(w, spec, n - 1);
      match n
      case 1 => before.(exchanges := before.exchanges + {spec.exchange})
      case 2 => before.(exchanges := before.exchanges + {RetryExchangeName(q)})
      case 3 => before.(queues := before.queues[q := MainArgs(spec)])
      case 4 => before.(bindings := before.bindings + {Binding(spec.exchange, spec.routingKey, q)})
      case 5 => before.(queues := before.queues[RetryQueueName(q) := RetryArgs(spec)])
      case 6 => before.(bindings := before.bindings + {Binding(RetryExchangeName(q), spec.routingKey, RetryQueueName(q))})
      case 7 => before.(queues := before.queues[DLQQueueName(q) := PLAIN_ARGS])
      case _ => before
  }

  /** How many of them do: up to the one the channel fails, or the first the broker refuses. */
  function Reached(w: Wiring, spec: TopologySpec, broken: nat): (n: nat)
    ensures n <= 7
  {
    var q := spec.queueName;
    var refused := if !Declarable(w.queues, q, MainArgs(spec)) then 3
                   else if !Declarable(w.queues, RetryQueueName(q), RetryArgs(spec)) then 5
                   else if !Declarable(w.queues, DLQQueueName(q), PLAIN_ARGS) then 7
                   else 8;
    if 1 <= broken < refused then broken - 1 else refused - 1
  }

  class Broker {
    var wiring: Wiring

    constructor ()
      ensures wiring == Wiring({}, map[], {})
    {
      wiring := Wiring({}, map[], {});
    }

    /** Every declaration takes whether the channel lets it down; false is an error. */
    method ExchangeDeclare(name: string, broken: bool) returns (ok: bool)
      modifies this
      ensures ok == !broken
      ensures wiring == if ok then old(wiring).(exchanges := old(wiring).exchanges + {name}) else old(wiring)
    {
      ok := !broken;
      if ok {
        wiring := wiring.(exchanges := wiring.exchanges + {name});
      }
    }

    method QueueDeclare(name: string, args: QueueArgs, broken: bool) returns (ok: bool)
      modifies this
      ensures ok == (!broken && Declarable(old(wiring).queues, name, args))
      ensures wiring == if ok then old(wiring).(queues := old(wiring).queues[name := args]) else old(wiring)
    {
      ok := !broken && Declarable(wiring.queues, name, args);
      if ok {
        wiring := wiring.(queues := wiring.queues[name := args]);
      }
    }

    method QueueBind(queue: string, pattern: string, exchange: string, broken: bool) returns (ok: bool)
      modifies this
      ensures ok == (!broken && queue in old(wiring).queues && exchange in old(wiring).exchanges)
      ensures wiring == if ok then old(wiring).(bindings := old(wiring).bindings + {Binding(exchange, pattern, queue)})
                        else old(wiring)
    {
      ok := !broken && queue in wiring.queues && exchange in wiring.exchanges;
      if ok {
        wiring := wiring.(bindings := wiring.bindings + {Binding(exchange, pattern, queue)});
      }
    }
  }

  lemma NamesDiffer(q: string)
    ensures q != RetryQueueName(q) && q != DLQQueueName(q) && RetryQueueName(q) != DLQQueueName(q)
  {
    assert |RetryQueueName(q)| == |q| + 6 && |DLQQueueName(q)| == |q| + 4;
  }

  /** What the declarations before each one leave behind. */
  lemma DeclaredQueues(w: Wiring, spec: TopologySpec)
    ensures var q := spec.queueName;
            && Declared(w, spec, 2).queues == w.queues
            && Declared(w, spec, 4).queues == w.queues[q := MainArgs(spec)]
            && Declared(w, spec, 6).queues == w.queues[q := MainArgs(spec)][RetryQueueName(q) := RetryArgs(spec)]
            && spec.exchange in Declared(w, spec, 3).exchanges && RetryExchangeName(q) in Declared(w, spec, 5).exchanges
    ensures Declarable(Declared(w, spec, 4).queues, RetryQueueName(spec.queueName), RetryArgs(spec))
            == Declarable(w.queues, RetryQueueName(spec.queueName), RetryArgs(spec))
    ensures Declarable(Declared(w, spec, 6).queues, DLQQueueName(spec.queueName), PLAIN_ARGS)
            == Declarable(w.queues, DLQQueueName(spec.queueName), PLAIN_ARGS)
  {
    NamesDiffer(spec.queueName);
    var two := Declared(w, spec, 2);
    assert two == Declared(w, spec, 1).(exchanges := Declared(w, spec, 1).exchanges + {RetryExchangeName(spec.queueName)});
    var three := Declared(w, spec, 3);
    var four := Declared(w, spec, 4);
    var five := Declared(w, spec, 5);
    assert three.queues == two.queues[spec.queueName := MainArgs(spec)];
    assert five.exchanges == four.exchanges == three.exchanges == two.exchanges;
  }

  lemma {:induction false} DeclaredGrows(w: Wiring, spec: TopologySpec, n: nat)
    requires n <= Reached(w, spec, 0)
    ensures Grows(w, Declared(w, spec, n))
  {
    DeclaredQueues(w, spec);
    NamesDiffer(spec.queueName);
    if n > 0 {
      DeclaredGrows(w, spec, n - 1);
    }
  }

  lemma DeclaredAll(w: Wiring, spec: TopologySpec)
    ensures Declared(w, spec, 7) == WiringAfter(w, spec) && Wired(WiringAfter(w, spec), spec)
  {
    DeclaredQueues(w, spec);
    NamesDiffer(spec.queueName);
    var q := spec.queueName;
    var two, four, six := Declared(w, spec, 2), Declared(w, spec, 4), Declared(w, spec, 6);
    assert two.exchanges == w.exchanges + {spec.exchange, RetryExchangeName(q)} && two.bindings == w.bindings;
    assert four.exchanges == two.exchanges
        && four.bindings == two.bindings + {Binding(spec.exchange, spec.routingKey, q)};
    assert six.exchanges == four.exchanges
        && six.bindings == four.bindings + {Binding(RetryExchangeName(q), spec.routingKey, RetryQueueName(q))};
    assert Declared(w, spec, 7) == six.(queues := six.queues[DLQQueueName(q) := PLAIN_ARGS]);
  }

  /** What the declarations leave on the broker, in the terms of the broker. */
  ghost predicate InPlace(w: Wiring, spec: TopologySpec) {
    var q := spec.queueName;
    && {spec.exchange, q + ".retry.exchange"} <= w.exchanges
    && q in w.queues && w.queues[q] == QueueArgs(None, Some(q + ".retry.exchange"), None)
    && q + ".dlq" in w.queues && w.queues[q + ".dlq"] == QueueArgs(None, None, None)
    && q + ".retry" in w.queues
    && w.queues[q + ".retry"].deadLetterExchange == Some(spec.exchange)
    && w.queues[q + ".retry"].deadLetterKey == Some(spec.routingKey)
    && w.queues[q + ".retry"].ttl.Some?
    && (spec.retryTTL >= 0 ==>
          var ttl := w.queues[q + ".retry"].ttl.value;
          ttl * 1_000_000 <= spec.retryTTL < (ttl + 1) * 1_000_000)
    && (spec.retryTTL < 0 ==> w.queues[q + ".retry"].ttl == Some(0))
    && Binding(spec.exchange, spec.routingKey, q) in w.bindings
    && Binding(q + ".retry.exchange", spec.routingKey, q + ".retry") in w.bindings
  }

  lemma WholeMilliseconds(nanoseconds: int)
    ensures nanoseconds >= 0 ==>
              Milliseconds(nanoseconds) * 1_000_000 <= nanoseconds < (Milliseconds(nanoseconds) + 1) * 1_000_000
    ensures Milliseconds(nanoseconds) >= 0 <==> nanoseconds > -1_000_000
    ensures -1_000_000 < nanoseconds < 0 ==> Milliseconds(nanoseconds) == 0
  {
  }

  lemma AcceptedIsInPlace(w: Wiring, spec: TopologySpec)
    requires AllDeclarable(w, spec)
    ensures InPlace(WiringAfter(w, spec), spec)
  {
    hide Milliseconds;
    NamesDiffer(spec.queueName);
    WholeMilliseconds(spec.retryTTL);
  }

  lemma AcceptedExactly(w: Wiring, spec: TopologySpec)
    ensures AllDeclarable(w, spec) <==>
              spec.retryTTL > -1_000_000
              && forall q :: q in w.queues && q in {spec.queueName, spec.queueName + ".retry", spec.queueName + ".dlq"}
                   ==> w.queues[q] == WiringAfter(w, spec).queues[q]
  {
    hide Milliseconds;
    NamesDiffer(spec.queueName);
    WholeMilliseconds(spec.retryTTL);
  }

  /** The seven declarations, in order; `broken` numbers the one the channel fails, if any. */
  method DeclareConsumerTopology(ch: Broker, spec: TopologySpec, broken: nat) returns (ok: bool)
    modifies ch
    ensures ok <==> !(1 <= broken <= 7) && AllDeclarable(old(ch.wiring), spec)
    ensures ok ==> ch.wiring == WiringAfter(old(ch.wiring), spec) && Wired(ch.wiring, spec)
    // spelled out: two exchanges, three queues, two bindings, and a TTL in whole milliseconds
    ensures ok ==> InPlace(ch.wiring, spec)
    // accepted exactly if no queue of these names exists with other arguments, and the TTL is
    // not negative by a millisecond or more
    ensures ok <==> !(1 <= broken <= 7) && spec.retryTTL > -1_000_000
                    && (forall q :: q in old(ch.wiring).queues
                                    && q in {spec.queueName, spec.queueName + ".retry", spec.queueName + ".dlq"}
                          ==> old(ch.wiring).queues[q] == WiringAfter(old(ch.wiring), spec).queues[q])
    // an error leaves exactly the declarations before it, and never takes anything away
    ensures ch.wiring == Declared(old(ch.wiring), spec, Reached(old(ch.wiring), spec, broken))
    ensures Grows(old(ch.wiring), ch.wiring)
  {
    hide Wired, WiringAfter, Grows, InPlace;
    ghost var w := ch.wiring;
    if AllDeclarable(w, spec) {
      AcceptedIsInPlace(w, spec);
    }
    AcceptedExactly(w, spec);
    ghost var n := Reached(w, spec, broken);
    DeclaredGrows(w, spec, n);
    DeclaredAll(w, spec);
    DeclaredQueues(w, spec);
    var retryExchange := RetryExchangeName(spec.queueName);
    var retryQueue := RetryQueueName(spec.queueName);
    var dlqQueue := DLQQueueName(spec.queueName);

    ok := ch.ExchangeDeclare(spec.exchange, broken == 1);
    if !ok { return; }
    assert ch.wiring == Declared(w, spec, 1);
    ok := ch.ExchangeDeclare(retryExchange, broken == 2);
    if !ok { return; }
    assert ch.wiring == Declared(w, spec, 2);
    ok := ch.QueueDeclare(spec.queueName, QueueArgs(None, Some(retryExchange), None), broken == 3);
    if !ok { return; }
    assert ch.wiring == Declared(w, spec, 3);
    ok := ch.QueueBind(spec.queueName, spec.routingKey, spec.exchange, broken == 4);
    if !ok { return; }
    assert ch.wiring == Declared(w, spec, 4);
    ok := ch.QueueDeclare(retryQueue,
      QueueArgs(Some(Milliseconds(spec.retryTTL)), Some(spec.exchange), Some(spec.routingKey)), broken == 5);
    if !ok { return; }
    assert ch.wiring == Declared(w, spec, 5);
    ok := ch.QueueBind(retryQueue, spec.routingKey, retryExchange, broken == 6);
    if !ok { return; }
    assert ch.wiring == Declared(w, spec, 6);
    ok := ch.QueueDeclare(dlqQueue, PLAIN_ARGS, broken == 7);
  }

  /** Declaring twice changes nothing: every declaration is idempotent. */
  lemma RedeclaringIsIdle(w: Wiring, spec: TopologySpec)
    requires Wired(w, spec) && Milliseconds(spec.retryTTL) >= 0
    ensures AllDeclarable(w, spec) && WiringAfter(w, spec) == w
  {
    var w' := WiringAfter(w, spec);
    NamesDiffer(spec.queueName);
    assert w'.queues == w.queues;
    assert w'.exchanges == w.exchanges && w'.bindings == w.bindings;
  }

  /** A topology stays in place whatever is declared later. */
  lemma WiredStays(w: Wiring, w': Wiring, spec: TopologySpec)
    requires Grows(w, w') && Wired(w, spec)
    ensures Wired(w', spec)
  {
  }

  // ----- Dead-lettering -----

  /** The queues that get a copy of a message published to this exchange under this key. */
  function Routes(w: Wiring, exchange: string, key: string): set<string> {
    set b | b in w.bindings && b.exchange == exchange && Selects(b.pattern, key) :: b.queue
  }

  /** The key a dead-lettered message is republished under. */
  function DeadLetterKey(w: Wiring, queue: string, key: string): string
    requires queue in w.queues
  {
    if w.queues[queue].deadLetterKey.Some? then w.queues[queue].deadLetterKey.value else key
  }

  /** Where a message dying in `queue` goes; nowhere without a dead-letter exchange. */
  function DeadLetter(w: Wiring, queue: string, key: string): set<string>
    requires queue in w.queues
  {
    if w.queues[queue].deadLetterExchange.None? then {}
    else Routes(w, w.queues[queue].deadLetterExchange.value, DeadLetterKey(w, queue, key))
  }

  /** A nack: a message that reached the main queue goes to its own retry queue, under the key
      it came with, and nowhere else exactly if nothing else bound to the consumer's retry
      exchange selects that key. */
  lemma NackGoesToRetry(w: Wiring, spec: TopologySpec, key: string)
    requires Wired(w, spec) && Selects(spec.routingKey, key)
    ensures var retry := RetryQueueName(spec.queueName);
            var exchange := RetryExchangeName(spec.queueName);
            && retry in DeadLetter(w, spec.queueName, key)
            && DeadLetterKey(w, spec.queueName, key) == key
            && (DeadLetter(w, spec.queueName, key) == {retry} <==>
                  forall b :: b in w.bindings && b.exchange == exchange && Selects(b.pattern, key) ==> b.queue == retry)
  {
    var retry := RetryQueueName(spec.queueName);
    var exchange := RetryExchangeName(spec.queueName);
    assert Binding(exchange, spec.routingKey, retry) in w.bindings;
    if DeadLetter(w, spec.queueName, key) == {retry} {
      forall b | b in w.bindings && b.exchange == exchange && Selects(b.pattern, key) ensures b.queue == retry {
        assert b.queue in DeadLetter(w, spec.queueName, key);
      }
    }
  }

  /** A TTL expiry: for any topic pattern the message comes back to its main queue under a key
      that can bounce again, and comes back alone exactly if no other queue bound to the
      shared exchange selects the consumer's routing key. */
  lemma ExpiryComesBack(w: Wiring, spec: TopologySpec, key: string)
    requires Wired(w, spec)
    ensures var retry := RetryQueueName(spec.queueName);
            && spec.queueName in DeadLetter(w, retry, key)
            && Selects(spec.routingKey, DeadLetterKey(w, retry, key))
            && (DeadLetter(w, retry, key) == {spec.queueName} <==>
                  forall b :: b in w.bindings && b.exchange == spec.exchange && Selects(b.pattern, spec.routingKey)
                    ==> b.queue == spec.queueName)
  {
    MatchesItself(Words(spec.routingKey));
    var retry := RetryQueueName(spec.queueName);
    assert Binding(spec.exchange, spec.routingKey, spec.queueName) in w.bindings;
    if DeadLetter(w, retry, key) == {spec.queueName} {
      forall b | b in w.bindings && b.exchange == spec.exchange && Selects(b.pattern, spec.routingKey)
        ensures b.queue == spec.queueName
      {
        assert b.queue in DeadLetter(w, retry, key);
      }
    }
  }

  /** The routing key a message carries after n full retry cycles (nack, then expiry), having
      started from its main queue under `key`. */
  ghost function KeyAfter(w: Wiring, spec: TopologySpec, key: string, n: nat): string
    requires Wired(w, spec)
  {
    if n == 0 then key
    else DeadLetterKey(w, RetryQueueName(spec.queueName),
                       DeadLetterKey(w, spec.queueName, KeyAfter(w, spec, key, n - 1)))
  }

  /** The bounce never strands a message: however often it is retried, its next nack leads to
      the retry queue and its next expiry back, even though the first expiry replaces its key
      by the pattern. */
  lemma {:induction false} BouncesForever(w: Wiring, spec: TopologySpec, key: string, n: nat)
    requires Wired(w, spec) && Selects(spec.routingKey, key)
    ensures var k := KeyAfter(w, spec, key, n);
            && Selects(spec.routingKey, k)
            && RetryQueueName(spec.queueName) in DeadLetter(w, spec.queueName, k)
            && spec.queueName in DeadLetter(w, RetryQueueName(spec.queueName), k)
            && (n > 0 ==> k == spec.routingKey)
  {
    if n > 0 {
      BouncesForever(w, spec, key, n - 1);
    }
    MatchesItself(Words(spec.routingKey));
    NackGoesToRetry(w, spec, KeyAfter(w, spec, key, n));
    ExpiryComesBack(w, spec, KeyAfter(w, spec, key, n));
  }

  /** The bindings on an exchange are the main-queue bindings of these consumers. */
  ghost predicate ExactlyConsumers(w: Wiring, exchange: string, specs: set<TopologySpec>) {
    && (forall spec :: spec in specs ==> spec.exchange == exchange && Wired(w, spec))
    && (forall b :: b in w.bindings && b.exchange == exchange ==>
          exists spec :: spec in specs && b == Binding(exchange, spec.routingKey, spec.queueName))
  }

  /** Such a wiring is what declaring the consumers one after another leaves, on an exchange that
      is none of their retry exchanges. */
  lemma DeclaringAddsOneConsumer(w: Wiring, exchange: string, specs: set<TopologySpec>, spec: TopologySpec)
    requires ExactlyConsumers(w, exchange, specs) && AllDeclarable(w, spec)
    requires spec.exchange == exchange != RetryExchangeName(spec.queueName)
    ensures ExactlyConsumers(WiringAfter(w, spec), exchange, specs + {spec})
    ensures ExactlyConsumers(Wiring({}, map[], {}), exchange, {})
  {
    var w' := WiringAfter(w, spec);
    DeclaredGrows(w, spec, 7);
    DeclaredAll(w, spec);
    forall other | other in specs + {spec} ensures other.exchange == exchange && Wired(w', other) {
      if other in specs {
        WiredStays(w, w', other);
      }
    }
    forall b | b in w'.bindings && b.exchange == exchange
      ensures exists other :: other in specs + {spec} && b == Binding(exchange, other.routingKey, other.queueName)
    {
      if b in w.bindings {
        var other :| other in specs && b == Binding(exchange, other.routingKey, other.queueName);
        assert other in specs + {spec};
      } else {
        assert spec in specs + {spec};
      }
    }
  }

  /** What "one consumer's failures must not be retried against the other's" comes to: an
      expiry delivers one copy to every consumer on the exchange whose routing key selects this
      consumer's, so the promise holds exactly when there is no other such consumer. */
  lemma ExpiryReachesEveryConsumer(w: Wiring, specs: set<TopologySpec>, mine: TopologySpec, key: string)
    requires mine in specs && ExactlyConsumers(w, mine.exchange, specs)
    ensures var copies := DeadLetter(w, RetryQueueName(mine.queueName), key);
            && copies == (set spec | spec in specs && Selects(spec.routingKey, mine.routingKey) :: spec.queueName)
            && (copies == {mine.queueName} <==>
                  forall other :: other in specs && Selects(other.routingKey, mine.routingKey) ==>
                    other.queueName == mine.queueName)
  {
    ExpiryComesBack(w, mine, key);
    var copies := DeadLetter(w, RetryQueueName(mine.queueName), key);
    var expected := set spec | spec in specs && Selects(spec.routingKey, mine.routingKey) :: spec.queueName;
    forall q | q in copies ensures q in expected {
      var b :| b in w.bindings && b.exchange == mine.exchange && Selects(b.pattern, mine.routingKey) && b.queue == q;
    }
    forall q | q in expected ensures q in copies {
      var spec :| spec in specs && Selects(spec.routingKey, mine.routingKey) && spec.queueName == q;
      assert Binding(mine.exchange, spec.routingKey, spec.queueName) in w.bindings;
    }
    if copies == {mine.queueName} {
      forall other | other in specs && Selects(other.routingKey, mine.routingKey) ensures other.queueName == mine.queueName {
        assert other.queueName in expected;
      }
    }
  }

  /** Two consumers of one routing key under their own queue names, as the topology demands of
      them, do see each other's retries. */
  lemma RetriesLeakToTheOtherConsumer(w: Wiring, a: TopologySpec, b: TopologySpec, key: string)
    requires Wired(w, a) && Wired(w, b)
    requires a.exchange == b.exchange && a.routingKey == b.routingKey && a.queueName != b.queueName
    ensures {a.queueName, b.queueName} <= DeadLetter(w, RetryQueueName(a.queueName), key)
  {
    MatchesItself(Words(a.routingKey));
    assert Binding(a.exchange, a.routingKey, a.queueName) in w.bindings;
    assert Binding(a.exchange, a.routingKey, b.queueName) in w.bindings;
  }
}
