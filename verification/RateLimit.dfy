/** The fixed-window rate limiter over a shared Redis counter (pkg/middleware/ratelimit.go). */
module RateLimit {
  import opened Counting

  /** A live counter and the instant, in milliseconds, at which its TTL runs out. */
  datatype Counter = Counter(count: nat, deadline: int)

  type Store = map<string, Counter>

  /** What Redis does with one script call: the reply may be lost before or after it ran. */
  datatype Reply = Replied | LostBefore | LostAfter

  datatype Request = Request(key: string, time: int, reply: Reply)

  /** Turned away, let through within the limit, or let through because Redis failed. */
  datatype Verdict = TooMany | Counted | FailedOpen

  /** int64(window.Seconds()): whole seconds, truncated. */
  function WindowSeconds(windowMillis: int): int {
    if windowMillis >= 0 then windowMillis / 1000 else -(-windowMillis / 1000)
  }

  predicate Alive(store: Store, key: string, now: int) {
    key in store && now <= store[key].deadline
  }

  /** The count the script returns: INCR on a counter that may have expired. */
  function CountAfter(store: Store, key: string, now: int): nat {
    if Alive(store, key, now) then store[key].count + 1 else 1
  }

  /** The store it leaves: the first request of a window sets the TTL, and EXPIRE with a TTL
      that is not positive deletes the key. */
  function StoreAfter(store: Store, key: string, now: int, seconds: int): Store {
    var count := CountAfter(store, key, now);
    if count > 1 then store[key := Counter(count, store[key].deadline)]
    else if seconds <= 0 then store - {key}
    else store[key := Counter(1, now + 1000 * seconds)]
  }

  function VerdictOf(store: Store, r: Request, limit: int): Verdict {
    if r.reply != Replied then FailedOpen
    else if CountAfter(store, r.key, r.time) > limit then TooMany
    else Counted
  }

  function Served(store: Store, r: Request, seconds: int): Store {
    if r.reply == LostBefore then store else StoreAfter(store, r.key, r.time, seconds)
  }

  function KeyOf(namespace: string, ip: string): string {
    "rl:" + namespace + ":" + ip
  }

  class RateLimiter {
    var store: Store
    const namespace: string
    const limit: int
    const seconds: int

    constructor (namespace: string, limit: int, windowMillis: int)
      ensures store == map[] && this.namespace == namespace && this.limit == limit
      // the whole seconds of the window
      ensures windowMillis >= 0 ==> seconds * 1000 <= windowMillis < (seconds + 1) * 1000
      ensures windowMillis < 0 ==> seconds * 1000 >= windowMillis > (seconds - 1) * 1000
    {
      store := map[];
      this.namespace := namespace;
      this.limit := limit;
      seconds := WindowSeconds(windowMillis);
    }

    /** The Lua script: INCR, then EXPIRE on the first request of a window. */
    method Increment(key: string, now: int) returns (count: nat)
      requires forall k :: k in store ==> store[k].count >= 1
      modifies this
      ensures store == StoreAfter(old(store), key, now, seconds) && count == CountAfter(old(store), key, now)
      ensures forall k :: k in store ==> store[k].count >= 1
    {
      if key in store && store[key].deadline < now {
        store := store - {key};
      }
      count := if key in store then store[key].count + 1 else 1;
      store := store[key := Counter(count, if key in store then store[key].deadline else now)];
      if count == 1 {
        store := if seconds <= 0 then store - {key} else store[key := Counter(1, now + 1000 * seconds)];
      }
      assert store == StoreAfter(old(store), key, now, seconds);
    }

    method Handle(r: Request) returns (verdict: Verdict)
      requires forall k :: k in store ==> store[k].count >= 1
      modifies this
      ensures store == Served(old(store), r, seconds) && verdict == VerdictOf(old(store), r, limit)
      ensures forall k :: k in store ==> store[k].count >= 1
    {
      if r.reply == LostBefore {
        return FailedOpen;
      }
      var count := Increment(r.key, r.time);
      if r.reply == LostAfter {
        return FailedOpen;
      }
      verdict := if count > limit then TooMany else Counted;
    }

    /** One request from this address, counted under the service's own key. */
    method ServeHTTP(ip: string, time: int, reply: Reply) returns (verdict: Verdict)
      requires forall k :: k in store ==> store[k].count >= 1
      modifies this
      ensures var r := Request("rl:" + namespace + ":" + ip, time, reply);
              store == Served(old(store), r, seconds) && verdict == VerdictOf(old(store), r, limit)
      ensures forall k :: k in store ==> store[k].count >= 1
      // no other key is touched; a reply over the limit turns the request away, and nothing else does
      ensures forall k :: k != "rl:" + namespace + ":" + ip ==> (k in store <==> k in old(store))
      ensures forall k :: k in store && k != "rl:" + namespace + ":" + ip ==> store[k] == old(store)[k]
      ensures verdict == TooMany ==>
                var key := KeyOf(namespace, ip);
                reply == Replied && (limit < 1 || (key in old(store) && old(store)[key].count >= limit))
    {
      verdict := Handle(Request(KeyOf(namespace, ip), time, reply));
    }
  }

  // ----- Timelines -----

  /** The store after a timeline, from empty. */
  function After(requests: seq<Request>, seconds: int): Store {
    if requests == [] then map[]
    else Served(After(requests[..|requests| - 1], seconds), requests[|requests| - 1], seconds)
  }

  ghost predicate Ordered(requests: seq<Request>) {
    forall i, j :: 0 <= i < j < |requests| ==> requests[i].time <= requests[j].time
  }

  /** Counted admissions for `key` at instants in [from, to). */
  ghost function Admitted(requests: seq<Request>, key: string, limit: int, seconds: int, from: int, to: int): nat {
    if requests == [] then 0
    else
      var before := requests[..|requests| - 1];
      var r := requests[|requests| - 1];
      Admitted(before, key, limit, seconds, from, to)
      + if r.key == key && from <= r.time < to && VerdictOf(After(before, seconds), r, limit) == Counted then 1 else 0
  }

  /** The start of the key's latest window, and how many windows started in [from, to). */
  ghost function Start(requests: seq<Request>, key: string, seconds: int): Option<int> {
    if requests == [] then None
    else
      var before := requests[..|requests| - 1];
      var r := requests[|requests| - 1];
      if r.key == key && r.reply != LostBefore && !Alive(After(before, seconds), key, r.time) then Some(r.time)
      else Start(before, key, seconds)
  }

  ghost function Starts(requests: seq<Request>, key: string, seconds: int, from: int, to: int): nat {
    if requests == [] then 0
    else
      var before := requests[..|requests| - 1];
      var r := requests[|requests| - 1];
      Starts(before, key, seconds, from, to)
      + if r.key == key && r.reply != LostBefore && from <= r.time < to && !Alive(After(before, seconds), key, r.time)
        then 1 else 0
  }

  /** How many of a window's first `count` requests the limit lets through. */
  function Within(count: nat, limit: nat): nat {
    if count <= limit then count else limit
  }

  /** The state of one key's window, against an interval that starts at `from`. */
  ghost predicate WindowState(requests: seq<Request>, key: string, limit: nat, seconds: int, from: int, to: int) {
    var store := After(requests, seconds);
    var start := Start(requests, key, seconds);
    var started := Starts(requests, key, seconds, from, to);
    var admitted := Admitted(requests, key, limit, seconds, from, to);
    && (start.None? ==> key !in store && admitted == 0 && started == 0)
    && (start.Some? ==>
          && key in store && store[key].deadline == start.value + 1000 * seconds && store[key].count >= 1
          && requests != [] && start.value <= requests[|requests| - 1].time
          && (start.value < from ==> started == 0 && admitted <= Within(store[key].count, limit) - 1)
          && (from <= start.value < to ==>
                && started >= 1 && (started - 1) * (1000 * seconds) <= start.value - from
                && admitted <= started * limit - 1 + Within(store[key].count, limit))
          && (to <= start.value ==>
                && (started == 0 || (started - 1) * (1000 * seconds) < to - from)
                && admitted <= (started + 1) * limit - 1))
  }

  lemma {:induction false} NoneAdmittedYet(requests: seq<Request>, key: string, limit: int, seconds: int, from: int, to: int)
    requires forall i :: 0 <= i < |requests| ==> requests[i].time < from
    ensures Admitted(requests, key, limit, seconds, from, to) == 0
  {
    if requests != [] {
      NoneAdmittedYet(requests[..|requests| - 1], key, limit, seconds, from, to);
    }
  }

  lemma WindowStep(requests: seq<Request>, key: string, limit: nat, seconds: int, from: int, to: int)
    requires requests != [] && Ordered(requests) && seconds >= 1 && limit >= 1 && from < to
    requires WindowState(requests[..|requests| - 1], key, limit, seconds, from, to)
    ensures WindowState(requests, key, limit, seconds, from, to)
  {
    var before := requests[..|requests| - 1];
    var r := requests[|requests| - 1];
    var started := Starts(before, key, seconds, from, to);
    assert (started + 1) * limit == started * limit + limit;
    assert started * (1000 * seconds) == (started - 1) * (1000 * seconds) + 1000 * seconds;
    if r.time < from {
      NoneAdmittedYet(before, key, limit, seconds, from, to);
    }
  }

  lemma {:induction false} WindowAlways(requests: seq<Request>, key: string, limit: nat, seconds: int, from: int, to: int)
    requires Ordered(requests) && seconds >= 1 && limit >= 1 && from < to
    ensures WindowState(requests, key, limit, seconds, from, to)
  {
    if requests != [] {
      WindowAlways(requests[..|requests| - 1], key, limit, seconds, from, to);
      WindowStep(requests, key, limit, seconds, from, to);
    }
  }

  // ----- One window -----

  lemma {:induction false} CounterOfWindow(requests: seq<Request>, key: string, seconds: int)
    requires seconds >= 1
    ensures var store, start := After(requests, seconds), Start(requests, key, seconds);
            && (start.None? <==> key !in store)
            && (start.Some? ==> store[key].deadline == start.value + 1000 * seconds && store[key].count >= 1)
  {
    if requests != [] {
      CounterOfWindow(requests[..|requests| - 1], key, seconds);
    }
  }

  lemma {:induction false} NoneBeyondWindow(requests: seq<Request>, key: string, limit: int, seconds: int, from: int, to: int)
    requires seconds >= 1
    requires Start(requests, key, seconds).Some? ==> from > Start(requests, key, seconds).value + 1000 * seconds
    ensures Admitted(requests, key, limit, seconds, from, to) == 0
  {
    if requests != [] {
      CounterOfWindow(requests[..|requests| - 1], key, seconds);
      NoneBeyondWindow(requests[..|requests| - 1], key, limit, seconds, from, to);
    }
  }

  /** A window admits at most `limit`: at every moment of any timeline, the admissions counted
      for a key since its window began are no more than the limit, and no more than the counter. */
  lemma {:induction false} WindowAdmitsAtMostLimit(requests: seq<Request>, key: string, limit: nat, seconds: int, to: int)
    requires seconds >= 1 && Start(requests, key, seconds).Some?
    ensures key in After(requests, seconds)
    ensures Admitted(requests, key, limit, seconds, Start(requests, key, seconds).value, to)
            <= Within(After(requests, seconds)[key].count, limit)
  {
    CounterOfWindow(requests, key, seconds);
    var before := requests[..|requests| - 1];
    var r := requests[|requests| - 1];
    CounterOfWindow(before, key, seconds);
    if r.key == key && r.reply != LostBefore && !Alive(After(before, seconds), key, r.time) {
      NoneBeyondWindow(before, key, limit, seconds, r.time, to);
    } else {
      WindowAdmitsAtMostLimit(before, key, limit, seconds, to);
    }
  }

  // ----- Any interval -----

  lemma LongEnough(n: nat, window: nat)
    requires n >= 1
    ensures n * window >= window
  {
    assert n * window == (n - 1) * window + window;
    assert (n - 1) * window >= 0;
  }

  lemma MulMono(x: nat, y: nat, z: nat)
    requires x <= y
    ensures x * z <= y * z
  {
    assert y * z == x * z + (y - x) * z;
    assert (y - x) * z >= 0;
  }

  lemma FewStarts(started: nat, n: nat, window: nat)
    requires n >= 1 && window >= 1 && (started == 0 || (started - 1) * window < n * window)
    ensures started <= n
  {
    if started > n {
      MulMono(n, started - 1, window);
    }
  }

  lemma FewerWindows(started: nat, n: nat, limit: nat)
    requires started <= n
    ensures (started + 1) * limit <= (n + 1) * limit && started * limit + limit == (started + 1) * limit
  {
    assert (n + 1) * limit == (started + 1) * limit + (n - started) * limit;
    assert (n - started) * limit >= 0;
  }

  lemma BoundFromState(requests: seq<Request>, key: string, limit: nat, seconds: int, from: int, n: nat)
    requires seconds >= 1 && limit >= 1 && n >= 1
    requires WindowState(requests, key, limit, seconds, from, from + n * (1000 * seconds))
    ensures Admitted(requests, key, limit, seconds, from, from + n * (1000 * seconds)) <= (n + 1) * limit - 1
  {
    hide Admitted;
    hide Starts;
    hide Start;
    hide After;
    var to := from + n * (1000 * seconds);
    var started := Starts(requests, key, seconds, from, to);
    FewStarts(started, n, 1000 * seconds);
    FewerWindows(started, n, limit);
    FewerWindows(0, n, limit);
  }

  /** The limiter's guarantee, for any timeline of requests on any keys and any Redis failures:
      in every half-open interval as long as n enforced windows, the admissions counted for one
      key stay below (n + 1) * limit. One window is the case n == 1: at most twice the limit,
      less one. A limit below one counts nothing. */
  lemma {:induction false} AdmissionBound(requests: seq<Request>, key: string, limit: nat, seconds: int, from: int, n: nat)
    requires Ordered(requests) && seconds >= 1 && limit >= 1 && n >= 1
    ensures Admitted(requests, key, limit, seconds, from, from + n * (1000 * seconds)) <= (n + 1) * limit - 1
  {
    hide WindowState;
    var length := n * (1000 * seconds);
    LongEnough(n, 1000 * seconds);
    WindowAlways(requests, key, limit, seconds, from, from + length);
    BoundFromState(requests, key, limit, seconds, from, n);
  }

  // ----- The bound is attained -----

  function Burst(key: string, time: int, k: nat): seq<Request> {
    seq(k, _ => Request(key, time, Replied))
  }

  lemma OneMore(before: seq<Request>, key: string, limit: nat, seconds: int, time: int, from: int, to: int)
    requires Alive(After(before, seconds), key, time)
    requires 1 <= After(before, seconds)[key].count < limit
    ensures var all := before + [Request(key, time, Replied)];
            && key in After(all, seconds)
            && After(all, seconds)[key]
               == Counter(After(before, seconds)[key].count + 1, After(before, seconds)[key].deadline)
            && Admitted(all, key, limit, seconds, from, to)
               == Admitted(before, key, limit, seconds, from, to) + if from <= time < to then 1 else 0
  {
    var all := before + [Request(key, time, Replied)];
    assert all[..|all| - 1] == before;
  }

  /** k more requests inside a running window, none over the limit. */
  lemma {:induction false} BurstInWindow(
      before: seq<Request>, key: string, limit: nat, seconds: int, time: int, k: nat, from: int, to: int)
    requires Alive(After(before, seconds), key, time) && 1 <= After(before, seconds)[key].count
    requires After(before, seconds)[key].count + k <= limit
    ensures var all := before + Burst(key, time, k);
            && key in After(all, seconds)
            && After(all, seconds)[key]
               == Counter(After(before, seconds)[key].count + k, After(before, seconds)[key].deadline)
            && Admitted(all, key, limit, seconds, from, to)
               == Admitted(before, key, limit, seconds, from, to) + if from <= time < to then k else 0
  {
    hide After, Admitted;
    if k == 0 {
      assert before + Burst(key, time, 0) == before;
    } else {
      BurstInWindow(before, key, limit, seconds, time, k - 1, from, to);
      OneMore(before + Burst(key, time, k - 1), key, limit, seconds, time, from, to);
      assert before + Burst(key, time, k) == before + Burst(key, time, k - 1) + [Request(key, time, Replied)];
    }
  }

  /** One request that opens a window. */
  lemma OpenWindow(before: seq<Request>, key: string, limit: nat, seconds: int, time: int, from: int, to: int)
    requires seconds >= 1 && limit >= 1 && !Alive(After(before, seconds), key, time)
    ensures var all := before + [Request(key, time, Replied)];
            && key in After(all, seconds) && After(all, seconds)[key] == Counter(1, time + 1000 * seconds)
            && Admitted(all, key, limit, seconds, from, to)
               == Admitted(before, key, limit, seconds, from, to) + if from <= time < to then 1 else 0
  {
    var all := before + [Request(key, time, Replied)];
    assert all[..|all| - 1] == before;
  }

  lemma NothingYet(key: string, limit: int, seconds: int, from: int, to: int)
    ensures After([], seconds) == map[] && Admitted([], key, limit, seconds, from, to) == 0
  {
  }

  lemma TimelineOrdered(key: string, w: nat, limit: nat)
    requires limit >= 1
    ensures Ordered([] + [Request(key, 0, Replied)] + Burst(key, w, limit - 1) + [Request(key, w + 1, Replied)]
                    + Burst(key, w + 1, limit - 1))
  {
  }

  /** For every limit and window there is a timeline on which one window's length sees exactly
      2 * limit - 1 admissions: the guarantee cannot be improved. */
  lemma AdmissionBoundIsAttained(key: string, limit: nat, seconds: int) returns (requests: seq<Request>)
    requires seconds >= 1 && limit >= 1
    ensures Ordered(requests)
    ensures Admitted(requests, key, limit, seconds, 1000 * seconds, 2000 * seconds) == 2 * limit - 1
  {
    hide After;
    hide Admitted;
    hide Burst;
    hide Ordered;
    var w := 1000 * seconds;
    NothingYet(key, limit, seconds, w, 2 * w);
    var first := [] + [Request(key, 0, Replied)];
    OpenWindow([], key, limit, seconds, 0, w, 2 * w);
    BurstInWindow(first, key, limit, seconds, w, limit - 1, w, 2 * w);
    var full := first + Burst(key, w, limit - 1);
    OpenWindow(full, key, limit, seconds, w + 1, w, 2 * w);
    var again := full + [Request(key, w + 1, Replied)];
    BurstInWindow(again, key, limit, seconds, w + 1, limit - 1, w, 2 * w);
    requests := again + Burst(key, w + 1, limit - 1);
    TimelineOrdered(key, w, limit);
  }

  // ----- Windows below one second -----

  /** Below one second the limiter does not limit: every EXPIRE deletes the counter, so with a
      limit of at least one no request is ever turned away, on any timeline. */
  lemma {:induction false} NoLimitBelowOneSecond(requests: seq<Request>, limit: nat, seconds: int)
    requires seconds <= 0
    ensures After(requests, seconds) == map[]
    ensures limit >= 1 ==> forall i :: 0 <= i < |requests| ==>
              VerdictOf(After(requests[..i], seconds), requests[i], limit) != TooMany
  {
    if requests != [] {
      var n := |requests| - 1;
      NoLimitBelowOneSecond(requests[..n], limit, seconds);
      forall i | 0 <= i < |requests| && limit >= 1
        ensures VerdictOf(After(requests[..i], seconds), requests[i], limit) != TooMany
      {
        if i < n {
          assert requests[..n][..i] == requests[..i];
        }
      }
    }
  }

  // ----- Keys -----

  lemma {:induction false} PrefixesAgree(a: string, x: string, b: string, y: string)
    requires ':' !in a && ':' !in b && a + ":" + x == b + ":" + y
    ensures a == b && x == y
  {
    assert (a + ":" + x)[0] == (b + ":" + y)[0];
    if a == "" && b == "" {
      assert x == (a + ":" + x)[1..] && y == (b + ":" + y)[1..];
    } else if a != "" && b != "" {
      assert (a + ":" + x)[1..] == a[1..] + ":" + x;
      assert (b + ":" + y)[1..] == b[1..] + ":" + y;
      assert a[0] == (a + ":" + x)[0] && b[0] == (b + ":" + y)[0];
      PrefixesAgree(a[1..], x, b[1..], y);
      assert a == [a[0]] + a[1..] && b == [b[0]] + b[1..];
    }
  }

  /** Services sharing one Redis never share a counter, whatever the client addresses, as long
      as their namespaces contain no colon. */
  lemma NamespacesDoNotCollide(a: string, x: string, b: string, y: string)
    requires ':' !in a && ':' !in b
    ensures KeyOf(a, x) == KeyOf(b, y) <==> a == b && x == y
  {
    if KeyOf(a, x) == KeyOf(b, y) {
      assert KeyOf(a, x)[3..] == a + ":" + x;
      assert KeyOf(b, y)[3..] == b + ":" + y;
      PrefixesAgree(a, x, b, y);
    }
  }
}
