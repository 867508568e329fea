/** The x-death header: how the broker records dead-letterings on a message, and how the
    consumer reads its retry count back out of that header (pkg/messaging/rabbitmq/consumer.go). */
module XDeath {
  import opened Counting

  /** A field of an AMQP table, as the client library hands it over dynamically typed. */
  datatype Value =
    | Int64(n: int)
    | Int32(n: int)
    | Int(n: int)
    | Str(s: string)
    | Table(fields: map<string, Value>)
    | Array(items: seq<Value>)
    | OtherType

  type Headers = map<string, Value>

  datatype Reason = Rejected | Expired | MaxLength | DeliveryLimit

  /** What one element of the x-death array contributes: a count if it is a table for
      `queue` carrying an integer count, nothing otherwise. */
  predicate Names(entry: Value, queue: string) {
    && entry.Table?
    && (if "queue" in entry.fields && entry.fields["queue"].Str? then entry.fields["queue"].s else "") == queue
    && "count" in entry.fields
    && (entry.fields["count"].Int64? || entry.fields["count"].Int32? || entry.fields["count"].Int?)
  }

  function FirstCount(items: seq<Value>, queue: string): int {
    if items == [] then 0
    else if Names(items[0], queue) then items[0].fields["count"].n
    else FirstCount(items[1..], queue)
  }

  /** The retry count the consumer sees on a delivery with these headers. */
  function Retries(headers: Headers, retryQueue: string): int {
    if "x-death" in headers && headers["x-death"].Array?
    then FirstCount(headers["x-death"].items, retryQueue)
    else 0
  }

  /** The consumer's own scan of the header. */
  method RetriesSoFar(headers: Headers, retryQueue: string) returns (retries: int)
    ensures retries == Retries(headers, retryQueue)
  {
    if "x-death" !in headers {
      return 0;
    }
    var raw := headers["x-death"];
    if !raw.Array? {
      return 0;
    }
    var deaths := raw.items;
    var i := 0;
    while i < |deaths|
      invariant 0 <= i <= |deaths|
      invariant FirstCount(deaths, retryQueue) == FirstCount(deaths[i..], retryQueue)
    {
      var death := deaths[i];
      assert deaths[i..][1..] == deaths[i + 1..];
      i := i + 1;
      if !death.Table? {
        continue;
      }
      var queue := if "queue" in death.fields && death.fields["queue"].Str? then death.fields["queue"].s else "";
      if queue != retryQueue {
        continue;
      }
      if "count" in death.fields {
        match death.fields["count"]
        case Int64(n) => return n;
        case Int32(n) => return n;
        case Int(n) => return n;
        case _ =>
      }
    }
    return 0;
  }

  // ----- The broker's side -----

  /** One entry of the broker's death record for a message. */
  datatype Death = Death(queue: string, reason: Reason, count: nat)

  /** A dead-lettering: the queue the message died in, and why. */
  datatype Dying = Dying(queue: string, reason: Reason)

  predicate IsFor(d: Death, queue: string, reason: Reason) {
    d.queue == queue && d.reason == reason
  }

  function CountFor(deaths: seq<Death>, queue: string, reason: Reason): nat {
    if deaths == [] then 0
    else if IsFor(deaths[0], queue, reason) then deaths[0].count
    else CountFor(deaths[1..], queue, reason)
  }

  function Without(deaths: seq<Death>, queue: string, reason: Reason): seq<Death> {
    if deaths == [] then []
    else if IsFor(deaths[0], queue, reason) then Without(deaths[1..], queue, reason)
    else [deaths[0]] + Without(deaths[1..], queue, reason)
  }

  /** The broker bumps the entry of the (queue, reason) pair and moves it to the front. */
  function RecordDeath(deaths: seq<Death>, queue: string, reason: Reason): seq<Death> {
    [Death(queue, reason, CountFor(deaths, queue, reason) + 1)] + Without(deaths, queue, reason)
  }

  /** The record of a message after a whole history of dead-letterings, oldest first. */
  function Record(history: seq<Dying>): seq<Death> {
    if history == [] then []
    else
      var last := history[|history| - 1];
      RecordDeath(Record(history[..|history| - 1]), last.queue, last.reason)
  }

  function ReasonText(reason: Reason): string {
    match reason
    case Rejected => "rejected"
    case Expired => "expired"
    case MaxLength => "maxlen"
    case DeliveryLimit => "delivery_limit"
  }

  function Entry(d: Death): Value {
    Table(map["queue" := Str(d.queue), "reason" := Str(ReasonText(d.reason)), "count" := Int64(d.count)])
  }

  function Entries(deaths: seq<Death>): seq<Value> {
    if deaths == [] then [] else [Entry(deaths[0])] + Entries(deaths[1..])
  }

  /** The header the broker attaches; a message that never died carries none. */
  function HeaderOf(deaths: seq<Death>): Headers {
    if deaths == [] then map[] else map["x-death" := Array(Entries(deaths))]
  }

  /** The fields of one entry, as the broker names them. */
  lemma EntryHolds(d: Death)
    ensures var fields := Entry(d).fields;
            && fields.Keys == {"queue", "reason", "count"}
            && fields["queue"] == Str(d.queue) && fields["count"] == Int64(d.count)
            && fields["reason"] in {Str("rejected"), Str("expired"), Str("maxlen"), Str("delivery_limit")}
            && (fields["reason"] == Str("rejected") <==> d.reason == Rejected)
            && (fields["reason"] == Str("expired") <==> d.reason == Expired)
            && (fields["reason"] == Str("maxlen") <==> d.reason == MaxLength)
  {
    assert "rejected"[0] == 'r' && "expired"[0] == 'e' && "maxlen"[0] == 'm' && "delivery_limit"[0] == 'd';
  }

  // ----- What the header means -----

  function CountInQueue(deaths: seq<Death>, queue: string): nat {
    if deaths == [] then 0
    else if deaths[0].queue == queue then deaths[0].count
    else CountInQueue(deaths[1..], queue)
  }

  /** On a header the broker wrote, the scan reads the newest entry of the queue. */
  lemma {:induction false} RetriesReadsNewest(deaths: seq<Death>, queue: string)
    ensures FirstCount(Entries(deaths), queue) == CountInQueue(deaths, queue)
    ensures Retries(HeaderOf(deaths), queue) == CountInQueue(deaths, queue)
  {
    if deaths != [] {
      RetriesReadsNewest(deaths[1..], queue);
      assert Entries(deaths)[1..] == Entries(deaths[1..]);
    }
  }

  predicate OneEntryEach(deaths: seq<Death>) {
    forall i, j :: 0 <= i < j < |deaths| ==> !IsFor(deaths[j], deaths[i].queue, deaths[i].reason)
  }

  /** The queue has no entry other than the one for messages that expired there. */
  predicate OnlyExpiresIn(deaths: seq<Death>, queue: string) {
    forall i :: 0 <= i < |deaths| && deaths[i].queue == queue ==> deaths[i].reason == Expired
  }

  lemma {:induction false} WithoutMembers(deaths: seq<Death>, queue: string, reason: Reason)
    ensures forall d :: d in Without(deaths, queue, reason) <==> d in deaths && !IsFor(d, queue, reason)
    ensures OneEntryEach(deaths) ==> OneEntryEach(Without(deaths, queue, reason))
  {
    if deaths != [] {
      WithoutMembers(deaths[1..], queue, reason);
      var tail := Without(deaths[1..], queue, reason);
      assert deaths == [deaths[0]] + deaths[1..];
      if OneEntryEach(deaths) {
        assert OneEntryEach(deaths[1..]);
        var all := Without(deaths, queue, reason);
        forall i, j | 0 <= i < j < |all| ensures !IsFor(all[j], all[i].queue, all[i].reason) {
          if all != tail && i == 0 {
            assert all[j] in tail;
            var k :| 0 <= k < |deaths[1..]| && deaths[1..][k] == all[j];
            assert deaths[k + 1] == all[j];
          } else if all != tail {
            assert all[i] == tail[i - 1] && all[j] == tail[j - 1];
          }
        }
      }
    }
  }

  lemma {:induction false} CountForWithout(deaths: seq<Death>, queue: string, reason: Reason, q: string, r: Reason)
    requires !(q == queue && r == reason)
    ensures CountFor(Without(deaths, queue, reason), q, r) == CountFor(deaths, q, r)
  {
    if deaths != [] {
      CountForWithout(deaths[1..], queue, reason, q, r);
      var w := Without(deaths, queue, reason);
      if !IsFor(deaths[0], queue, reason) {
        assert w[1..] == Without(deaths[1..], queue, reason);
      }
    }
  }

  /** What one dead-lettering does to every count of the record. */
  lemma RecordDeathCounts(deaths: seq<Death>, queue: string, reason: Reason, q: string, r: Reason)
    ensures CountFor(RecordDeath(deaths, queue, reason), q, r)
         == CountFor(deaths, q, r) + if q == queue && r == reason then 1 else 0
  {
    var after := RecordDeath(deaths, queue, reason);
    assert after[1..] == Without(deaths, queue, reason);
    if !(q == queue && r == reason) {
      CountForWithout(deaths, queue, reason, q, r);
    }
  }

  lemma RecordDeathKeepsOneEntryEach(deaths: seq<Death>, queue: string, reason: Reason)
    requires OneEntryEach(deaths)
    ensures OneEntryEach(RecordDeath(deaths, queue, reason))
  {
    WithoutMembers(deaths, queue, reason);
    var after := RecordDeath(deaths, queue, reason);
    forall i, j | 0 <= i < j < |after| ensures !IsFor(after[j], after[i].queue, after[i].reason) {
      assert after[j] in Without(deaths, queue, reason);
    }
  }

  ghost function DyingAs(queue: string, reason: Reason): Dying -> bool {
    (d: Dying) => d == Dying(queue, reason)
  }

  /** For every history, the record holds one entry per (queue, reason) pair, and each pair's
      count is exactly how often the message died that way. */
  lemma {:induction false} RecordCountsHistory(history: seq<Dying>, queue: string, reason: Reason)
    ensures OneEntryEach(Record(history))
    ensures CountFor(Record(history), queue, reason) == Count(history, DyingAs(queue, reason))
  {
    if history != [] {
      var n := |history| - 1;
      RecordCountsHistory(history[..n], queue, reason);
      var last := history[n];
      RecordDeathKeepsOneEntryEach(Record(history[..n]), last.queue, last.reason);
      RecordDeathCounts(Record(history[..n]), last.queue, last.reason, queue, reason);
    }
  }

  /** In any list of entries, in any order and beside any other queues' entries, the count
      the consumer reads is the expiry count, provided the queue only ever expires messages. */
  lemma {:induction false} RetriesIgnoresOrder(deaths: seq<Death>, queue: string)
    requires OnlyExpiresIn(deaths, queue)
    ensures Retries(HeaderOf(deaths), queue) == CountFor(deaths, queue, Expired)
  {
    RetriesReadsNewest(deaths, queue);
    if deaths != [] {
      assert OnlyExpiresIn(deaths[1..], queue);
      RetriesIgnoresOrder(deaths[1..], queue);
      RetriesReadsNewest(deaths[1..], queue);
    }
  }

  /** The index of the last dead-lettering in `queue`, if there is one. */
  ghost predicate LastDeathIn(history: seq<Dying>, queue: string, k: nat) {
    && k < |history| && history[k].queue == queue
    && forall i :: k < i < |history| ==> history[i].queue != queue
  }

  lemma {:induction false} CountInQueueWithout(deaths: seq<Death>, queue: string, reason: Reason, q: string)
    requires q != queue
    ensures CountInQueue(Without(deaths, queue, reason), q) == CountInQueue(deaths, q)
  {
    if deaths != [] {
      CountInQueueWithout(deaths[1..], queue, reason, q);
      var w := Without(deaths, queue, reason);
      if !IsFor(deaths[0], queue, reason) {
        assert w[1..] == Without(deaths[1..], queue, reason);
      }
    }
  }

  lemma {:induction false} NewestEntry(history: seq<Dying>, queue: string, k: nat)
    requires LastDeathIn(history, queue, k)
    ensures CountInQueue(Record(history), queue) == CountFor(Record(history), queue, history[k].reason)
  {
    var n := |history| - 1;
    var before := Record(history[..n]);
    var last := history[n];
    if k < n {
      NewestEntry(history[..n], queue, k);
      CountForWithout(before, last.queue, last.reason, queue, history[k].reason);
      CountInQueueWithout(before, last.queue, last.reason, queue);
      assert Record(history)[1..] == Without(before, last.queue, last.reason);
    }
  }

  /** Exactly what the consumer reads, for every history: the scan looks at the queue alone,
      so it returns how often the message died in the retry queue for the same reason as its
      latest death there. */
  lemma {:induction false} RetriesReadsLatestReason(history: seq<Dying>, queue: string, k: nat)
    requires LastDeathIn(history, queue, k)
    ensures Retries(HeaderOf(Record(history)), queue) == Count(history, DyingAs(queue, history[k].reason))
  {
    RetriesReadsNewest(Record(history), queue);
    NewestEntry(history, queue, k);
    RecordCountsHistory(history, queue, history[k].reason);
  }

  lemma {:induction false} OnlyExpiresHistory(history: seq<Dying>, queue: string)
    requires forall i :: 0 <= i < |history| && history[i].queue == queue ==> history[i].reason == Expired
    ensures OnlyExpiresIn(Record(history), queue)
  {
    if history != [] {
      var n := |history| - 1;
      OnlyExpiresHistory(history[..n], queue);
      var before := Record(history[..n]);
      WithoutMembers(before, history[n].queue, history[n].reason);
      var after := Record(history);
      forall i | 0 <= i < |after| && after[i].queue == queue ensures after[i].reason == Expired {
        if i > 0 {
          assert after[i] in Without(before, history[n].queue, history[n].reason);
          assert after[i] in before;
        }
      }
    }
  }

  /** The promise of the retry count: in every history where the retry queue drops messages
      only by expiry, the consumer reads exactly the number of completed retry cycles. */
  lemma {:induction false} RetriesCountsExpiries(history: seq<Dying>, retryQueue: string)
    requires forall i :: 0 <= i < |history| && history[i].queue == retryQueue ==> history[i].reason == Expired
    ensures Retries(HeaderOf(Record(history)), retryQueue) == Count(history, DyingAs(retryQueue, Expired))
  {
    OnlyExpiresHistory(history, retryQueue);
    RetriesIgnoresOrder(Record(history), retryQueue);
    RecordCountsHistory(history, retryQueue, Expired);
  }

  /** Without that proviso the count can be wrong, which takes a length limit that no part of the
      system declares, an operator's policy for one: a single overflow after three expiries and
      the consumer believes the message has been retried once. */
  lemma OverflowResetsTheCount(q: string)
    ensures var expiry := Dying(q, Expired);
            var history := [expiry, expiry, expiry, Dying(q, MaxLength)];
            && Count(history, DyingAs(q, Expired)) == 3
            && Retries(HeaderOf(Record(history)), q) == 1
  {
    var expiry := Dying(q, Expired);
    var history := [expiry, expiry, expiry, Dying(q, MaxLength)];
    RetriesReadsLatestReason(history, q, 3);
    forall r: Reason ensures Count(history, DyingAs(q, r)) == (if r == Expired then 3 else 0) + if r == MaxLength then 1 else 0 {
      var p := DyingAs(q, r);
      CountSnoc([], expiry, p);
      CountSnoc([expiry], expiry, p);
      CountSnoc([expiry, expiry], expiry, p);
      CountSnoc([expiry, expiry, expiry], Dying(q, MaxLength), p);
      assert [] + [expiry] == [expiry] && [expiry] + [expiry] == [expiry, expiry];
      assert [expiry, expiry] + [expiry] == [expiry, expiry, expiry];
      assert [expiry, expiry, expiry] + [Dying(q, MaxLength)] == history;
    }
  }

  lemma OnlyExpiresStays(deaths: seq<Death>, queue: string, reason: Reason, q: string)
    requires OnlyExpiresIn(deaths, q) && (queue != q || reason == Expired)
    ensures OnlyExpiresIn(RecordDeath(deaths, queue, reason), q)
  {
    WithoutMembers(deaths, queue, reason);
    var after := RecordDeath(deaths, queue, reason);
    forall i | 0 <= i < |after| && after[i].queue == q ensures after[i].reason == Expired {
      if i > 0 {
        assert after[i] in Without(deaths, queue, reason);
        assert after[i] in deaths;
      }
    }
  }

  /** The step the retry machine takes on expiry: the count read goes up by exactly one. */
  lemma ExpiryAddsOneRetry(deaths: seq<Death>, retryQueue: string)
    requires OnlyExpiresIn(deaths, retryQueue)
    ensures OnlyExpiresIn(RecordDeath(deaths, retryQueue, Expired), retryQueue)
    ensures Retries(HeaderOf(RecordDeath(deaths, retryQueue, Expired)), retryQueue)
         == Retries(HeaderOf(deaths), retryQueue) + 1
  {
    OnlyExpiresStays(deaths, retryQueue, Expired, retryQueue);
    RetriesIgnoresOrder(deaths, retryQueue);
    RetriesIgnoresOrder(RecordDeath(deaths, retryQueue, Expired), retryQueue);
    RecordDeathCounts(deaths, retryQueue, Expired, retryQueue, Expired);
  }

  /** The step it takes on a rejection in another queue: the count read does not move. */
  lemma RejectionKeepsRetries(deaths: seq<Death>, queue: string, retryQueue: string)
    requires OnlyExpiresIn(deaths, retryQueue) && queue != retryQueue
    ensures OnlyExpiresIn(RecordDeath(deaths, queue, Rejected), retryQueue)
    ensures Retries(HeaderOf(RecordDeath(deaths, queue, Rejected)), retryQueue)
         == Retries(HeaderOf(deaths), retryQueue)
  {
    OnlyExpiresStays(deaths, queue, Rejected, retryQueue);
    RetriesIgnoresOrder(deaths, retryQueue);
    RetriesIgnoresOrder(RecordDeath(deaths, queue, Rejected), retryQueue);
    RecordDeathCounts(deaths, queue, Rejected, retryQueue, Expired);
  }
}
