/** Retries: how often a message is handled, what a parked message or a "failed" row proves
    about its past, and why the pipeline cannot run forever on its own. */
module PipelineRetries {
  import opened Counting
  import opened NotificationTable
  import opened Pipeline
  import opened PipelineSafety
  import XDeath

  /** The bound the code enforces; a negative setting behaves as zero. */
  function Limit(cfg: Config): nat {
    if cfg.maxRetries < 0 then 0 else cfg.maxRetries
  }

  // ----- The retry count -----

  ghost predicate CountedCopy(cfg: Config, x: Copy) {
    && XDeath.OnlyExpiresIn(x.deaths, Topology.RetryQueueName(cfg.queue))
    && 0 <= RetriesIn(cfg, x.deaths) <= Limit(cfg)
    && (x.place == Retry ==> RetriesIn(cfg, x.deaths) < cfg.maxRetries)
  }

  ghost predicate Counted(cfg: Config, s: State) {
    forall c :: 0 <= c < |s.copies| ==> CountedCopy(cfg, s.copies[c])
  }

  lemma QueueNamesDiffer(cfg: Config)
    ensures cfg.queue != Topology.RetryQueueName(cfg.queue)
  {
    assert |Topology.RetryQueueName(cfg.queue)| == |cfg.queue| + 6;
  }

  lemma NoDeathsNoRetries(cfg: Config)
    ensures XDeath.OnlyExpiresIn([], Topology.RetryQueueName(cfg.queue)) && RetriesIn(cfg, []) == 0
  {
    XDeath.RetriesReadsNewest([], Topology.RetryQueueName(cfg.queue));
  }

  lemma NackKeepsRetries(cfg: Config, deaths: seq<XDeath.Death>)
    requires XDeath.OnlyExpiresIn(deaths, Topology.RetryQueueName(cfg.queue))
    ensures var nacked := XDeath.RecordDeath(deaths, cfg.queue, XDeath.Rejected);
            XDeath.OnlyExpiresIn(nacked, Topology.RetryQueueName(cfg.queue)) && RetriesIn(cfg, nacked) == RetriesIn(cfg, deaths)
  {
    QueueNamesDiffer(cfg);
    XDeath.RejectionKeepsRetries(deaths, cfg.queue, Topology.RetryQueueName(cfg.queue));
  }

  lemma ExpiryAddsRetry(cfg: Config, deaths: seq<XDeath.Death>)
    requires XDeath.OnlyExpiresIn(deaths, Topology.RetryQueueName(cfg.queue))
    ensures var expired := XDeath.RecordDeath(deaths, Topology.RetryQueueName(cfg.queue), XDeath.Expired);
            && XDeath.OnlyExpiresIn(expired, Topology.RetryQueueName(cfg.queue))
            && RetriesIn(cfg, expired) == RetriesIn(cfg, deaths) + 1
  {
    XDeath.ExpiryAddsOneRetry(deaths, Topology.RetryQueueName(cfg.queue));
  }

  /** Only an expiry moves the retry count of a message, by one; a new message starts at zero. */
  lemma StepRetries(cfg: Config, s: State, st: Step)
    requires Linked(s) && Counted(cfg, s) && Enabled(cfg, s, st) && ChangeOf(cfg, s, st).copy.Put?
    ensures var copy := ChangeOf(cfg, s, st).copy;
            && copy.at <= |s.copies|
            && XDeath.OnlyExpiresIn(copy.value.deaths, Topology.RetryQueueName(cfg.queue))
            && RetriesIn(cfg, copy.value.deaths)
               == if copy.at == |s.copies| then 0 else RetriesIn(cfg, s.copies[copy.at].deaths) + One(st.Expire?)
  {
    hide Routed, Listening, RetriesIn, Topology.RetryQueueName, XDeath.OnlyExpiresIn, XDeath.RecordDeath, HasRow;
    var copy := ChangeOf(cfg, s, st).copy;
    NoDeathsNoRetries(cfg);
    if copy.at < |s.copies| {
      assert CountedCopy(cfg, s.copies[copy.at]);
      if st.Nack? {
        NackKeepsRetries(cfg, s.workers[st.w].deaths);
      } else if st.Expire? {
        ExpiryAddsRetry(cfg, s.copies[st.c].deaths);
      }
    }
  }

  lemma StepCounts(cfg: Config, s: State, st: Step)
    requires Linked(s) && Counted(cfg, s) && Enabled(cfg, s, st)
    ensures var ch := ChangeOf(cfg, s, st); ch.copy.Put? ==> CountedCopy(cfg, ch.copy.value)
  {
    hide RetriesIn, Routed, Listening, XDeath.RecordDeath, XDeath.OnlyExpiresIn, HasRow, Topology.RetryQueueName;
    var copy := ChangeOf(cfg, s, st).copy;
    if copy.Put? {
      StepRetries(cfg, s, st);
      if copy.at < |s.copies| {
        assert CountedCopy(cfg, s.copies[copy.at]);
      }
    }
  }

  lemma {:induction false} CountedAlways(cfg: Config, run: seq<Step>)
    ensures Counted(cfg, Exec(cfg, INIT, run))
  {
    hide ChangeOf;
    if run != [] {
      var s := Exec(cfg, INIT, run[..|run| - 1]);
      LinkedAlways(cfg, run[..|run| - 1]);
      CountedAlways(cfg, run[..|run| - 1]);
      if Enabled(cfg, s, run[|run| - 1]) {
        StepCounts(cfg, s, run[|run| - 1]);
      }
    }
  }

  /** The expiries of message c in the retry queue that a run takes. */
  ghost function Expiries(cfg: Config, run: seq<Step>, c: nat): nat {
    if run == [] then 0
    else
      var before, last := run[..|run| - 1], run[|run| - 1];
      Expiries(cfg, before, c) + One(last == Expire(c) && Enabled(cfg, Exec(cfg, INIT, before), last))
  }

  lemma ExpiriesStep(cfg: Config, s: State, st: Step, c: nat)
    requires Linked(s) && Counted(cfg, s) && Enabled(cfg, s, st) && c < |Apply(s, ChangeOf(cfg, s, st)).copies|
    ensures RetriesIn(cfg, Apply(s, ChangeOf(cfg, s, st)).copies[c].deaths)
         == (if c < |s.copies| then RetriesIn(cfg, s.copies[c].deaths) else 0) + One(st == Expire(c))
  {
    hide RetriesIn, Linked, Counted, Routed, Listening, RetriesLeft, HasRow, XDeath.RecordDeath, XDeath.OnlyExpiresIn;
    if ChangeOf(cfg, s, st).copy.Put? {
      StepRetries(cfg, s, st);
    }
  }

  lemma FewerCopies(s: State, s': State)
    requires Extends(s, s')
    ensures |s.copies| <= |s'.copies|
  {
  }

  lemma NotThere(cfg: Config, s: State, c: nat)
    requires c >= |s.copies|
    ensures !Enabled(cfg, s, Expire(c))
  {
  }

  lemma {:induction false} NoExpiryBeforeArrival(cfg: Config, run: seq<Step>, c: nat)
    requires c >= |Exec(cfg, INIT, run).copies|
    ensures Expiries(cfg, run, c) == 0
  {
    if run != [] {
      hide Enabled, Exec, Extends;
      var before, st := run[..|run| - 1], run[|run| - 1];
      HistoryIsAppendOnly(cfg, before, [st]);
      assert before + [st] == run;
      FewerCopies(Exec(cfg, INIT, before), Exec(cfg, INIT, run));
      NoExpiryBeforeArrival(cfg, before, c);
      NotThere(cfg, Exec(cfg, INIT, before), c);
    }
  }

  /** The promise of the retry count, over all runs: the number the consumer reads from a
      message's header is exactly how often that message has come back from the retry queue,
      whatever else happened to it and to all others. */
  lemma {:induction false} RetriesAreExpiries(cfg: Config, run: seq<Step>, c: nat)
    requires c < |Exec(cfg, INIT, run).copies|
    ensures RetriesIn(cfg, Exec(cfg, INIT, run).copies[c].deaths) == Expiries(cfg, run, c)
  {
    hide ChangeOf, RetriesIn, Enabled, Counted, Linked;
    var before, st := run[..|run| - 1], run[|run| - 1];
    var s := Exec(cfg, INIT, before);
    LinkedAlways(cfg, before);
    CountedAlways(cfg, before);
    if c < |s.copies| {
      RetriesAreExpiries(cfg, before, c);
    } else {
      NoExpiryBeforeArrival(cfg, before, c);
    }
    if Enabled(cfg, s, st) {
      ExpiriesStep(cfg, s, st, c);
    }
  }

  // ----- Handler calls per message -----

  ghost function OnCopy(c: nat): Worker -> bool { (x: Worker) => x.copy == c }
  ghost function RequeuedOf(c: nat): Entry -> bool { (x: Entry) => x == Requeued(c) }
  ghost function ReturnedFrom(c: nat): Entry -> bool { (x: Entry) => x.Returned? && x.c == c }

  /** Handler calls made for message c. */
  ghost function Calls(s: State, c: nat): nat { Count(s.workers, OnCopy(c)) }

  ghost function AtRest(x: Copy): nat { One(x.place == Main || x.place == Dlq) }

  ghost predicate CallsAddUp(cfg: Config, s: State, c: nat)
    requires c < |s.copies|
  {
    Calls(s, c) + AtRest(s.copies[c])
      == 1 + RetriesIn(cfg, s.copies[c].deaths) + Count(s.log, RequeuedOf(c)) + Count(s.log, ReturnedFrom(c))
  }

  ghost predicate AllCallsAddUp(cfg: Config, s: State) {
    && (forall c :: 0 <= c < |s.copies| ==> CallsAddUp(cfg, s, c))
    && (forall i :: 0 <= i < |s.log| && s.log[i].Requeued? ==> s.log[i].c < |s.copies|)
    && (forall i :: 0 <= i < |s.log| && s.log[i].Returned? ==> s.log[i].c < |s.copies|)
  }

  /** Who touched which message: a new call, a retry, a requeue and a redelivery each
      concern the one message the step moves. */
  ghost predicate CallChange(cfg: Config, s: State, ch: Change) {
    && (ch.worker.Put? && ch.worker.at == |s.workers| ==> ch.copy.Put? && ch.copy.at == ch.worker.value.copy < |s.copies|)
    && (ch.entry.Some? && ch.entry.value.Requeued? ==> ch.copy.Put? && ch.copy.at == ch.entry.value.c < |s.copies|)
    && (ch.entry.Some? && ch.entry.value.Returned? ==> ch.copy.Put? && ch.copy.at == ch.entry.value.c < |s.copies|)
    && (ch.copy.Put? && ch.copy.at < |s.copies| ==>
          One(ch.worker.Put? && ch.worker.at == |s.workers|) + AtRest(ch.copy.value) - AtRest(s.copies[ch.copy.at])
          == RetriesIn(cfg, ch.copy.value.deaths) - RetriesIn(cfg, s.copies[ch.copy.at].deaths)
             + One(ch.entry == Some(Requeued(ch.copy.at))) + One(ch.entry.Some? && ch.entry.value.Returned?))
    && (ch.copy.Put? && ch.copy.at == |s.copies| ==> RetriesIn(cfg, ch.copy.value.deaths) == 0)
  }

  lemma StepCalls(cfg: Config, s: State, st: Step)
    requires Linked(s) && Counted(cfg, s) && Enabled(cfg, s, st)
    ensures CallChange(cfg, s, ChangeOf(cfg, s, st))
  {
    hide RetriesIn, Routed, Listening, XDeath.RecordDeath, XDeath.OnlyExpiresIn, HasRow, Topology.RetryQueueName;
    if ChangeOf(cfg, s, st).copy.Put? {
      StepRetries(cfg, s, st);
    }
  }

  lemma CallsStep(cfg: Config, s: State, ch: Change, c: nat)
    requires Linked(s) && Lawful(s, ch) && AllCallsAddUp(cfg, s) && CallChange(cfg, s, ch)
    requires c < |s.copies|
    ensures CallsAddUp(cfg, Apply(s, ch), c)
  {
    hide RetriesIn;
    assert CallsAddUp(cfg, s, c);
    CountEdited(s.workers, ch.worker, OnCopy(c));
    CountExtended(s.log, ch.entry, RequeuedOf(c));
    CountExtended(s.log, ch.entry, ReturnedFrom(c));
  }

  lemma NewMessageHasNoCalls(cfg: Config, s: State, ch: Change, c: nat)
    requires Linked(s) && Lawful(s, ch) && AllCallsAddUp(cfg, s) && CallChange(cfg, s, ch)
    requires |s.copies| <= c < |Apply(s, ch).copies|
    ensures CallsAddUp(cfg, Apply(s, ch), c)
  {
    var s' := Apply(s, ch);
    assert forall i :: 0 <= i < |s.workers| ==> LinkedWorker(s, s.workers[i]);
    assert |s'.workers| == |s.workers|;
    CountZero(s'.workers, OnCopy(c));
    CountZero(s'.log, RequeuedOf(c));
    CountZero(s'.log, ReturnedFrom(c));
  }

  lemma {:induction false} CallsAlwaysAddUp(cfg: Config, run: seq<Step>)
    ensures AllCallsAddUp(cfg, Exec(cfg, INIT, run))
  {
    hide ChangeOf;
    if run != [] {
      var s := Exec(cfg, INIT, run[..|run| - 1]);
      LinkedAlways(cfg, run[..|run| - 1]);
      CountedAlways(cfg, run[..|run| - 1]);
      CallsAlwaysAddUp(cfg, run[..|run| - 1]);
      if Enabled(cfg, s, run[|run| - 1]) {
        var ch := ChangeOf(cfg, s, run[|run| - 1]);
        StepIsLawful(cfg, s, run[|run| - 1]);
        StepCalls(cfg, s, run[|run| - 1]);
        forall c | 0 <= c < |Apply(s, ch).copies| ensures CallsAddUp(cfg, Apply(s, ch), c) {
          if c < |s.copies| {
            CallsStep(cfg, s, ch, c);
          } else {
            NewMessageHasNoCalls(cfg, s, ch, c);
          }
        }
      }
    }
  }

  /** A message is handled at most max(0, maxRetries) + 1 times, plus once per requeue after
      a failed park and once per redelivery of an unacked message. */
  lemma {:induction false} HandlerCallBound(cfg: Config, run: seq<Step>, c: nat)
    requires c < |Exec(cfg, INIT, run).copies|
    ensures var s := Exec(cfg, INIT, run);
            Calls(s, c) <= Limit(cfg) + 1 + Count(s.log, RequeuedOf(c)) + Count(s.log, ReturnedFrom(c))
  {
    CallsAlwaysAddUp(cfg, run);
    CountedAlways(cfg, run);
    var s := Exec(cfg, INIT, run);
    assert CallsAddUp(cfg, s, c) && CountedCopy(cfg, s.copies[c]);
  }

  // ----- Failing calls behind parked messages and failed rows -----

  ghost function FailedOn(c: nat): Worker -> bool { (x: Worker) => x.copy == c && x.failed }

  /** Failing calls for message c among the first n calls of the run. */
  ghost function FailsUpTo(s: State, c: nat, n: nat): nat
    requires n <= |s.workers|
  {
    Count(s.workers[..n], FailedOn(c))
  }

  ghost function Fails(s: State, c: nat): nat { Count(s.workers, FailedOn(c)) }

  predicate GaveUp(pc: PC) { pc.Exhausted? || pc == Parking || pc == Parked || pc == ParkFailed }

  ghost predicate FailureFlags(cfg: Config, x: Worker) {
    && (x.pc.FailedCall? || GaveUp(x.pc) ==> x.failed)
    && (x.pc == Handling || x.pc == Sending || x.pc == Recording || x.pc == Succeeded ==> !x.failed)
    && (GaveUp(x.pc) ==> RetriesIn(cfg, x.deaths) >= cfg.maxRetries)
  }

  /** A call knows of one failed call per retry it sees, and gives up only without retries left. */
  ghost predicate Seasoned(cfg: Config, s: State, w: nat)
    requires w < |s.workers|
  {
    var x := s.workers[w];
    && RetriesIn(cfg, x.deaths) <= FailsUpTo(s, x.copy, w)
    && FailureFlags(cfg, x)
  }

  ghost predicate TriedEnough(cfg: Config, s: State, e: EventId) {
    exists c :: 0 <= c < |s.copies| && Carries(s.copies[c].body, e) && Fails(s, c) >= Limit(cfg) + 1
  }

  ghost predicate FailuresBehind(cfg: Config, s: State) {
    && (forall w :: 0 <= w < |s.workers| ==> Seasoned(cfg, s, w))
    && (forall c :: 0 <= c < |s.copies| ==>
          RetriesIn(cfg, s.copies[c].deaths) + One(s.copies[c].place == Retry) <= Fails(s, c))
    && (forall i :: 0 <= i < |s.rows| && s.rows[i].status != Sent ==> TriedEnough(cfg, s, s.rows[i].eventId))
    && (forall c :: 0 <= c < |s.copies| && s.copies[c].place == Dlq && s.copies[c].body.Event? ==>
          TriedEnough(cfg, s, s.copies[c].body.env.eventId))
  }

  lemma FailsGrow(s: State, ch: Change, c: nat, n: nat)
    requires Lawful(s, ch) && n <= |s.workers|
    ensures |s.workers| <= |Apply(s, ch).workers|
    ensures FailsUpTo(s, c, n) <= FailsUpTo(Apply(s, ch), c, n)
    ensures Fails(s, c) <= Fails(Apply(s, ch), c)
    ensures ch.worker.Put? && n <= ch.worker.at ==> Apply(s, ch).workers[..n] == s.workers[..n]
  {
    var s' := Apply(s, ch);
    CountEdited(s.workers, ch.worker, FailedOn(c));
    if ch.worker.Put? && ch.worker.at < n {
      assert s'.workers[..n] == s.workers[..n][ch.worker.at := ch.worker.value];
      CountUpdate(s.workers[..n], ch.worker.at, ch.worker.value, FailedOn(c));
    } else {
      assert s'.workers[..n] == s.workers[..n];
    }
  }

  lemma FailsPrefix(s: State, w: nat, c: nat)
    requires w < |s.workers|
    ensures FailsUpTo(s, c, w) + One(FailedOn(c)(s.workers[w])) <= Fails(s, c)
  {
    assert s.workers == s.workers[..w] + ([s.workers[w]] + s.workers[w + 1..]);
    CountSplit(s.workers[..w], [s.workers[w]] + s.workers[w + 1..], FailedOn(c));
    CountSplit([s.workers[w]], s.workers[w + 1..], FailedOn(c));
    assert [s.workers[w]] == [] + [s.workers[w]];
    CountSnoc([], s.workers[w], FailedOn(c));
  }

  /** A call that has given up proves enough failures on its message. */
  lemma GaveUpMeansTried(cfg: Config, s: State, w: nat)
    requires Linked(s) && Counted(cfg, s) && FailuresBehind(cfg, s)
    requires w < |s.workers| && GaveUp(s.workers[w].pc) && s.workers[w].body.Event?
    ensures TriedEnough(cfg, s, s.workers[w].body.env.eventId)
  {
    var c := s.workers[w].copy;
    assert Seasoned(cfg, s, w) && LinkedWorker(s, s.workers[w]);
    FailsPrefix(s, w, c);
    assert Fails(s, c) >= Limit(cfg) + 1;
    assert Carries(s.copies[c].body, s.workers[w].body.env.eventId);
  }

  ghost predicate FailuresCover(cfg: Config, s: State, c: nat, x: Copy) {
    if c < |s.copies| then RetriesIn(cfg, x.deaths) + One(x.place == Retry) <= Fails(s, c)
    else RetriesIn(cfg, x.deaths) == 0 && x.place != Retry
  }

  ghost predicate WriteOffChange(cfg: Config, s: State, ch: Change) {
    && (ch.row.Some? && ch.row.value.status != Sent ==> TriedEnough(cfg, s, ch.row.value.eventId))
    && (ch.copy.Put? && ch.copy.value.place == Dlq && ch.copy.value.body.Event? ==>
          TriedEnough(cfg, s, ch.copy.value.body.env.eventId))
  }

  ghost predicate FailureChange(cfg: Config, s: State, ch: Change) {
    && (ch.worker.Put? ==> FailureFlags(cfg, ch.worker.value))
    && (ch.copy.Put? ==> FailuresCover(cfg, s, ch.copy.at, ch.copy.value))
    && WriteOffChange(cfg, s, ch)
  }

  lemma StepFlags(cfg: Config, s: State, st: Step)
    requires FailuresBehind(cfg, s) && Enabled(cfg, s, st) && ChangeOf(cfg, s, st).worker.Put?
    ensures FailureFlags(cfg, ChangeOf(cfg, s, st).worker.value)
  {
    hide Routed, Listening, XDeath.RecordDeath, Carries, HasRow;
    hide RetriesIn;
    hide FailsUpTo;
    var w := ChangeOf(cfg, s, st).worker.at;
    if w < |s.workers| {
      assert Seasoned(cfg, s, w);
    }
  }

  lemma NackCovers(cfg: Config, s: State, st: Step)
    requires Linked(s) && Counted(cfg, s) && FailuresBehind(cfg, s) && Enabled(cfg, s, st) && st.Nack?
    requires ChangeOf(cfg, s, st).copy.Put?
    ensures var copy := ChangeOf(cfg, s, st).copy; FailuresCover(cfg, s, copy.at, copy.value)
  {
    hide RetriesIn, RetriesLeft, Topology.RetryQueueName, XDeath.RecordDeath, XDeath.OnlyExpiresIn;
    StepRetries(cfg, s, st);
    assert Seasoned(cfg, s, st.w);
    FailsPrefix(s, st.w, s.workers[st.w].copy);
  }

  lemma OtherCovers(cfg: Config, s: State, st: Step)
    requires Linked(s) && Counted(cfg, s) && FailuresBehind(cfg, s) && Enabled(cfg, s, st) && !st.Nack?
    requires ChangeOf(cfg, s, st).copy.Put?
    ensures var copy := ChangeOf(cfg, s, st).copy; FailuresCover(cfg, s, copy.at, copy.value)
  {
    hide RetriesIn, RetriesLeft, Topology.RetryQueueName, XDeath.RecordDeath, XDeath.OnlyExpiresIn, Routed, Listening, HasRow,
         Seasoned, TriedEnough, Fails;
    StepRetries(cfg, s, st);
  }

  lemma StepCovers(cfg: Config, s: State, st: Step)
    requires Linked(s) && Counted(cfg, s) && FailuresBehind(cfg, s) && Enabled(cfg, s, st)
    requires ChangeOf(cfg, s, st).copy.Put?
    ensures var copy := ChangeOf(cfg, s, st).copy; FailuresCover(cfg, s, copy.at, copy.value)
  {
    hide Linked, Counted, FailuresBehind, Enabled, ChangeOf, FailuresCover;
    if st.Nack? {
      NackCovers(cfg, s, st);
    } else {
      OtherCovers(cfg, s, st);
    }
  }

  lemma OnlyGivenUpCallsWriteOff(cfg: Config, s: State, st: Step)
    requires Enabled(cfg, s, st)
    ensures var ch := ChangeOf(cfg, s, st);
            && (ch.row.Some? && ch.row.value.status != Sent ==>
                  st.RecordFailure? && ch.row.value.eventId == s.workers[st.w].body.env.eventId)
            && (ch.copy.Put? && ch.copy.value.place == Dlq ==> st.Park? && ch.copy.value.body == s.workers[st.w].body)
  {
  }

  lemma StepWritesOff(cfg: Config, s: State, st: Step)
    requires Linked(s) && Counted(cfg, s) && FailuresBehind(cfg, s) && Enabled(cfg, s, st)
    ensures WriteOffChange(cfg, s, ChangeOf(cfg, s, st))
  {
    hide ChangeOf;
    OnlyGivenUpCallsWriteOff(cfg, s, st);
    if st.RecordFailure? || st.Park? {
      GaveUpMeansTried(cfg, s, st.w);
    }
  }

  lemma StepFails(cfg: Config, s: State, st: Step)
    requires Linked(s) && Counted(cfg, s) && FailuresBehind(cfg, s) && Enabled(cfg, s, st)
    ensures FailureChange(cfg, s, ChangeOf(cfg, s, st))
  {
    if ChangeOf(cfg, s, st).worker.Put? {
      StepFlags(cfg, s, st);
    }
    if ChangeOf(cfg, s, st).copy.Put? {
      StepCovers(cfg, s, st);
    }
    StepWritesOff(cfg, s, st);
  }

  lemma TriedStays(cfg: Config, s: State, ch: Change, e: EventId)
    requires Lawful(s, ch) && TriedEnough(cfg, s, e)
    ensures TriedEnough(cfg, Apply(s, ch), e)
  {
    var c :| 0 <= c < |s.copies| && Carries(s.copies[c].body, e) && Fails(s, c) >= Limit(cfg) + 1;
    FailsGrow(s, ch, c, 0);
    assert Carries(Apply(s, ch).copies[c].body, e);
  }

  lemma SeasonedStep(cfg: Config, s: State, ch: Change, w: nat)
    requires Lawful(s, ch) && FailuresBehind(cfg, s) && FailureChange(cfg, s, ch)
    requires w < |Apply(s, ch).workers|
    ensures Seasoned(cfg, Apply(s, ch), w)
  {
    var s' := Apply(s, ch);
    var c := s'.workers[w].copy;
    if w < |s.workers| {
      assert Seasoned(cfg, s, w);
      FailsGrow(s, ch, c, w);
    } else {
      FailsGrow(s, ch, c, |s.workers|);
      assert s.workers[..|s.workers|] == s.workers;
    }
  }

  lemma FailuresStep(cfg: Config, s: State, ch: Change)
    requires Linked(s) && Lawful(s, ch) && FailuresBehind(cfg, s) && FailureChange(cfg, s, ch)
    ensures FailuresBehind(cfg, Apply(s, ch))
  {
    hide RetriesIn;
    hide Seasoned;
    hide TriedEnough;
    var s' := Apply(s, ch);
    forall w | 0 <= w < |s'.workers| ensures Seasoned(cfg, s', w) {
      SeasonedStep(cfg, s, ch, w);
    }
    forall c | 0 <= c < |s'.copies|
      ensures RetriesIn(cfg, s'.copies[c].deaths) + One(s'.copies[c].place == Retry) <= Fails(s', c)
    {
      FailsGrow(s, ch, c, 0);
    }
    forall e | TriedEnough(cfg, s, e) ensures TriedEnough(cfg, s', e) {
      TriedStays(cfg, s, ch, e);
    }
  }

  lemma {:induction false} FailuresAlwaysBehind(cfg: Config, run: seq<Step>)
    ensures FailuresBehind(cfg, Exec(cfg, INIT, run))
  {
    hide ChangeOf;
    if run != [] {
      var s := Exec(cfg, INIT, run[..|run| - 1]);
      LinkedAlways(cfg, run[..|run| - 1]);
      CountedAlways(cfg, run[..|run| - 1]);
      FailuresAlwaysBehind(cfg, run[..|run| - 1]);
      if Enabled(cfg, s, run[|run| - 1]) {
        StepIsLawful(cfg, s, run[|run| - 1]);
        StepFails(cfg, s, run[|run| - 1]);
        FailuresStep(cfg, s, ChangeOf(cfg, s, run[|run| - 1]));
      }
    }
  }

  /** Nothing is written off early: behind every "failed" row and every parked event there is
      one message for that event with at least max(0, maxRetries) + 1 failed handler calls,
      and an event with a "failed" row has no "sent" row. */
  lemma {:induction false} NothingIsWrittenOffEarly(cfg: Config, run: seq<Step>, e: EventId)
    requires var s := Exec(cfg, INIT, run);
             || (exists i :: 0 <= i < |s.rows| && s.rows[i].eventId == e && s.rows[i].status != Sent)
             || InDlq(s, e)
    ensures TriedEnough(cfg, Exec(cfg, INIT, run), e)
    ensures var rows := Exec(cfg, INIT, run).rows;
            forall i, j :: (0 <= i < |rows| && 0 <= j < |rows| && rows[i].eventId == rows[j].eventId == e
                            && rows[i].status != Sent) ==> rows[j].status != Sent
  {
    FailuresAlwaysBehind(cfg, run);
    AtMostOneRowPerEvent(cfg, run);
  }
}
