/** Runs the comments in the code rule out, built for every configuration: what the pipeline's
    guarantees stop short of. */
module PipelineCases {
  import opened Counting
  import opened NotificationTable
  import opened Pipeline
  import opened PipelineSafety
  import opened PipelineMail
  import opened PipelineRetries
  import XDeath

  // ----- One message, one step at a time -----

  /** The only message, waiting in `place`, outside any handler call. */
  ghost predicate Queued(cfg: Config, s: State, place: Place, body: Body, deaths: seq<XDeath.Death>, rows: seq<Row>) {
    && Listening(cfg, s)
    && |s.copies| == 1 && s.copies[0] == Copy(body, deaths, place) && s.rows == rows
    && body.Event? && body.env.payload.Decodes?
  }

  /** The only message, in the hands of call w. */
  ghost predicate Now(cfg: Config, s: State, w: nat, body: Body, deaths: seq<XDeath.Death>, pc: PC, rows: seq<Row>) {
    && Queued(cfg, s, Unacked(w), body, deaths, rows)
    && |s.workers| == w + 1 && s.workers[w].copy == 0 && s.workers[w].body == body && s.workers[w].deaths == deaths
    && s.workers[w].pc == pc
  }

  lemma Delivering(cfg: Config, s: State, body: Body, deaths: seq<XDeath.Death>)
    requires Queued(cfg, s, Main, body, deaths, s.rows)
    ensures var s' := Do(cfg, s, Deliver(0));
            Now(cfg, s', |s.workers|, body, deaths, Handling, s.rows) && s'.log == s.log && s'.minted == s.minted
  {
  }

  lemma CheckErring(cfg: Config, s: State, w: nat, body: Body, deaths: seq<XDeath.Death>)
    requires Now(cfg, s, w, body, deaths, Handling, s.rows)
    ensures var s' := Do(cfg, s, Check(w, true));
            Now(cfg, s', w, body, deaths, FailedCall(CheckFailed), s.rows) && s'.log == s.log
  {
  }

  lemma CheckMissing(cfg: Config, s: State, w: nat, body: Body, deaths: seq<XDeath.Death>)
    requires Now(cfg, s, w, body, deaths, Handling, [])
    ensures var s' := Do(cfg, s, Check(w, false));
            && Now(cfg, s', w, body, deaths, Sending, []) && s'.minted == s.minted
            && s'.log == s.log + [Miss(w, body.env.eventId)]
  {
  }

  lemma CheckFinding(cfg: Config, s: State, w: nat, body: Body, deaths: seq<XDeath.Death>)
    requires Now(cfg, s, w, body, deaths, Handling, s.rows) && HasRow(s.rows, body.env.eventId)
    ensures var s' := Do(cfg, s, Check(w, false));
            Now(cfg, s', w, body, deaths, Succeeded, s.rows) && s'.log == s.log
  {
  }

  lemma Mailing(cfg: Config, s: State, w: nat, body: Body, deaths: seq<XDeath.Death>)
    requires Now(cfg, s, w, body, deaths, Sending, [])
    ensures var s' := Do(cfg, s, Send(w, Delivered));
            && Now(cfg, s', w, body, deaths, Recording, []) && s'.minted == s.minted
            && s'.log == s.log + [Mail(w, body.env.eventId, EmailOf(body), true)]
  {
  }

  lemma LosingInsert(cfg: Config, s: State, w: nat, body: Body, deaths: seq<XDeath.Death>)
    requires Now(cfg, s, w, body, deaths, Recording, [])
    ensures var s' := Do(cfg, s, Record(w, LostBeforeCommit));
            && Now(cfg, s', w, body, deaths, FailedCall(InsertFailed), [])
            && s'.log == s.log + [LostInsert(w, body.env.eventId)]
  {
  }

  lemma GivingUp(cfg: Config, s: State, w: nat, body: Body, deaths: seq<XDeath.Death>, why: Failure)
    requires Now(cfg, s, w, body, deaths, FailedCall(why), []) && RetriesIn(cfg, deaths) >= cfg.maxRetries
    ensures var s' := Do(cfg, s, GiveUp(w)); Now(cfg, s', w, body, deaths, Exhausted(why), []) && s'.log == s.log
  {
    hide RetriesIn;
  }

  lemma Auditing(cfg: Config, s: State, w: nat, body: Body, deaths: seq<XDeath.Death>, why: Failure)
    requires Now(cfg, s, w, body, deaths, Exhausted(why), [])
    ensures var s' := Do(cfg, s, RecordFailure(w, NoFault));
            && Now(cfg, s', w, body, deaths, Parking, [FailedRow(body, why)])
            && s'.log == s.log + [Wrote(w, body.env.eventId, Failed(why))]
  {
  }

  lemma FailingToPark(cfg: Config, s: State, w: nat, body: Body, deaths: seq<XDeath.Death>)
    requires Now(cfg, s, w, body, deaths, Parking, s.rows)
    ensures var s' := Do(cfg, s, Park(w, PublishError));
            && Now(cfg, s', w, body, deaths, ParkFailed, s.rows)
            && s'.log == s.log + [ParkTried(body.env.eventId, PublishError)]
  {
  }

  lemma Requeueing(cfg: Config, s: State, w: nat, body: Body, deaths: seq<XDeath.Death>)
    requires Now(cfg, s, w, body, deaths, ParkFailed, s.rows)
    ensures var s' := Do(cfg, s, Requeue(w, true));
            Queued(cfg, s', Main, body, deaths, s.rows) && s'.log == s.log + [Requeued(0)]
  {
  }

  lemma Acking(cfg: Config, s: State, w: nat, body: Body, deaths: seq<XDeath.Death>)
    requires Now(cfg, s, w, body, deaths, Succeeded, s.rows)
    ensures var s' := Do(cfg, s, Ack(w, true)); Queued(cfg, s', Acked, body, deaths, s.rows) && s'.log == s.log
  {
  }

  lemma Disconnecting(cfg: Config, s: State, w: nat, body: Body, deaths: seq<XDeath.Death>, pc: PC)
    requires Now(cfg, s, w, body, deaths, pc, s.rows)
    ensures var s' := Do(cfg, s, LoseConnection(0));
            Queued(cfg, s', Main, body, deaths, s.rows) && s'.log == s.log + [Returned(0, body)] && s'.minted == s.minted
  {
  }

  lemma Nacking(cfg: Config, s: State, w: nat, body: Body, deaths: seq<XDeath.Death>, why: Failure)
    requires Now(cfg, s, w, body, deaths, FailedCall(why), []) && RetriesIn(cfg, deaths) < cfg.maxRetries
    ensures var s' := Do(cfg, s, Nack(w, true));
            Queued(cfg, s', Retry, body, XDeath.RecordDeath(deaths, cfg.queue, XDeath.Rejected), []) && s'.log == s.log
  {
    hide RetriesIn;
  }

  lemma Expiring(cfg: Config, s: State, body: Body, deaths: seq<XDeath.Death>)
    requires Queued(cfg, s, Retry, body, deaths, [])
    ensures var s' := Do(cfg, s, Expire(0));
            && Queued(cfg, s', Main, body, XDeath.RecordDeath(deaths, Topology.RetryQueueName(cfg.queue), XDeath.Expired), [])
            && s'.log == s.log
  {
  }

  lemma Then(cfg: Config, run: seq<Step>, st: Step) returns (run': seq<Step>, s': State)
    ensures run' == run + [st]
    ensures s' == Do(cfg, Exec(cfg, INIT, run), st) && s' == Exec(cfg, INIT, run')
  {
    run' := run + [st];
    s' := Do(cfg, Exec(cfg, INIT, run), st);
    ExecSnoc(cfg, INIT, run, st);
  }

  /** The consumer can start, and its key selects the user service's events. */
  predicate Workable(cfg: Config) {
    Topology.Milliseconds(cfg.retryTTL) >= 0 && Topology.Selects(cfg.routingKey, USER_CREATED)
  }

  /** Every configuration whose routing key is the event type itself, as the service sets it, is
      workable. */
  lemma EventTypeKeyIsWorkable(cfg: Config)
    requires cfg.routingKey == "user.created" && cfg.retryTTL >= 0
    ensures Workable(cfg)
  {
    Topology.MatchesItself(Topology.Words(USER_CREATED));
  }

  lemma DeclaringFromScratch(cfg: Config)
    requires Workable(cfg)
    ensures var s := Do(cfg, INIT, DeclareTopology(0));
            && s == INIT.(wiring := s.wiring) && Listening(cfg, s)
            && cfg.exchange in s.wiring.exchanges && Routed(cfg, s, USER_CREATED)
  {
    Topology.NamesDiffer(cfg.queue);
    Topology.DeclaredAll(INIT.wiring, SpecOf(cfg));
    assert Topology.Reached(INIT.wiring, SpecOf(cfg), 0) == 7;
    var w := Topology.WiringAfter(INIT.wiring, SpecOf(cfg));
    assert Topology.Binding(cfg.exchange, cfg.routingKey, cfg.queue) in w.bindings;
  }

  lemma ExecNothing(cfg: Config)
    ensures Exec(cfg, INIT, []) == INIT
  {
  }

  lemma Committing(cfg: Config, s: State, user: Payload)
    requires s == INIT.(wiring := s.wiring)
    ensures Do(cfg, s, CommitUser(user)) == s.(commits := [Commit(user, false)])
  {
    assert [] + [Commit(user, false)] == [Commit(user, false)];
  }

  lemma Publishing(cfg: Config, s: State, body: Body)
    requires body.Event? && body.env.eventType == USER_CREATED && body.env.payload.Decodes?
    requires s == INIT.(wiring := s.wiring, commits := [Commit(body.env.payload.payload, false)])
    requires Listening(cfg, s) && cfg.exchange in s.wiring.exchanges && Routed(cfg, s, USER_CREATED)
    ensures var s' := Do(cfg, s, Publish(0, body.env.eventId, true, true));
            Queued(cfg, s', Main, body, [], []) && s'.log == [Accepted(body.env.eventId)] && body.env.eventId in s'.minted
  {
  }

  lemma PublishOne(cfg: Config, body: Body) returns (run: seq<Step>)
    requires Workable(cfg) && body.Event? && body.env.eventType == USER_CREATED && body.env.payload.Decodes?
    ensures var s := Exec(cfg, INIT, run);
            Queued(cfg, s, Main, body, [], []) && s.log == [Accepted(body.env.eventId)] && body.env.eventId in s.minted
  {
    ExecNothing(cfg);
    hide Listening, Routed, Exec, Do;
    DeclaringFromScratch(cfg);
    var s: State;
    run, s := Then(cfg, [], DeclareTopology(0));
    Committing(cfg, s, body.env.payload.payload);
    run, s := Then(cfg, run, CommitUser(body.env.payload.payload));
    Publishing(cfg, s, body);
    run, s := Then(cfg, run, Publish(0, body.env.eventId, true, true));
  }

  // ----- Retried to exhaustion, recorded, and gone -----

  /** The message has been retried n times; nothing has been sent or recorded. */
  ghost predicate Retried(cfg: Config, s: State, body: Body, n: nat) {
    && |s.copies| == 1 && Queued(cfg, s, Main, body, s.copies[0].deaths, [])
    && XDeath.OnlyExpiresIn(s.copies[0].deaths, Topology.RetryQueueName(cfg.queue))
    && RetriesIn(cfg, s.copies[0].deaths) == n
    && s.log == [Accepted(body.env.eventId)]
  }

  lemma RetryAccounting(cfg: Config, deaths: seq<XDeath.Death>)
    requires XDeath.OnlyExpiresIn(deaths, Topology.RetryQueueName(cfg.queue))
    ensures var nacked := XDeath.RecordDeath(deaths, cfg.queue, XDeath.Rejected);
            var expired := XDeath.RecordDeath(nacked, Topology.RetryQueueName(cfg.queue), XDeath.Expired);
            && XDeath.OnlyExpiresIn(expired, Topology.RetryQueueName(cfg.queue))
            && RetriesIn(cfg, expired) == RetriesIn(cfg, deaths) + 1
  {
    NackKeepsRetries(cfg, deaths);
    ExpiryAddsRetry(cfg, XDeath.RecordDeath(deaths, cfg.queue, XDeath.Rejected));
  }

  /** One failed attempt and one trip through the retry queue. */
  lemma RetryOnce(cfg: Config, run0: seq<Step>, body: Body, n: nat) returns (run: seq<Step>)
    requires Retried(cfg, Exec(cfg, INIT, run0), body, n) && n < Limit(cfg)
    ensures Retried(cfg, Exec(cfg, INIT, run), body, n + 1)
  {
    hide Do, Exec, Listening, RetriesIn, XDeath.RecordDeath, XDeath.OnlyExpiresIn;
    var s := Exec(cfg, INIT, run0);
    var w := |s.workers|;
    var deaths := s.copies[0].deaths;
    Delivering(cfg, s, body, deaths);
    run, s := Then(cfg, run0, Deliver(0));
    CheckErring(cfg, s, w, body, deaths);
    run, s := Then(cfg, run, Check(w, true));
    Nacking(cfg, s, w, body, deaths, CheckFailed);
    run, s := Then(cfg, run, Nack(w, true));
    var nacked := s.copies[0].deaths;
    RetryAccounting(cfg, deaths);
    Expiring(cfg, s, body, nacked);
    run, s := Then(cfg, run, Expire(0));
  }

  lemma {:induction false} RetryTimes(cfg: Config, body: Body, n: nat) returns (run: seq<Step>)
    requires Workable(cfg) && body.Event? && body.env.eventType == USER_CREATED && body.env.payload.Decodes?
    requires n <= Limit(cfg)
    ensures Retried(cfg, Exec(cfg, INIT, run), body, n)
  {
    hide Do, Exec, Listening, Workable;
    if n == 0 {
      run := PublishOne(cfg, body);
      XDeath.RetriesReadsNewest([], Topology.RetryQueueName(cfg.queue));
    } else {
      run := RetryTimes(cfg, body, n - 1);
      run := RetryOnce(cfg, run, body, n - 1);
    }
  }

  /** One publish to the DLQ was tried, for e, and it failed. */
  ghost predicate OnlyFailedPark(s: State, e: EventId) {
    && ParkTried(e, PublishError) in s.log
    && forall x :: x in s.log && x.ParkTried? ==> x == ParkTried(e, PublishError)
  }

  lemma OneMail(log: seq<Entry>, i: nat, e: EventId)
    requires i < |log| && MailOf(e)(log[i])
    requires forall j :: 0 <= j < |log| && j != i ==> !MailOf(e)(log[j])
    ensures Count(log, MailOf(e)) == 1
  {
    CountPositive(log, i, MailOf(e));
    CountAtMostOne(log, MailOf(e));
  }

  /** The last attempt: the e-mail goes out, its insert is lost, retries are exhausted, the
      audit row is written, the park publish fails, and the message is requeued. */
  lemma LastAttempt(cfg: Config, run0: seq<Step>, body: Body) returns (run: seq<Step>)
    requires Retried(cfg, Exec(cfg, INIT, run0), body, Limit(cfg))
    ensures var s := Exec(cfg, INIT, run);
            && |s.copies| == 1 && Queued(cfg, s, Main, body, s.copies[0].deaths, [FailedRow(body, InsertFailed)])
            && Mails(s, body.env.eventId) == 1 && OnlyFailedPark(s, body.env.eventId)
  {
    hide Do, Exec, Listening, Workable;
    hide RetriesIn;
    var e := body.env.eventId;
    var s := Exec(cfg, INIT, run0);
    var w := |s.workers|;
    var deaths := s.copies[0].deaths;
    Delivering(cfg, s, body, deaths);
    run, s := Then(cfg, run0, Deliver(0));
    CheckMissing(cfg, s, w, body, deaths);
    run, s := Then(cfg, run, Check(w, false));
    Mailing(cfg, s, w, body, deaths);
    run, s := Then(cfg, run, Send(w, Delivered));
    LosingInsert(cfg, s, w, body, deaths);
    run, s := Then(cfg, run, Record(w, LostBeforeCommit));
    GivingUp(cfg, s, w, body, deaths, InsertFailed);
    run, s := Then(cfg, run, GiveUp(w));
    Auditing(cfg, s, w, body, deaths, InsertFailed);
    run, s := Then(cfg, run, RecordFailure(w, NoFault));
    FailingToPark(cfg, s, w, body, deaths);
    run, s := Then(cfg, run, Park(w, PublishError));
    Requeueing(cfg, s, w, body, deaths);
    run, s := Then(cfg, run, Requeue(w, true));
    assert s.log == [Accepted(e), Miss(w, e), Mail(w, e, EmailOf(body), true), LostInsert(w, e),
                     Wrote(w, e, Failed(InsertFailed)), ParkTried(e, PublishError), Requeued(0)];
    OneMail(s.log, 2, e);
  }

  /** For every workable configuration and every published user event there is a run after which the
      event's only message is acked, its row says "failed", nothing is in the DLQ, the one park
      that was tried failed, and yet an e-mail went out: a permanently failing message need not end
      up in the DLQ, and a "failed" row does not mean that no e-mail was ever sent. */
  lemma FailedRowWithMailAndWithoutDlq(cfg: Config, body: Body) returns (run: seq<Step>)
    requires Workable(cfg) && body.Event? && body.env.eventType == USER_CREATED && body.env.payload.Decodes?
    ensures var s := Exec(cfg, INIT, run);
            && |s.copies| == 1 && s.copies[0].body == body && s.copies[0].place == Acked
            && s.rows == [FailedRow(body, InsertFailed)]
            && !InDlq(s, body.env.eventId)
            && Mails(s, body.env.eventId) == 1
            && OnlyFailedPark(s, body.env.eventId)
  {
    hide Do, Exec, Listening, Workable;
    hide RetriesIn;
    run := RetryTimes(cfg, body, Limit(cfg));
    run := LastAttempt(cfg, run, body);
    var s := Exec(cfg, INIT, run);
    var w := |s.workers|;
    var deaths := s.copies[0].deaths;
    assert s.rows[0].eventId == body.env.eventId;
    Delivering(cfg, s, body, deaths);
    run, s := Then(cfg, run, Deliver(0));
    CheckFinding(cfg, s, w, body, deaths);
    run, s := Then(cfg, run, Check(w, false));
    Acking(cfg, s, w, body, deaths);
    run, s := Then(cfg, run, Ack(w, true));
  }

  lemma KeepsCalls(cfg: Config, s: State)
    ensures Do(cfg, s, LoseConnection(0)).workers == s.workers
  {
    hide Listening, Routed, RetriesIn;
  }

  /** The other way out: the connection is lost between the audit row and the park. */
  lemma AuditedThenRedelivered(cfg: Config, run0: seq<Step>, body: Body) returns (run: seq<Step>)
    requires Retried(cfg, Exec(cfg, INIT, run0), body, Limit(cfg))
    ensures var s := Exec(cfg, INIT, run);
            && |s.copies| == 1 && Queued(cfg, s, Main, body, s.copies[0].deaths, [FailedRow(body, CheckFailed)])
            && |s.workers| > 0
            && s.log == [Accepted(body.env.eventId), Wrote(|s.workers| - 1, body.env.eventId, Failed(CheckFailed)),
                         Returned(0, body)]
  {
    hide Do, Exec, Listening, Workable, RetriesIn;
    var s := Exec(cfg, INIT, run0);
    var w := |s.workers|;
    var deaths := s.copies[0].deaths;
    Delivering(cfg, s, body, deaths);
    run, s := Then(cfg, run0, Deliver(0));
    CheckErring(cfg, s, w, body, deaths);
    run, s := Then(cfg, run, Check(w, true));
    GivingUp(cfg, s, w, body, deaths, CheckFailed);
    run, s := Then(cfg, run, GiveUp(w));
    Auditing(cfg, s, w, body, deaths, CheckFailed);
    run, s := Then(cfg, run, RecordFailure(w, NoFault));
    Disconnecting(cfg, s, w, body, deaths, Parking);
    assert |s.workers| == w + 1;
    KeepsCalls(cfg, s);
    run, s := Then(cfg, run, LoseConnection(0));
  }

  /** A redelivery hides a written-off event as a failed park does: for every workable
      configuration and every published user event there is a run with no park at all, after
      which the event's only message is acked, its row says "failed" and nothing is in the DLQ. */
  lemma RedeliveredFailedRowWithoutDlq(cfg: Config, body: Body) returns (run: seq<Step>)
    requires Workable(cfg) && body.Event? && body.env.eventType == USER_CREATED && body.env.payload.Decodes?
    ensures var s := Exec(cfg, INIT, run);
            && |s.copies| == 1 && s.copies[0].body == body && s.copies[0].place == Acked
            && s.rows == [FailedRow(body, CheckFailed)]
            && !InDlq(s, body.env.eventId)
            && Count(s.log, RequeuedOf(0)) == 0
            && forall x :: x in s.log ==> !x.ParkTried?
  {
    hide Do, Exec, Listening, Workable, RetriesIn;
    run := RetryTimes(cfg, body, Limit(cfg));
    run := AuditedThenRedelivered(cfg, run, body);
    var s := Exec(cfg, INIT, run);
    var w := |s.workers|;
    var deaths := s.copies[0].deaths;
    assert s.rows[0].eventId == body.env.eventId;
    CountZero(s.log, RequeuedOf(0));
    Delivering(cfg, s, body, deaths);
    run, s := Then(cfg, run, Deliver(0));
    CheckFinding(cfg, s, w, body, deaths);
    run, s := Then(cfg, run, Check(w, false));
    Acking(cfg, s, w, body, deaths);
    run, s := Then(cfg, run, Ack(w, true));
  }

  // ----- The e-mail bound is attained -----

  lemma Noted(log: seq<Entry>, x: Entry, e: EventId)
    ensures Count(log + [x], MailOf(e)) == Count(log, MailOf(e)) + One(MailOf(e)(x))
    ensures Count(log + [x], ReturnedOf(e)) == Count(log, ReturnedOf(e)) + One(ReturnedOf(e)(x))
    ensures Count(log + [x], LostInsertOf(e)) == Count(log, LostInsertOf(e)) + One(LostInsertOf(e)(x))
    ensures Count(log + [x], UnreportedOf(e)) == Count(log, UnreportedOf(e)) + One(UnreportedOf(e)(x))
  {
    CountSnoc(log, x, MailOf(e));
    CountSnoc(log, x, ReturnedOf(e));
    CountSnoc(log, x, LostInsertOf(e));
    CountSnoc(log, x, UnreportedOf(e));
  }

  ghost predicate Tally(s: State, e: EventId, mails: nat, comebacks: nat) {
    && Mails(s, e) == mails && Count(s.log, ReturnedOf(e)) == comebacks
    && Count(s.log, LostInsertOf(e)) == 0 && Count(s.log, UnreportedOf(e)) == 0
    && e in s.minted
  }

  /** A delivery whose call sends, and is still to record it. */
  lemma SendOnce(cfg: Config, run0: seq<Step>, body: Body, n: nat) returns (run: seq<Step>)
    requires Queued(cfg, Exec(cfg, INIT, run0), Main, body, [], []) && Tally(Exec(cfg, INIT, run0), body.env.eventId, n, n)
    ensures var s := Exec(cfg, INIT, run);
            |s.workers| > 0 && Now(cfg, s, |s.workers| - 1, body, [], Recording, []) && Tally(s, body.env.eventId, n + 1, n)
  {
    hide Do, Exec, Listening, Workable;
    var e := body.env.eventId;
    var s := Exec(cfg, INIT, run0);
    var w := |s.workers|;
    Noted(s.log, Miss(w, e), e);
    Noted(s.log + [Miss(w, e)], Mail(w, e, EmailOf(body), true), e);
    Delivering(cfg, s, body, []);
    run, s := Then(cfg, run0, Deliver(0));
    CheckMissing(cfg, s, w, body, []);
    run, s := Then(cfg, run, Check(w, false));
    Mailing(cfg, s, w, body, []);
    run, s := Then(cfg, run, Send(w, Delivered));
  }

  /** For every n there is a run with n redeliveries, no other fault, and n + 1 e-mails for the
      one published event: the bound on e-mails per event cannot be improved. */
  lemma {:induction false} MailBoundIsAttained(cfg: Config, body: Body, n: nat) returns (run: seq<Step>)
    requires Workable(cfg) && body.Event? && body.env.eventType == USER_CREATED && body.env.payload.Decodes?
    ensures var s := Exec(cfg, INIT, run);
            |s.workers| > 0 && Now(cfg, s, |s.workers| - 1, body, [], Recording, []) && Tally(s, body.env.eventId, n + 1, n)
  {
    hide Do, Exec, Listening, Workable;
    var e := body.env.eventId;
    if n == 0 {
      run := PublishOne(cfg, body);
      Noted([], Accepted(e), e);
      assert [Accepted(e)] == [] + [Accepted(e)];
    } else {
      run := MailBoundIsAttained(cfg, body, n - 1);
      var s := Exec(cfg, INIT, run);
      Noted(s.log, Returned(0, body), e);
      Disconnecting(cfg, s, |s.workers| - 1, body, [], Recording);
      run, s := Then(cfg, run, LoseConnection(0));
    }
    run := SendOnce(cfg, run, body, n);
  }
}
