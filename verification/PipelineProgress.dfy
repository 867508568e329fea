/** Progress: the pipeline cannot run forever unless new messages, lost connections or failed
    parks keep feeding it; and what became of a message once it has left the queues. */
module PipelineProgress {
  import opened Counting
  import opened NotificationTable
  import opened Pipeline
  import opened PipelineSafety
  import opened PipelineRetries

  // ----- Termination -----

  /** How much work a message can still cause: a round trip costs twenty per retry left. */
  ghost function CopyRank(cfg: Config, s: State, c: nat): nat {
    if c >= |s.copies| then 0
    else
      var left := Limit(cfg) - RetriesIn(cfg, s.copies[c].deaths);
      if left < 0 then 0
      else match s.copies[c].place
        case Main => 20 * left + 10
        case Unacked(_) => 20 * left
        case Retry => if left == 0 then 0 else 20 * left - 9
        case _ => 0
  }

  ghost function WorkerRank(s: State, w: nat): nat {
    if w >= |s.workers| then 0
    else match s.workers[w].pc
      case Handling => 9
      case Sending => 7
      case Recording => 6
      case FailedCall(_) => 5
      case Exhausted(_) => 4
      case Parking => 3
      case Parked => 2
      case ParkFailed => 2
      case Succeeded => 1
      case Finished => 0
  }

  ghost function CopyRanks(cfg: Config, s: State): nat -> nat { (c: nat) => CopyRank(cfg, s, c) }
  ghost function WorkerRanks(s: State): nat -> nat { (w: nat) => WorkerRank(s, w) }

  ghost function Rank(cfg: Config, s: State): nat {
    Total(|s.copies|, CopyRanks(cfg, s)) + Total(|s.workers|, WorkerRanks(s))
  }

  /** The work a step may add: a round trip per retry for a message that is queued, one more
      delivery when an unacked message is put back, itself if it comes in from outside, nothing
      for any other step. */
  ghost function Fuel(cfg: Config, s: State, st: Step): nat {
    match st
    case DeclareExchange => 1
    case DeclareTopology(_) => 1
    case CommitUser(_) => 1
    case Publish(_, _, taken, _) => if taken && Routed(cfg, s, USER_CREATED) then 20 * Limit(cfg) + 11 else 1
    case Inject(_, key) => if Routed(cfg, s, key) then 20 * Limit(cfg) + 11 else 1
    case LoseConnection(_) => 11
    case Requeue(w, heard) => if heard && Holds(s, w) then 11 else 0
    case _ => 0
  }

  ghost predicate SpendingChange(cfg: Config, s: State, ch: Change, fuel: nat) {
    var s' := Apply(s, ch);
    1 + (if ch.worker.Put? then WorkerRank(s', ch.worker.at) else 0)
      + (if ch.copy.Put? then CopyRank(cfg, s', ch.copy.at) else 0)
    <= fuel
      + (if ch.worker.Put? then WorkerRank(s, ch.worker.at) else 0)
      + (if ch.copy.Put? then CopyRank(cfg, s, ch.copy.at) else 0)
  }

  lemma SettleSpends(cfg: Config, s: State, st: Step)
    requires Linked(s) && Counted(cfg, s) && Enabled(cfg, s, st) && ChangeOf(cfg, s, st).copy.Put?
    requires st.Drop? || st.Ack? || st.Nack? || st.Requeue?
    ensures SpendingChange(cfg, s, ChangeOf(cfg, s, st), Fuel(cfg, s, st))
  {
    hide RetriesIn, Routed, Listening, RetriesLeft, XDeath.RecordDeath, XDeath.OnlyExpiresIn, HasRow, Topology.RetryQueueName;
    var copy := ChangeOf(cfg, s, st).copy;
    StepRetries(cfg, s, st);
    StepCounts(cfg, s, st);
    assert CountedCopy(cfg, s.copies[copy.at]);
  }

  lemma QueueSpends(cfg: Config, s: State, st: Step)
    requires Linked(s) && Counted(cfg, s) && Enabled(cfg, s, st) && ChangeOf(cfg, s, st).copy.Put?
    requires st.Deliver? || st.Expire? || st.LoseConnection?
    ensures SpendingChange(cfg, s, ChangeOf(cfg, s, st), Fuel(cfg, s, st))
  {
    hide RetriesIn, Routed, Listening, RetriesLeft, XDeath.RecordDeath, XDeath.OnlyExpiresIn, HasRow, Topology.RetryQueueName;
    var copy := ChangeOf(cfg, s, st).copy;
    StepRetries(cfg, s, st);
    StepCounts(cfg, s, st);
    assert CountedCopy(cfg, s.copies[copy.at]);
  }

  lemma NewCopySpends(cfg: Config, s: State, st: Step)
    requires Linked(s) && Counted(cfg, s) && Enabled(cfg, s, st) && ChangeOf(cfg, s, st).copy.Put?
    requires ComesIn(st) || st.Park?
    ensures SpendingChange(cfg, s, ChangeOf(cfg, s, st), Fuel(cfg, s, st))
  {
    hide RetriesIn, Routed, Listening, RetriesLeft, XDeath.RecordDeath, XDeath.OnlyExpiresIn, HasRow, Topology.RetryQueueName;
    StepRetries(cfg, s, st);
  }

  lemma MoveSpends(cfg: Config, s: State, st: Step)
    requires Linked(s) && Counted(cfg, s) && Enabled(cfg, s, st) && ChangeOf(cfg, s, st).copy.Put?
    ensures SpendingChange(cfg, s, ChangeOf(cfg, s, st), Fuel(cfg, s, st))
  {
    hide SpendingChange, Fuel, Linked, Counted, Routed, Listening, RetriesLeft, XDeath.RecordDeath, HasRow;
    if st.Drop? || st.Ack? || st.Nack? || st.Requeue? {
      SettleSpends(cfg, s, st);
    } else if st.Deliver? || st.Expire? || st.LoseConnection? {
      QueueSpends(cfg, s, st);
    } else {
      NewCopySpends(cfg, s, st);
    }
  }

  lemma CallSpends(cfg: Config, s: State, st: Step)
    requires Enabled(cfg, s, st) && ChangeOf(cfg, s, st).copy.Keep?
    ensures SpendingChange(cfg, s, ChangeOf(cfg, s, st), Fuel(cfg, s, st))
  {
    hide RetriesIn, Routed, Listening, XDeath.RecordDeath;
  }

  lemma NoRankBeyond(cfg: Config, s: State)
    ensures WorkerRank(s, |s.workers|) == 0 && CopyRank(cfg, s, |s.copies|) == 0
  {
  }

  lemma UntouchedRanks(cfg: Config, s: State, ch: Change)
    requires Lawful(s, ch)
    ensures var s' := Apply(s, ch);
            && (forall w: nat :: w < |s.workers| && !(ch.worker.Put? && w == ch.worker.at) ==>
                  WorkerRank(s', w) == WorkerRank(s, w))
            && (forall c: nat :: c < |s.copies| && !(ch.copy.Put? && c == ch.copy.at) ==>
                  CopyRank(cfg, s', c) == CopyRank(cfg, s, c))
  {
    hide RetriesIn;
  }

  lemma WorkerRankStep(cfg: Config, s: State, ch: Change)
    requires Lawful(s, ch)
    ensures var s' := Apply(s, ch);
            Total(|s'.workers|, WorkerRanks(s')) + (if ch.worker.Put? then WorkerRank(s, ch.worker.at) else 0)
              <= Total(|s.workers|, WorkerRanks(s)) + (if ch.worker.Put? then WorkerRank(s', ch.worker.at) else 0)
  {
    NoRankBeyond(cfg, s);
    UntouchedRanks(cfg, s, ch);
    hide WorkerRank, CopyRank;
    var s' := Apply(s, ch);
    if ch.worker.Put? && ch.worker.at < |s.workers| {
      TotalShift(|s.workers|, WorkerRanks(s), WorkerRanks(s'), ch.worker.at);
    } else {
      TotalMono(|s.workers|, WorkerRanks(s), WorkerRanks(s'));
    }
  }

  lemma CopyRankStep(cfg: Config, s: State, ch: Change)
    requires Lawful(s, ch)
    ensures var s' := Apply(s, ch);
            Total(|s'.copies|, CopyRanks(cfg, s')) + (if ch.copy.Put? then CopyRank(cfg, s, ch.copy.at) else 0)
              <= Total(|s.copies|, CopyRanks(cfg, s)) + (if ch.copy.Put? then CopyRank(cfg, s', ch.copy.at) else 0)
  {
    NoRankBeyond(cfg, s);
    UntouchedRanks(cfg, s, ch);
    hide WorkerRank, CopyRank;
    var s' := Apply(s, ch);
    if ch.copy.Put? && ch.copy.at < |s.copies| {
      TotalShift(|s.copies|, CopyRanks(cfg, s), CopyRanks(cfg, s'), ch.copy.at);
    } else {
      TotalMono(|s.copies|, CopyRanks(cfg, s), CopyRanks(cfg, s'));
    }
  }

  lemma RankStep(cfg: Config, s: State, ch: Change, fuel: nat)
    requires Lawful(s, ch) && SpendingChange(cfg, s, ch, fuel)
    ensures Rank(cfg, Apply(s, ch)) + 1 <= Rank(cfg, s) + fuel
  {
    hide WorkerRank, CopyRank, Total, Apply, Lawful;
    WorkerRankStep(cfg, s, ch);
    CopyRankStep(cfg, s, ch);
  }

  /** Every step of the schedule is really taken. */
  ghost predicate Effective(cfg: Config, run: seq<Step>) {
    run != [] ==>
      && Effective(cfg, run[..|run| - 1])
      && Enabled(cfg, Exec(cfg, INIT, run[..|run| - 1]), run[|run| - 1])
  }

  /** All the fuel a run is given. */
  ghost function FuelOf(cfg: Config, run: seq<Step>): nat {
    if run == [] then 0
    else FuelOf(cfg, run[..|run| - 1]) + Fuel(cfg, Exec(cfg, INIT, run[..|run| - 1]), run[|run| - 1])
  }

  /** The pipeline terminates. A run can be no longer than its fuel: 20 * max(0, maxRetries) + 11
      steps per queued message, 11 per redelivery and per requeue, 1 per commit, declaration and
      publish that queues nothing.
      Deliveries, handler calls, retries, expiries, crashes and lost acks feed on that alone,
      whatever the handlers do. */
  lemma {:induction false} RunsAreBounded(cfg: Config, run: seq<Step>)
    requires Effective(cfg, run)
    ensures |run| + Rank(cfg, Exec(cfg, INIT, run)) <= FuelOf(cfg, run)
  {
    if run != [] {
      var before := run[..|run| - 1];
      var st := run[|run| - 1];
      var s := Exec(cfg, INIT, before);
      RunsAreBounded(cfg, before);
      LinkedAlways(cfg, before);
      CountedAlways(cfg, before);
      StepIsLawful(cfg, s, st);
      if ChangeOf(cfg, s, st).copy.Put? {
        MoveSpends(cfg, s, st);
      } else {
        CallSpends(cfg, s, st);
      }
      RankStep(cfg, s, ChangeOf(cfg, s, st), Fuel(cfg, s, st));
    }
  }

  // ----- At rest -----

  /** Steps the services and the broker take of their own accord. */
  predicate Spontaneous(st: Step) {
    !ComesIn(st) && !st.LoseConnection? && !st.Crash?
  }

  /** A call that is not over has a step of its own to take. */
  lemma NextStep(cfg: Config, s: State, w: nat) returns (st: Step)
    requires w < |s.workers| && LinkedWorker(s, s.workers[w]) && s.workers[w].pc != Finished
    ensures Spontaneous(st) && Enabled(cfg, s, st)
  {
    hide Routed, Listening, RetriesIn;
    match s.workers[w].pc
    case Handling => st := if s.workers[w].body.Undecodable? then Drop(w, true) else Check(w, false);
    case Sending => st := Send(w, Delivered);
    case Recording => st := Record(w, NoFault);
    case FailedCall(_) => st := if RetriesLeft(cfg, s.workers[w]) then Nack(w, true) else GiveUp(w);
    case Exhausted(_) => st := RecordFailure(w, NoFault);
    case Parking => st := Park(w, Stored);
    case Parked => st := Ack(w, true);
    case Succeeded => st := Ack(w, true);
    case ParkFailed => st := Requeue(w, true);
  }

  lemma CallsCanEnd(cfg: Config, s: State, w: nat)
    requires w < |s.workers| && LinkedWorker(s, s.workers[w])
    requires forall st :: Spontaneous(st) ==> !Enabled(cfg, s, st)
    ensures s.workers[w].pc == Finished
  {
    hide Enabled;
    if s.workers[w].pc != Finished {
      var st := NextStep(cfg, s, w);
      assert false;
    }
  }

  /** When no service and no queue has anything left to do, every call is over and every
      event that was queued has a row, a DLQ copy or a silently lost park, unless a finished call
      still holds it unacked, its ack lost or its process gone, or it waits in the main queue for
      a consumer whose topology is still incomplete. */
  lemma {:induction false} AtRestEverythingIsSettled(cfg: Config, run: seq<Step>, c: nat)
    requires var s := Exec(cfg, INIT, run);
             c < |s.copies| && forall st :: Spontaneous(st) ==> !Enabled(cfg, s, st)
    ensures var s := Exec(cfg, INIT, run);
            || s.copies[c].body.Undecodable?
            || Settled(s, s.copies[c].body.env.eventId)
            || (s.copies[c].place.Unacked? && s.copies[c].place.tag < |s.workers|
                && s.workers[s.copies[c].place.tag].pc == Finished)
            || (s.copies[c].place == Main && !Listening(cfg, s))
  {
    hide Listening, RetriesIn;
    var s := Exec(cfg, INIT, run);
    LinkedAlways(cfg, run);
    AckedOnlyWhenSettledAlways(cfg, run);
    assert !Enabled(cfg, s, Deliver(c)) && !Enabled(cfg, s, Expire(c));
    if s.copies[c].place == Dlq && s.copies[c].body.Event? {
      assert Carries(s.copies[c].body, s.copies[c].body.env.eventId);
    }
    if s.copies[c].place.Unacked? {
      var w := s.copies[c].place.tag;
      assert LinkedWorker(s, s.workers[w]);
      CallsCanEnd(cfg, s, w);
    }
  }

  /** Where a message is when nothing has anything left to do: acked, parked, held by a finished
      call, or waiting for a consumer whose topology is incomplete. */
  ghost predicate AtRestPlace(cfg: Config, s: State, c: nat)
    requires c < |s.copies|
  {
    match s.copies[c].place
    case Acked => true
    case Dlq => true
    case Unacked(w) => w < |s.workers| && s.workers[w].pc == Finished
    case Main => !Listening(cfg, s)
    case Retry => false
  }

  lemma {:induction false} AtRestPlaces(cfg: Config, run: seq<Step>, c: nat)
    requires var s := Exec(cfg, INIT, run);
             c < |s.copies| && forall st :: Spontaneous(st) ==> !Enabled(cfg, s, st)
    ensures AtRestPlace(cfg, Exec(cfg, INIT, run), c)
  {
    hide Listening, RetriesIn;
    var s := Exec(cfg, INIT, run);
    LinkedAlways(cfg, run);
    assert !Enabled(cfg, s, Deliver(c)) && !Enabled(cfg, s, Expire(c));
    if s.copies[c].place.Unacked? {
      var w := s.copies[c].place.tag;
      assert LinkedWorker(s, s.workers[w]);
      CallsCanEnd(cfg, s, w);
    }
  }

  // ----- Messages whose every call failed -----

  /** An acked event was acked either by a call that had not failed, or by one that had run
      out of retries and parked it. */
  ghost predicate AckedBy(cfg: Config, s: State, c: nat, w: nat)
    requires c < |s.copies|
  {
    && w < |s.workers| && s.workers[w].copy == c && s.workers[w].pc == Finished
    && (s.workers[w].failed ==>
          && RetriesIn(cfg, s.copies[c].deaths) >= cfg.maxRetries
          && (s.copies[c].body.Event? ==>
                InDlq(s, s.copies[c].body.env.eventId) || LostInPark(s, s.copies[c].body.env.eventId)))
  }

  ghost predicate ParkedCall(s: State, x: Worker) {
    x.pc == Parked && x.body.Event? ==> InDlq(s, x.body.env.eventId) || LostInPark(s, x.body.env.eventId)
  }

  ghost predicate AcksExplained(cfg: Config, s: State) {
    && (forall w :: 0 <= w < |s.workers| ==> ParkedCall(s, s.workers[w]))
    && (forall c :: 0 <= c < |s.copies| && s.copies[c].body.Event? && s.copies[c].place == Acked ==>
          exists w: nat :: AckedBy(cfg, s, c, w))
  }

  lemma ParkTraceStays(s: State, ch: Change, e: EventId)
    requires Lawful(s, ch) && (InDlq(s, e) || LostInPark(s, e))
    ensures InDlq(Apply(s, ch), e) || LostInPark(Apply(s, ch), e)
  {
    var s' := Apply(s, ch);
    if InDlq(s, e) {
      var c :| 0 <= c < |s.copies| && s.copies[c].place == Dlq && Carries(s.copies[c].body, e);
      assert s'.copies[c].place == Dlq && Carries(s'.copies[c].body, e);
    } else {
      var i :| 0 <= i < |s.log| && s.log[i] == ParkTried(e, LostSilently);
      assert s'.log[i] == ParkTried(e, LostSilently);
    }
  }

  /** The facts about a step that decide who acks and who parks. */
  ghost predicate AckingChange(s: State, ch: Change) {
    && (ch.worker.Put? && ch.worker.at < |s.workers| ==> s.workers[ch.worker.at].pc != Finished)
    && (ch.copy.Put? && ch.copy.value.place == Acked && ch.copy.value.body.Event? ==>
          && ch.copy.at < |s.copies| && ch.worker.Put? && ch.worker.at < |s.workers|
          && ch.worker.value == s.workers[ch.worker.at].(pc := Finished)
          && ch.worker.value.copy == ch.copy.at && ch.worker.value.deaths == ch.copy.value.deaths
          && (s.workers[ch.worker.at].pc == Succeeded || s.workers[ch.worker.at].pc == Parked))
  }

  lemma StepAcks(cfg: Config, s: State, st: Step)
    requires Linked(s) && Enabled(cfg, s, st)
    ensures AckingChange(s, ChangeOf(cfg, s, st))
  {
    hide Routed, Listening, XDeath.RecordDeath, RetriesIn;
  }

  lemma StepParks(cfg: Config, s: State, st: Step)
    requires Enabled(cfg, s, st)
    ensures var ch := ChangeOf(cfg, s, st); ch.worker.Put? ==> ParkedCall(Apply(s, ch), ch.worker.value)
  {
    var ch := ChangeOf(cfg, s, st);
    if ch.worker.Put? && ch.worker.value.pc == Parked {
      var s' := Apply(s, ch);
      var e := s.workers[st.w].body.env.eventId;
      if st.park == Stored {
        assert s'.copies[|s.copies|].place == Dlq && Carries(s'.copies[|s.copies|].body, e);
      } else {
        assert s'.log[|s.log|] == ParkTried(e, LostSilently);
      }
    }
  }

  lemma AcksStep(cfg: Config, s: State, ch: Change)
    requires Linked(s) && Lawful(s, ch) && FailuresBehind(cfg, s) && AcksExplained(cfg, s)
    requires AckingChange(s, ch) && (ch.worker.Put? ==> ParkedCall(Apply(s, ch), ch.worker.value))
    ensures AcksExplained(cfg, Apply(s, ch))
  {
    hide RetriesIn;
    hide InDlq;
    hide LostInPark;
    var s' := Apply(s, ch);
    forall e | InDlq(s, e) || LostInPark(s, e) ensures InDlq(s', e) || LostInPark(s', e) {
      ParkTraceStays(s, ch, e);
    }
    forall w | 0 <= w < |s'.workers| ensures ParkedCall(s', s'.workers[w]) {
      if !(ch.worker.Put? && w == ch.worker.at) {
        assert ParkedCall(s, s.workers[w]);
      }
    }
    forall c | 0 <= c < |s'.copies| && s'.copies[c].body.Event? && s'.copies[c].place == Acked
      ensures exists w: nat :: AckedBy(cfg, s', c, w)
    {
      if ch.copy.Put? && c == ch.copy.at {
        var w := ch.worker.at;
        assert Seasoned(cfg, s, w) && ParkedCall(s, s.workers[w]) && LinkedWorker(s, s.workers[w]);
        assert AckedBy(cfg, s', c, w);
      } else {
        var w: nat :| AckedBy(cfg, s, c, w);
        assert AckedBy(cfg, s', c, w);
      }
    }
  }

  lemma {:induction false} AcksAlwaysExplained(cfg: Config, run: seq<Step>)
    ensures AcksExplained(cfg, Exec(cfg, INIT, run))
  {
    hide ChangeOf;
    if run != [] {
      var s := Exec(cfg, INIT, run[..|run| - 1]);
      LinkedAlways(cfg, run[..|run| - 1]);
      FailuresAlwaysBehind(cfg, run[..|run| - 1]);
      AcksAlwaysExplained(cfg, run[..|run| - 1]);
      if Enabled(cfg, s, run[|run| - 1]) {
        StepIsLawful(cfg, s, run[|run| - 1]);
        StepAcks(cfg, s, run[|run| - 1]);
        StepParks(cfg, s, run[|run| - 1]);
        AcksStep(cfg, s, ChangeOf(cfg, s, run[|run| - 1]));
      }
    }
  }

  /** A message seen from its calls alone: if every handler call on an acked event failed, the
      last one included, there were exactly max(0, maxRetries) + 1 of them (plus one per
      requeue and redelivery) and the event is in the DLQ, unless the park publish was
      silently lost. */
  lemma {:induction false} AlwaysFailingMessageIsParked(cfg: Config, run: seq<Step>, c: nat)
    requires var s := Exec(cfg, INIT, run);
             && c < |s.copies| && s.copies[c].body.Event? && s.copies[c].place == Acked
             && forall w :: 0 <= w < |s.workers| && s.workers[w].copy == c ==> s.workers[w].failed
    ensures var s := Exec(cfg, INIT, run);
            && Calls(s, c) == Limit(cfg) + 1 + Count(s.log, RequeuedOf(c)) + Count(s.log, ReturnedFrom(c))
            && (InDlq(s, s.copies[c].body.env.eventId) || LostInPark(s, s.copies[c].body.env.eventId))
  {
    AcksAlwaysExplained(cfg, run);
    CallsAlwaysAddUp(cfg, run);
    CountedAlways(cfg, run);
    var s := Exec(cfg, INIT, run);
    assert CallsAddUp(cfg, s, c) && CountedCopy(cfg, s.copies[c]);
    var w: nat :| AckedBy(cfg, s, c, w);
  }

  /** "A permanently failing message ends up in the DLQ", with no ack taken for granted: once
      nothing has anything left to do and the consumer listens, a message whose every call failed
      and which no finished call still holds has been handled exactly max(0, maxRetries) + 1 times,
      plus once per requeue and redelivery, and is in the DLQ unless its park was silently lost. */
  lemma {:induction false} AlwaysFailingMessageEndsParked(cfg: Config, run: seq<Step>, c: nat)
    requires var s := Exec(cfg, INIT, run);
             && c < |s.copies| && s.copies[c].body.Event? && s.copies[c].place != Dlq && !s.copies[c].place.Unacked?
             && Listening(cfg, s) && (forall st :: Spontaneous(st) ==> !Enabled(cfg, s, st))
             && forall w :: 0 <= w < |s.workers| && s.workers[w].copy == c ==> s.workers[w].failed
    ensures var s := Exec(cfg, INIT, run);
            && Calls(s, c) == Limit(cfg) + 1 + Count(s.log, RequeuedOf(c)) + Count(s.log, ReturnedFrom(c))
            && (InDlq(s, s.copies[c].body.env.eventId) || LostInPark(s, s.copies[c].body.env.eventId))
  {
    AtRestPlaces(cfg, run, c);
    AlwaysFailingMessageIsParked(cfg, run, c);
  }
}
