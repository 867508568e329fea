/** What every schedule of the pipeline keeps: no event is lost, rows are unique and
    immutable, and rows and e-mails trace back to exactly one committed user. */
module PipelineSafety {
  import opened NotificationTable
  import opened Pipeline

  // ----- Deliveries and the messages they came from -----

  ghost predicate LinkedWorker(s: State, x: Worker) {
    && x.copy < |s.copies| && x.body == s.copies[x.copy].body
    && (!x.pc.Handling? && !x.pc.Finished? ==> x.body.Event?)
  }

  /** A handler call works from the message as it was delivered; the call that still owns
      an unacked message knows its current death record. */
  ghost predicate Linked(s: State) {
    && (forall w :: 0 <= w < |s.workers| ==> LinkedWorker(s, s.workers[w]))
    && (forall c :: 0 <= c < |s.copies| && s.copies[c].place.Unacked? ==>
          var w := s.copies[c].place.tag;
          w < |s.workers| && s.workers[w].copy == c && s.workers[w].deaths == s.copies[c].deaths)
  }

  ghost predicate LawfulWorker(s: State, w: nat, x: Worker) {
    && w <= |s.workers| && LinkedWorker(s, x)
    && (w == |s.workers| ==> x.pc == Handling && !x.failed && x.deaths == s.copies[x.copy].deaths)
    && (w < |s.workers| ==>
          var was := s.workers[w];
          x.copy == was.copy && x.body == was.body && x.deaths == was.deaths && (was.failed ==> x.failed))
  }

  ghost predicate LawfulCopy(s: State, c: nat, x: Copy) {
    && c <= |s.copies|
    && (c == |s.copies| ==> x.deaths == [] && (x.place == Main || x.place == Dlq))
    && (c < |s.copies| ==>
          && x.body == s.copies[c].body
          && s.copies[c].place != Dlq && s.copies[c].place != Acked && x.place != Dlq)
  }

  /** What no single step does: re-target a handler call, change a body, take a message
      out of the DLQ or back from Acked, rewrite a commit, reuse an id or a row's event. */
  ghost predicate Lawful(s: State, ch: Change) {
    && (ch.worker.Put? ==> LawfulWorker(s, ch.worker.at, ch.worker.value))
    && (ch.copy.Put? ==> LawfulCopy(s, ch.copy.at, ch.copy.value))
    && (ch.copy.Put? && ch.copy.value.place.Unacked? ==>
          && ch.worker.Put? && ch.worker.at == ch.copy.value.place.tag
          && ch.worker.value.copy == ch.copy.at && ch.worker.value.deaths == ch.copy.value.deaths)
    && (ch.commit.Put? ==>
          && ch.commit.at <= |s.commits|
          && (ch.commit.at < |s.commits| ==>
                && ch.commit.value.user == s.commits[ch.commit.at].user
                && !s.commits[ch.commit.at].published && ch.commit.value.published))
    && (ch.mint.Some? ==>
          && ch.mint.value.0 !in s.minted && ch.mint.value.1 < |s.commits|
          && ch.commit == Put(ch.mint.value.1, Commit(s.commits[ch.mint.value.1].user, true)))
    && (ch.row.Some? ==> !HasRow(s.rows, ch.row.value.eventId))
  }

  /** A step outside any handler call and any queue. */
  predicate ComesIn(st: Step) {
    st.DeclareExchange? || st.DeclareTopology? || st.CommitUser? || st.Publish? || st.Inject?
  }

  /** A step that may move a message. */
  predicate MovesMessage(st: Step) {
    st.Deliver? || st.Drop? || st.Ack? || st.Nack? || st.Requeue? || st.Expire? || st.LoseConnection?
  }

  lemma ComingInIsLawful(cfg: Config, s: State, st: Step)
    requires Enabled(cfg, s, st) && ComesIn(st)
    ensures Lawful(s, ChangeOf(cfg, s, st))
  {
    hide Routed, Listening;
  }

  lemma MoveIsLawful(cfg: Config, s: State, st: Step)
    requires Linked(s) && Enabled(cfg, s, st) && MovesMessage(st)
    ensures Lawful(s, ChangeOf(cfg, s, st))
  {
    hide Routed, Listening, RetriesIn, XDeath.RecordDeath;
  }

  lemma CallIsLawful(cfg: Config, s: State, st: Step)
    requires Linked(s) && Enabled(cfg, s, st) && !ComesIn(st) && !MovesMessage(st)
    ensures Lawful(s, ChangeOf(cfg, s, st))
  {
    hide Routed, Listening, RetriesIn;
  }

  lemma StepIsLawful(cfg: Config, s: State, st: Step)
    requires Linked(s) && Enabled(cfg, s, st)
    ensures Lawful(s, ChangeOf(cfg, s, st))
  {
    hide Lawful, ChangeOf, Enabled, Linked;
    if ComesIn(st) {
      ComingInIsLawful(cfg, s, st);
    } else if MovesMessage(st) {
      MoveIsLawful(cfg, s, st);
    } else {
      CallIsLawful(cfg, s, st);
    }
  }

  lemma LinkedStep(s: State, ch: Change)
    requires Linked(s) && Lawful(s, ch)
    ensures Linked(Apply(s, ch))
  {
    hide HasRow;
    var s' := Apply(s, ch);
    forall w | 0 <= w < |s'.workers| ensures LinkedWorker(s', s'.workers[w]) {
      assert !(ch.worker.Put? && w == ch.worker.at) ==> LinkedWorker(s, s.workers[w]);
    }
  }

  lemma {:induction false} LinkedAlways(cfg: Config, run: seq<Step>)
    ensures Linked(Exec(cfg, INIT, run))
  {
    hide ChangeOf;
    if run != [] {
      var s := Exec(cfg, INIT, run[..|run| - 1]);
      LinkedAlways(cfg, run[..|run| - 1]);
      if Enabled(cfg, s, run[|run| - 1]) {
        StepIsLawful(cfg, s, run[|run| - 1]);
        LinkedStep(s, ChangeOf(cfg, s, run[|run| - 1]));
      }
    }
  }

  // ----- Nothing recorded is ever undone -----

  ghost predicate InDlq(s: State, e: EventId) {
    exists c :: 0 <= c < |s.copies| && s.copies[c].place == Dlq && Carries(s.copies[c].body, e)
  }

  ghost predicate LostInPark(s: State, e: EventId) {
    ParkTried(e, LostSilently) in s.log
  }

  /** What may only ever grow. */
  ghost predicate Extends(s: State, s': State) {
    && s.rows <= s'.rows
    && s.log <= s'.log
    && |s.copies| <= |s'.copies|
    && (forall c :: 0 <= c < |s.copies| ==> s'.copies[c].body == s.copies[c].body)
    && (forall c :: 0 <= c < |s.copies| && (s.copies[c].place == Dlq || s.copies[c].place == Acked) ==>
          s'.copies[c].place == s.copies[c].place)
    && (forall id :: id in s.minted ==> id in s'.minted && s'.minted[id] == s.minted[id])
    && |s.commits| <= |s'.commits|
    && (forall k :: 0 <= k < |s.commits| ==> s'.commits[k].user == s.commits[k].user)
  }

  lemma StepExtends(s: State, ch: Change)
    requires Lawful(s, ch)
    ensures Extends(s, Apply(s, ch))
  {
  }

  /** Rows, messages, minted ids and commits are append-only: whatever happens later, a row
      that was written keeps its event, recipient and status. */
  lemma {:induction false} HistoryIsAppendOnly(cfg: Config, before: seq<Step>, after: seq<Step>)
    ensures Extends(Exec(cfg, INIT, before), Exec(cfg, INIT, before + after))
  {
    if after == [] {
      assert before + after == before;
    } else {
      var n := |after| - 1;
      HistoryIsAppendOnly(cfg, before, after[..n]);
      assert before + after == (before + after[..n]) + [after[n]];
      ExecSnoc(cfg, INIT, before + after[..n], after[n]);
      var s := Exec(cfg, INIT, before + after[..n]);
      LinkedAlways(cfg, before + after[..n]);
      if Enabled(cfg, s, after[n]) {
        StepIsLawful(cfg, s, after[n]);
        StepExtends(s, ChangeOf(cfg, s, after[n]));
      }
    }
  }

  // ----- No accepted event is lost -----

  /** The event has left a permanent trace. A lost park is the broker breaking the assumption
      that a publish without confirms which returned nil has been stored. */
  ghost predicate Settled(s: State, e: EventId) {
    HasRow(s.rows, e) || InDlq(s, e) || LostInPark(s, e)
  }

  lemma SettledForever(s: State, s': State, e: EventId)
    requires Extends(s, s')
    ensures HasRow(s.rows, e) ==> HasRow(s'.rows, e)
    ensures Settled(s, e) ==> Settled(s', e)
  {
    if HasRow(s.rows, e) {
      var i :| 0 <= i < |s.rows| && s.rows[i].eventId == e;
      assert s'.rows[i] == s.rows[i];
    }
    if InDlq(s, e) {
      var c :| 0 <= c < |s.copies| && s.copies[c].place == Dlq && Carries(s.copies[c].body, e);
      assert s'.copies[c].place == Dlq && Carries(s'.copies[c].body, e);
    }
    if LostInPark(s, e) {
      var i :| 0 <= i < |s.log| && s.log[i] == ParkTried(e, LostSilently);
      assert s'.log[i] == ParkTried(e, LostSilently);
    }
  }

  ghost predicate BackedUp(s: State, x: Worker) {
    && (x.pc == Succeeded && x.body.Event? ==> HasRow(s.rows, x.body.env.eventId))
    && (x.pc == Parked && x.body.Event? ==> Settled(s, x.body.env.eventId))
  }

  /** A handler call reports success only on a recorded event, acks a parked message only
      with a trace left behind, and a message is gone only if the same holds. */
  ghost predicate AckedOnlyWhenSettled(s: State) {
    && (forall w :: 0 <= w < |s.workers| ==> BackedUp(s, s.workers[w]))
    && (forall c :: 0 <= c < |s.copies| && s.copies[c].body.Event? && s.copies[c].place == Acked ==>
          Settled(s, s.copies[c].body.env.eventId))
  }

  ghost predicate SettlingChange(s: State, ch: Change) {
    var s' := Apply(s, ch);
    && (ch.worker.Put? ==> BackedUp(s', ch.worker.value))
    && (ch.copy.Put? && ch.copy.value.place == Acked && ch.copy.value.body.Event? ==>
          Settled(s, ch.copy.value.body.env.eventId))
  }

  lemma RecordSettles(cfg: Config, s: State, w: nat, fault: DbFault)
    requires AckedOnlyWhenSettled(s) && Enabled(cfg, s, Record(w, fault))
    ensures SettlingChange(s, ChangeOf(cfg, s, Record(w, fault)))
  {
    hide Settled;
    HasRowSnoc(s.rows, SentRow(s.workers[w].body), s.workers[w].body.env.eventId);
  }

  lemma ParkSettles(cfg: Config, s: State, w: nat, park: ParkOutcome)
    requires AckedOnlyWhenSettled(s) && Enabled(cfg, s, Park(w, park))
    ensures SettlingChange(s, ChangeOf(cfg, s, Park(w, park)))
  {
    var s' := Apply(s, ChangeOf(cfg, s, Park(w, park)));
    var e := s.workers[w].body.env.eventId;
    if park == Stored {
      assert s'.copies[|s.copies|].place == Dlq && Carries(s'.copies[|s.copies|].body, e);
    } else if park == LostSilently {
      assert s'.log[|s.log|] == ParkTried(e, LostSilently);
    }
  }

  lemma MoveSettles(cfg: Config, s: State, st: Step)
    requires Linked(s) && AckedOnlyWhenSettled(s) && Enabled(cfg, s, st) && MovesMessage(st)
    ensures SettlingChange(s, ChangeOf(cfg, s, st))
  {
    hide Listening, RetriesIn, XDeath.RecordDeath, InDlq, LostInPark;
  }

  lemma StepSettles(cfg: Config, s: State, st: Step)
    requires Linked(s) && AckedOnlyWhenSettled(s) && Enabled(cfg, s, st)
    ensures SettlingChange(s, ChangeOf(cfg, s, st))
  {
    hide Settled, Routed, RetriesIn;
    if MovesMessage(st) {
      MoveSettles(cfg, s, st);
    } else if st.Record? {
      RecordSettles(cfg, s, st.w, st.fault);
    } else if st.Park? {
      ParkSettles(cfg, s, st.w, st.park);
    }
  }

  lemma SettledStep(s: State, ch: Change)
    requires Lawful(s, ch) && AckedOnlyWhenSettled(s) && SettlingChange(s, ch)
    ensures AckedOnlyWhenSettled(Apply(s, ch))
  {
    var s' := Apply(s, ch);
    StepExtends(s, ch);
    forall e: EventId ensures (HasRow(s.rows, e) ==> HasRow(s'.rows, e)) && (Settled(s, e) ==> Settled(s', e)) {
      SettledForever(s, s', e);
    }
    forall w | 0 <= w < |s'.workers| ensures BackedUp(s', s'.workers[w]) {
      if !(ch.worker.Put? && w == ch.worker.at) {
        assert BackedUp(s, s.workers[w]);
      }
    }
  }

  lemma {:induction false} AckedOnlyWhenSettledAlways(cfg: Config, run: seq<Step>)
    ensures AckedOnlyWhenSettled(Exec(cfg, INIT, run))
  {
    hide ChangeOf;
    if run != [] {
      var s := Exec(cfg, INIT, run[..|run| - 1]);
      LinkedAlways(cfg, run[..|run| - 1]);
      AckedOnlyWhenSettledAlways(cfg, run[..|run| - 1]);
      if Enabled(cfg, s, run[|run| - 1]) {
        StepIsLawful(cfg, s, run[|run| - 1]);
        StepSettles(cfg, s, run[|run| - 1]);
        SettledStep(s, ChangeOf(cfg, s, run[|run| - 1]));
      }
    }
  }

  /** Is the event still in the broker: queued, in flight, waiting to retry or parked? */
  ghost predicate InBroker(s: State, e: EventId) {
    exists c :: 0 <= c < |s.copies| && Carries(s.copies[c].body, e) && s.copies[c].place != Acked
  }

  /** No loss, for every interleaving and every fault: once the broker has queued an
      event, at every later moment it is in the main queue, in flight, in the retry queue
      or in the DLQ, or it has a row, or a park publish was silently lost. */
  lemma {:induction false} AcceptedEventsAreNeverLost(cfg: Config, before: seq<Step>, after: seq<Step>, e: EventId)
    requires InBroker(Exec(cfg, INIT, before), e)
    ensures var s := Exec(cfg, INIT, before + after);
            InBroker(s, e) || HasRow(s.rows, e) || LostInPark(s, e)
  {
    var s0 := Exec(cfg, INIT, before);
    var s := Exec(cfg, INIT, before + after);
    HistoryIsAppendOnly(cfg, before, after);
    AckedOnlyWhenSettledAlways(cfg, before + after);
    var c :| 0 <= c < |s0.copies| && Carries(s0.copies[c].body, e) && s0.copies[c].place != Acked;
    assert Carries(s.copies[c].body, e);
    if s.copies[c].place == Acked && InDlq(s, e) {
      var d :| 0 <= d < |s.copies| && s.copies[d].place == Dlq && Carries(s.copies[d].body, e);
      assert InBroker(s, e);
    }
  }

  /** Only undecodable bodies are ever dropped: any acked message that is an event has
      a row, a DLQ copy, or a silently lost park publish. */
  lemma {:induction false} OnlyUndecodableBodiesAreDropped(cfg: Config, run: seq<Step>, c: nat)
    requires c < |Exec(cfg, INIT, run).copies| && Exec(cfg, INIT, run).copies[c].place == Acked
    ensures var s := Exec(cfg, INIT, run);
            s.copies[c].body.Undecodable? || Settled(s, s.copies[c].body.env.eventId)
  {
    AckedOnlyWhenSettledAlways(cfg, run);
  }

  /** At most one row per event, in every interleaving. */
  lemma {:induction false} AtMostOneRowPerEvent(cfg: Config, run: seq<Step>)
    ensures UniqueEvents(Exec(cfg, INIT, run).rows)
  {
    hide ChangeOf;
    if run != [] {
      var s := Exec(cfg, INIT, run[..|run| - 1]);
      LinkedAlways(cfg, run[..|run| - 1]);
      AtMostOneRowPerEvent(cfg, run[..|run| - 1]);
      if Enabled(cfg, s, run[|run| - 1]) {
        StepIsLawful(cfg, s, run[|run| - 1]);
      }
    }
  }

  // ----- Sends and the exists-check -----

  ghost predicate RowIsNoted(s: State, e: EventId) {
    exists i :: 0 <= i < |s.log| && s.log[i].Wrote? && s.log[i].e == e
  }

  /** Position k holds worker w's check, and no row of e had been written by then. */
  ghost predicate CleanMiss(log: seq<Entry>, k: nat, w: nat, e: EventId) {
    && k < |log| && log[k] == Miss(w, e)
    && forall i :: 0 <= i < k ==> !(log[i].Wrote? && log[i].e == e)
  }

  ghost predicate PastMiss(log: seq<Entry>, n: nat, w: nat, e: EventId) {
    exists k: nat :: k < n && CleanMiss(log, k, w, e)
  }

  ghost predicate Checked(s: State, w: nat, x: Worker) {
    x.pc == Sending || x.pc == Recording ==>
      x.body.Event? && PastMiss(s.log, |s.log|, w, x.body.env.eventId)
  }

  /** The log and the table agree on which events have a row; a call past its check has one
      clean miss behind it, a call before it none; an e-mail comes after its call's miss. */
  ghost predicate ChecksAndSends(s: State) {
    && (forall e: EventId :: HasRow(s.rows, e) <==> RowIsNoted(s, e))
    && (forall w :: 0 <= w < |s.workers| ==> Checked(s, w, s.workers[w]))
    && (forall k :: 0 <= k < |s.log| && s.log[k].Miss? ==>
          s.log[k].w < |s.workers| && s.workers[s.log[k].w].pc != Handling)
    && (forall i, j :: 0 <= i < j < |s.log| && s.log[i].Miss? && s.log[j].Miss? ==> s.log[i].w != s.log[j].w)
    && (forall j :: 0 <= j < |s.log| && s.log[j].Mail? ==> PastMiss(s.log, j, s.log[j].w, s.log[j].e))
  }

  ghost predicate CheckingChange(s: State, ch: Change) {
    && (ch.row.Some? <==> ch.entry.Some? && ch.entry.value.Wrote?)
    && (ch.row.Some? ==> ch.entry.value.e == ch.row.value.eventId)
    && (ch.worker.Put? ==> Checked(Apply(s, ch), ch.worker.at, ch.worker.value))
    && (ch.worker.Put? && ch.worker.at < |s.workers| ==> ch.worker.value.pc != Handling)
    && (ch.entry.Some? && ch.entry.value.Miss? ==>
          ch.worker.Put? && ch.worker.at == ch.entry.value.w < |s.workers| && s.workers[ch.worker.at].pc == Handling)
    && (ch.entry.Some? && ch.entry.value.Mail? ==> PastMiss(s.log, |s.log|, ch.entry.value.w, ch.entry.value.e))
  }

  lemma PastMissStays(log: seq<Entry>, log': seq<Entry>, n: nat, w: nat, e: EventId)
    requires log <= log' && PastMiss(log, n, w, e)
    ensures PastMiss(log', n, w, e)
  {
    var k: nat :| k < n && CleanMiss(log, k, w, e);
    assert CleanMiss(log', k, w, e);
  }

  lemma CheckChecks(cfg: Config, s: State, w: nat, dbError: bool)
    requires ChecksAndSends(s) && Enabled(cfg, s, Check(w, dbError))
    ensures CheckingChange(s, ChangeOf(cfg, s, Check(w, dbError)))
  {
    var ch := ChangeOf(cfg, s, Check(w, dbError));
    if ch.entry.Some? {
      var e := s.workers[w].body.env.eventId;
      assert !RowIsNoted(s, e);
      assert CleanMiss(Apply(s, ch).log, |s.log|, w, e);
    }
  }

  lemma SendChecks(cfg: Config, s: State, w: nat, mail: SendOutcome)
    requires ChecksAndSends(s) && Enabled(cfg, s, Send(w, mail))
    ensures CheckingChange(s, ChangeOf(cfg, s, Send(w, mail)))
  {
    var s' := Apply(s, ChangeOf(cfg, s, Send(w, mail)));
    assert Checked(s, w, s.workers[w]);
    PastMissStays(s.log, s'.log, |s.log|, w, s.workers[w].body.env.eventId);
  }

  lemma OtherChecks(cfg: Config, s: State, st: Step)
    requires Enabled(cfg, s, st) && !st.Check? && !st.Send?
    ensures CheckingChange(s, ChangeOf(cfg, s, st))
  {
    hide Routed, Listening, RetriesIn, XDeath.RecordDeath, PastMiss, HasRow;
  }

  lemma StepChecks(cfg: Config, s: State, st: Step)
    requires ChecksAndSends(s) && Enabled(cfg, s, st)
    ensures CheckingChange(s, ChangeOf(cfg, s, st))
  {
    hide ChecksAndSends, CheckingChange, ChangeOf, Enabled;
    match st
    case Check(w, dbError) => CheckChecks(cfg, s, w, dbError);
    case Send(w, mail) => SendChecks(cfg, s, w, mail);
    case _ => OtherChecks(cfg, s, st);
  }

  lemma LogMatchesTable(s: State, ch: Change, e: EventId)
    requires CheckingChange(s, ch) && (HasRow(s.rows, e) <==> RowIsNoted(s, e))
    ensures var s' := Apply(s, ch); HasRow(s'.rows, e) <==> RowIsNoted(s', e)
  {
    var s' := Apply(s, ch);
    if ch.row.Some? {
      HasRowSnoc(s.rows, ch.row.value, e);
    }
    if RowIsNoted(s, e) {
      var i :| 0 <= i < |s.log| && s.log[i].Wrote? && s.log[i].e == e;
      assert s'.log[i] == s.log[i];
    }
    if ch.row.Some? && ch.row.value.eventId == e {
      assert s'.log[|s.log|].Wrote? && s'.log[|s.log|].e == e;
    }
  }

  lemma ChecksAndSendsStep(s: State, ch: Change)
    requires Lawful(s, ch) && ChecksAndSends(s) && CheckingChange(s, ch)
    ensures ChecksAndSends(Apply(s, ch))
  {
    var s' := Apply(s, ch);
    forall e: EventId ensures HasRow(s'.rows, e) <==> RowIsNoted(s', e) {
      LogMatchesTable(s, ch, e);
    }
    forall n: nat, w: nat, e | PastMiss(s.log, n, w, e) ensures PastMiss(s'.log, n, w, e) {
      PastMissStays(s.log, s'.log, n, w, e);
    }
    forall w | 0 <= w < |s'.workers| ensures Checked(s', w, s'.workers[w]) {
      if !(ch.worker.Put? && w == ch.worker.at) && (s'.workers[w].pc == Sending || s'.workers[w].pc == Recording) {
        assert Checked(s, w, s.workers[w]);
        var k: nat :| k < |s.log| && CleanMiss(s.log, k, w, s.workers[w].body.env.eventId);
        assert CleanMiss(s'.log, k, w, s.workers[w].body.env.eventId);
      }
    }
    forall j | 0 <= j < |s'.log| && s'.log[j].Mail? ensures PastMiss(s'.log, j, s'.log[j].w, s'.log[j].e) {
      if j < |s.log| {
        assert s.log[j] == s'.log[j];
      }
    }
  }

  lemma {:induction false} ChecksAndSendsAlways(cfg: Config, run: seq<Step>)
    ensures ChecksAndSends(Exec(cfg, INIT, run))
  {
    hide ChangeOf;
    if run != [] {
      var s := Exec(cfg, INIT, run[..|run| - 1]);
      LinkedAlways(cfg, run[..|run| - 1]);
      ChecksAndSendsAlways(cfg, run[..|run| - 1]);
      if Enabled(cfg, s, run[|run| - 1]) {
        StepIsLawful(cfg, s, run[|run| - 1]);
        StepChecks(cfg, s, run[|run| - 1]);
        ChecksAndSendsStep(s, ChangeOf(cfg, s, run[|run| - 1]));
      }
    }
  }

  /** No handler call that looks for the row after it was written ever sends: in the history
      of any run, if the row of e was written at i, a call whose exists-check comes after i
      has no e-mail for e anywhere. */
  lemma {:induction false} NoSendAfterRow(cfg: Config, run: seq<Step>, i: nat, k: nat, j: nat)
    requires var log := Exec(cfg, INIT, run).log;
             && i < k < |log| && j < |log|
             && log[i].Wrote? && log[k].Miss? && log[j].Mail?
             && log[i].e == log[j].e
    ensures var log := Exec(cfg, INIT, run).log; log[k].w != log[j].w
  {
    ChecksAndSendsAlways(cfg, run);
    var log := Exec(cfg, INIT, run).log;
    assert PastMiss(log, j, log[j].w, log[j].e);
    var m: nat :| m < j && CleanMiss(log, m, log[j].w, log[j].e);
    assert m <= i;
  }

  // ----- Causality -----

  /** Everything that bears a minted id speaks of the commit the id was minted for. */
  ghost predicate SpeaksFor(s: State, body: Body) {
    body.Event? && body.env.eventId in s.minted ==>
      && s.minted[body.env.eventId] < |s.commits|
      && body.env == Envelope(body.env.eventId, USER_CREATED, Decodes(s.commits[s.minted[body.env.eventId]].user))
  }

  ghost predicate Carried(s: State, e: EventId) {
    exists c :: 0 <= c < |s.copies| && Carries(s.copies[c].body, e)
  }

  /** The row's event reached the exchange, and a row of a minted event bears the e-mail
      address of the user the event was minted for. */
  ghost predicate TracedRow(s: State, row: Row) {
    && Carried(s, row.eventId)
    && (row.eventId in s.minted ==>
          && s.minted[row.eventId] < |s.commits|
          && row.recipient == s.commits[s.minted[row.eventId]].user.email
          && row.kind == USER_CREATED)
  }

  ghost predicate TracedEntry(s: State, x: Entry) {
    && (x.Mail? || x.ParkTried? ==> Carried(s, x.e))
    && (x.Mail? && x.e in s.minted ==>
          s.minted[x.e] < |s.commits| && x.to == s.commits[s.minted[x.e]].user.email)
  }

  ghost predicate Traced(s: State) {
    && (forall c :: 0 <= c < |s.copies| ==> SpeaksFor(s, s.copies[c].body))
    && (forall id :: id in s.minted ==> s.minted[id] < |s.commits| && s.commits[s.minted[id]].published)
    && (forall a, b :: a in s.minted && b in s.minted && s.minted[a] == s.minted[b] ==> a == b)
    && (forall i :: 0 <= i < |s.rows| ==> TracedRow(s, s.rows[i]))
    && (forall j :: 0 <= j < |s.log| ==> TracedEntry(s, s.log[j]))
  }

  ghost predicate TracingChange(s: State, ch: Change) {
    && (ch.copy.Put? && ch.mint.None? ==> SpeaksFor(s, ch.copy.value.body))
    && (ch.mint.Some? ==>
          var (id, k) := ch.mint.value;
          && !Carried(s, id) && k < |s.commits|
          && (forall a :: a in s.minted ==> s.minted[a] != k)
          && (ch.copy.Put? ==>
                ch.copy == Put(|s.copies|, Copy(Event(Envelope(id, USER_CREATED, Decodes(s.commits[k].user))), [], Main))))
    && (ch.row.Some? ==> TracedRow(s, ch.row.value) && ch.mint.None?)
    && (ch.entry.Some? ==> TracedEntry(s, ch.entry.value))
    && (ch.entry.Some? && (ch.entry.value.Mail? || ch.entry.value.ParkTried?) ==> ch.mint.None?)
  }

  lemma PublishTraces(cfg: Config, s: State, st: Step)
    requires Traced(s) && Enabled(cfg, s, st) && st.Publish?
    ensures TracingChange(s, ChangeOf(cfg, s, st))
  {
    hide Routed;
    assert !Carried(s, st.id);
  }

  /** A step of a call that works on what the call was delivered. */
  predicate OnDelivery(st: Step) {
    st.Check? || st.Send? || st.Record? || st.RecordFailure? || st.Park?
  }

  lemma SpokenFor(s: State, w: nat)
    requires Linked(s) && Traced(s) && w < |s.workers| && s.workers[w].body.Event?
    ensures SpeaksFor(s, s.workers[w].body) && Carried(s, s.workers[w].body.env.eventId)
  {
    assert LinkedWorker(s, s.workers[w]);
    assert Carries(s.copies[s.workers[w].copy].body, s.workers[w].body.env.eventId);
  }

  lemma CallTraces(cfg: Config, s: State, st: Step)
    requires Linked(s) && Traced(s) && Enabled(cfg, s, st) && OnDelivery(st)
    ensures TracingChange(s, ChangeOf(cfg, s, st))
  {
    hide Linked, Traced, Carried, HasRow;
    SpokenFor(s, st.w);
  }

  lemma MoveTraces(cfg: Config, s: State, st: Step)
    requires Traced(s) && Enabled(cfg, s, st) && !OnDelivery(st) && !st.Publish?
    ensures TracingChange(s, ChangeOf(cfg, s, st))
  {
    hide Routed, RetriesIn, XDeath.RecordDeath, Carried, TracedRow;
  }

  lemma StepTraces(cfg: Config, s: State, st: Step)
    requires Linked(s) && Traced(s) && Enabled(cfg, s, st)
    ensures TracingChange(s, ChangeOf(cfg, s, st))
  {
    hide Linked, Traced, ChangeOf, Enabled, TracingChange;
    if st.Publish? {
      PublishTraces(cfg, s, st);
    } else if OnDelivery(st) {
      CallTraces(cfg, s, st);
    } else {
      MoveTraces(cfg, s, st);
    }
  }

  lemma CarriedStays(s: State, ch: Change, e: EventId)
    requires Lawful(s, ch) && Carried(s, e)
    ensures Carried(Apply(s, ch), e)
  {
    var c :| 0 <= c < |s.copies| && Carries(s.copies[c].body, e);
    assert Carries(Apply(s, ch).copies[c].body, e);
  }

  lemma TracedCopies(s: State, ch: Change)
    requires Lawful(s, ch) && Traced(s) && TracingChange(s, ch)
    ensures var s' := Apply(s, ch); forall c :: 0 <= c < |s'.copies| ==> SpeaksFor(s', s'.copies[c].body)
  {
    var s' := Apply(s, ch);
    forall c | 0 <= c < |s'.copies| ensures SpeaksFor(s', s'.copies[c].body) {
      if c < |s.copies| {
        assert SpeaksFor(s, s.copies[c].body);
        if ch.mint.Some? {
          assert !Carries(s.copies[c].body, ch.mint.value.0);
        }
      }
    }
  }

  lemma TracedStep(s: State, ch: Change)
    requires Lawful(s, ch) && Traced(s) && TracingChange(s, ch)
    ensures Traced(Apply(s, ch))
  {
    var s' := Apply(s, ch);
    StepExtends(s, ch);
    forall e | Carried(s, e) ensures Carried(s', e) {
      CarriedStays(s, ch, e);
    }
    TracedCopies(s, ch);
    forall i | 0 <= i < |s'.rows| ensures TracedRow(s', s'.rows[i]) {
      assert TracedRow(s, s'.rows[i]);
    }
    forall j | 0 <= j < |s'.log| ensures TracedEntry(s', s'.log[j]) {
      assert TracedEntry(s, s'.log[j]);
    }
  }

  lemma {:induction false} TracedAlways(cfg: Config, run: seq<Step>)
    ensures Traced(Exec(cfg, INIT, run))
  {
    hide ChangeOf;
    if run != [] {
      var s := Exec(cfg, INIT, run[..|run| - 1]);
      LinkedAlways(cfg, run[..|run| - 1]);
      TracedAlways(cfg, run[..|run| - 1]);
      if Enabled(cfg, s, run[|run| - 1]) {
        StepIsLawful(cfg, s, run[|run| - 1]);
        StepTraces(cfg, s, run[|run| - 1]);
        TracedStep(s, ChangeOf(cfg, s, run[|run| - 1]));
      }
    }
  }

  /** End-to-end causality, over all runs: any row and any e-mail for an event the user
      service published goes to the address of exactly one committed user, as committed;
      and a commit has at most one event, hence at most one row, even when its publish
      reported an error after the broker had accepted it. */
  lemma {:induction false} RowsAndMailsTraceToOneCommit(cfg: Config, run: seq<Step>)
    ensures var s := Exec(cfg, INIT, run);
            && (forall i :: 0 <= i < |s.rows| && s.rows[i].eventId in s.minted ==>
                  && s.minted[s.rows[i].eventId] < |s.commits|
                  && s.rows[i].recipient == s.commits[s.minted[s.rows[i].eventId]].user.email)
            && (forall j :: 0 <= j < |s.log| && s.log[j].Mail? && s.log[j].e in s.minted ==>
                  && s.minted[s.log[j].e] < |s.commits|
                  && s.log[j].to == s.commits[s.minted[s.log[j].e]].user.email)
            && (forall i, j :: 0 <= i < j < |s.rows| && s.rows[i].eventId in s.minted && s.rows[j].eventId in s.minted ==>
                  s.minted[s.rows[i].eventId] != s.minted[s.rows[j].eventId])
  {
    TracedAlways(cfg, run);
    AtMostOneRowPerEvent(cfg, run);
    var s := Exec(cfg, INIT, run);
    assert forall i :: 0 <= i < |s.rows| ==> TracedRow(s, s.rows[i]);
    assert forall j :: 0 <= j < |s.log| ==> TracedEntry(s, s.log[j]);
  }
}
