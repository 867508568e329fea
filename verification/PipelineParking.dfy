/** When a written-off event is really in the DLQ: the exact trace a park leaves, and the
    condition on the environment under which the promise of the code's comment holds. */
module PipelineParking {
  import opened Counting
  import opened NotificationTable
  import opened Pipeline
  import opened PipelineMail
  import opened PipelineProgress
  import opened PipelineRetries
  import opened PipelineSafety

  // ----- What is in the DLQ -----

  /** Some publish to the DLQ was stored, whatever its caller heard. */
  ghost predicate StoredInPark(s: State, e: EventId) {
    ParkTried(e, Stored) in s.log || ParkTried(e, StoredButErrored) in s.log
  }

  ghost predicate ParkingChange(s: State, ch: Change, e: EventId) {
    (ch.copy.Put? && ch.copy.at == |s.copies| && ch.copy.value.place == Dlq && Carries(ch.copy.value.body, e))
    <==> (ch.entry == Some(ParkTried(e, Stored)) || ch.entry == Some(ParkTried(e, StoredButErrored)))
  }

  lemma StepParksOrNot(cfg: Config, s: State, st: Step, e: EventId)
    requires Enabled(cfg, s, st)
    ensures ParkingChange(s, ChangeOf(cfg, s, st), e)
  {
    hide Routed, Listening, RetriesIn, XDeath.RecordDeath;
  }

  lemma ParkingStep(s: State, ch: Change, e: EventId)
    requires Lawful(s, ch) && ParkingChange(s, ch, e)
    requires InDlq(s, e) <==> StoredInPark(s, e)
    ensures InDlq(Apply(s, ch), e) <==> StoredInPark(Apply(s, ch), e)
  {
    var s' := Apply(s, ch);
    if InDlq(s, e) {
      var c :| 0 <= c < |s.copies| && s.copies[c].place == Dlq && Carries(s.copies[c].body, e);
      assert s'.copies[c].place == Dlq && Carries(s'.copies[c].body, e);
    }
    if InDlq(s', e) {
      var c :| 0 <= c < |s'.copies| && s'.copies[c].place == Dlq && Carries(s'.copies[c].body, e);
      assert c < |s.copies| ==> s.copies[c].place == Dlq && Carries(s.copies[c].body, e);
    }
    if ch.copy.Put? && ch.copy.at == |s.copies| {
      assert s'.copies[|s.copies|] == ch.copy.value;
    }
  }

  /** In every run, an event is in the DLQ if and only if some publish of it to the DLQ was
      stored: the branch on the publish error decides nothing about it. */
  lemma {:induction false} InDlqIffStored(cfg: Config, run: seq<Step>, e: EventId)
    ensures InDlq(Exec(cfg, INIT, run), e) <==> StoredInPark(Exec(cfg, INIT, run), e)
  {
    hide ChangeOf;
    if run != [] {
      var s := Exec(cfg, INIT, run[..|run| - 1]);
      LinkedAlways(cfg, run[..|run| - 1]);
      InDlqIffStored(cfg, run[..|run| - 1], e);
      if Enabled(cfg, s, run[|run| - 1]) {
        StepIsLawful(cfg, s, run[|run| - 1]);
        StepParksOrNot(cfg, s, run[|run| - 1], e);
        ParkingStep(s, ChangeOf(cfg, s, run[|run| - 1]), e);
      }
    }
  }

  // ----- Who holds a message -----

  /** Message c was never requeued after a failed park nor redelivered. */
  ghost predicate Undisturbed(s: State, c: nat) {
    forall i :: 0 <= i < |s.log| ==> s.log[i] != Requeued(c) && !(s.log[i].Returned? && s.log[i].c == c)
  }

  predicate PastAudit(pc: PC) { pc == Parking || pc == Parked || pc == ParkFailed || pc == Finished }

  ghost predicate Traceable(s: State, e: EventId) { InDlq(s, e) || LostInPark(s, e) }

  /** While a message is undisturbed, a call that is not over holds it. */
  ghost predicate Holding(s: State, w: nat)
    requires w < |s.workers|
  {
    var x := s.workers[w];
    && x.copy < |s.copies| && s.copies[x.copy].place != Dlq
    && (x.pc != Finished && Undisturbed(s, x.copy) ==> s.copies[x.copy].place == Unacked(w))
  }

  /** Call w wrote the "failed" row of e: while its message is undisturbed the call holds it past
      the audit, or has acked it and left a trace of the park. */
  ghost predicate Auditor(s: State, w: nat, e: EventId) {
    && w < |s.workers| && Carries(s.workers[w].body, e) && s.workers[w].copy < |s.copies|
    && (Undisturbed(s, s.workers[w].copy) ==>
          || (s.copies[s.workers[w].copy].place == Unacked(w) && PastAudit(s.workers[w].pc))
          || (s.copies[s.workers[w].copy].place == Acked && Traceable(s, e)))
  }

  ghost predicate Audited(s: State, e: EventId) {
    exists i :: 0 <= i < |s.log| && s.log[i].Wrote? && s.log[i].e == e && s.log[i].status != Sent
  }

  ghost predicate Held(s: State) {
    && (forall w :: 0 <= w < |s.workers| ==> Holding(s, w))
    && (forall i :: 0 <= i < |s.log| && s.log[i].Wrote? && s.log[i].status != Sent ==> Auditor(s, s.log[i].w, s.log[i].e))
    && (forall i :: 0 <= i < |s.rows| && s.rows[i].status != Sent ==> Audited(s, s.rows[i].eventId))
  }

  /** How a message leaves the hands of the call that holds it. */
  ghost predicate HandedOn(s: State, ch: Change, t: nat)
    requires ch.copy.Put?
  {
    || (ch.entry.Some? && ch.entry.value.Returned? && ch.entry.value.c == ch.copy.at)
    || (&& ch.worker.Put? && ch.worker.at == t < |s.workers| && ch.worker.value.pc == Finished
        && (PastAudit(s.workers[t].pc) ==>
              || (ch.copy.value.place == Acked && s.workers[t].pc == Parked)
              || ch.entry == Some(Requeued(ch.copy.at))))
  }

  ghost predicate HoldingChange(s: State, ch: Change) {
    && (ch.worker.Put? && ch.worker.at < |s.workers| ==>
          && s.workers[ch.worker.at].pc != Finished
          && (PastAudit(s.workers[ch.worker.at].pc) ==> PastAudit(ch.worker.value.pc)))
    && (ch.worker.Put? && ch.worker.at == |s.workers| ==>
          && ch.copy.Put? && ch.copy.at == ch.worker.value.copy < |s.copies|
          && s.copies[ch.copy.at].place == Main && ch.copy.value.place == Unacked(ch.worker.at))
    && (ch.copy.Put? && ch.copy.at < |s.copies| ==>
          match s.copies[ch.copy.at].place
          case Unacked(t) => HandedOn(s, ch, t)
          case _ => ch.copy.value.place != Acked)
    && (ch.entry.Some? && ch.entry.value.Wrote? && ch.entry.value.status != Sent ==>
          && ch.copy.Keep? && ch.worker.Put? && ch.worker.at == ch.entry.value.w < |s.workers|
          && Carries(ch.worker.value.body, ch.entry.value.e) && ch.worker.value.pc == Parking)
    && (ch.row.Some? && ch.row.value.status != Sent ==>
          ch.entry.Some? && ch.entry.value.Wrote? && ch.entry.value.e == ch.row.value.eventId && ch.entry.value.status != Sent)
  }

  lemma MoveHolds(cfg: Config, s: State, st: Step)
    requires Linked(s) && Enabled(cfg, s, st) && MovesMessage(st)
    ensures HoldingChange(s, ChangeOf(cfg, s, st))
  {
    hide Listening, RetriesIn, XDeath.RecordDeath;
  }

  lemma OtherHolds(cfg: Config, s: State, st: Step)
    requires Enabled(cfg, s, st) && !MovesMessage(st)
    ensures HoldingChange(s, ChangeOf(cfg, s, st))
  {
    hide Routed, Listening, RetriesIn;
  }

  lemma UndisturbedBefore(s: State, ch: Change, c: nat)
    requires Undisturbed(Apply(s, ch), c)
    ensures Undisturbed(s, c) && ch.entry != Some(Requeued(c))
    ensures !(ch.entry.Some? && ch.entry.value.Returned? && ch.entry.value.c == c)
  {
    var s' := Apply(s, ch);
    assert forall i :: 0 <= i < |s.log| ==> s'.log[i] == s.log[i];
    if ch.entry.Some? {
      assert s'.log[|s.log|] == ch.entry.value;
    }
  }

  lemma HoldingStep(s: State, ch: Change, w: nat)
    requires Linked(s) && Lawful(s, ch) && HoldingChange(s, ch)
    requires forall w :: 0 <= w < |s.workers| ==> Holding(s, w)
    requires w < |Apply(s, ch).workers|
    ensures Holding(Apply(s, ch), w)
  {
    hide Undisturbed;
    var s' := Apply(s, ch);
    var c := s'.workers[w].copy;
    if w < |s.workers| {
      assert Holding(s, w);
    }
    if s'.workers[w].pc != Finished && Undisturbed(s', c) {
      UndisturbedBefore(s, ch, c);
    }
  }

  lemma AuditorStep(cfg: Config, s: State, ch: Change, w: nat, e: EventId)
    requires Linked(s) && Lawful(s, ch) && HoldingChange(s, ch) && AcksExplained(cfg, s)
    requires Auditor(s, w, e)
    ensures Auditor(Apply(s, ch), w, e)
  {
    hide Undisturbed, InDlq, LostInPark;
    var s' := Apply(s, ch);
    var c := s.workers[w].copy;
    if Undisturbed(s', c) {
      UndisturbedBefore(s, ch, c);
      if Traceable(s, e) {
        ParkTraceStays(s, ch, e);
      }
      assert ParkedCall(s, s.workers[w]);
    }
  }

  lemma NewAuditor(s: State, ch: Change)
    requires Linked(s) && Lawful(s, ch) && HoldingChange(s, ch)
    requires forall w :: 0 <= w < |s.workers| ==> Holding(s, w)
    requires ch.entry.Some? && ch.entry.value.Wrote? && ch.entry.value.status != Sent
    ensures Auditor(Apply(s, ch), ch.entry.value.w, ch.entry.value.e)
  {
    hide Undisturbed, InDlq, LostInPark;
    HoldingStep(s, ch, ch.entry.value.w);
  }

  lemma HeldStep(cfg: Config, s: State, ch: Change)
    requires Linked(s) && Lawful(s, ch) && HoldingChange(s, ch) && AcksExplained(cfg, s) && Held(s)
    ensures Held(Apply(s, ch))
  {
    hide Holding, Auditor, Linked, Lawful, AcksExplained, InDlq;
    var s' := Apply(s, ch);
    forall w | 0 <= w < |s'.workers| ensures Holding(s', w) {
      HoldingStep(s, ch, w);
    }
    forall i | 0 <= i < |s'.log| && s'.log[i].Wrote? && s'.log[i].status != Sent
      ensures Auditor(s', s'.log[i].w, s'.log[i].e)
    {
      if i < |s.log| {
        assert s'.log[i] == s.log[i];
        AuditorStep(cfg, s, ch, s.log[i].w, s.log[i].e);
      } else {
        NewAuditor(s, ch);
      }
    }
    forall i | 0 <= i < |s'.rows| && s'.rows[i].status != Sent ensures Audited(s', s'.rows[i].eventId) {
      if i < |s.rows| {
        var j :| 0 <= j < |s.log| && s.log[j].Wrote? && s.log[j].e == s.rows[i].eventId && s.log[j].status != Sent;
        assert s'.log[j] == s.log[j];
      } else {
        assert s'.log[|s.log|] == ch.entry.value;
      }
    }
  }

  lemma {:induction false} HeldAlways(cfg: Config, run: seq<Step>)
    ensures Held(Exec(cfg, INIT, run))
  {
    hide ChangeOf, Enabled;
    if run != [] {
      var s := Exec(cfg, INIT, run[..|run| - 1]);
      var st := run[|run| - 1];
      LinkedAlways(cfg, run[..|run| - 1]);
      AcksAlwaysExplained(cfg, run[..|run| - 1]);
      HeldAlways(cfg, run[..|run| - 1]);
      if Enabled(cfg, s, st) {
        StepIsLawful(cfg, s, st);
        if MovesMessage(st) {
          MoveHolds(cfg, s, st);
        } else {
          OtherHolds(cfg, s, st);
        }
        HeldStep(cfg, s, ChangeOf(cfg, s, st));
      }
    }
  }

  // ----- The promise -----

  lemma NotCountedIsUndisturbed(s: State, c: nat)
    requires Count(s.log, RequeuedOf(c)) == 0 && Count(s.log, ReturnedFrom(c)) == 0
    ensures Undisturbed(s, c)
  {
    forall i | 0 <= i < |s.log| ensures s.log[i] != Requeued(c) && !(s.log[i].Returned? && s.log[i].c == c) {
      if s.log[i] == Requeued(c) {
        CountPositive(s.log, i, RequeuedOf(c));
      }
      if s.log[i].Returned? && s.log[i].c == c {
        CountPositive(s.log, i, ReturnedFrom(c));
      }
    }
  }

  /** The promise that a permanently failing message ends up in the DLQ, on a condition of the
      environment: if an acked event was written off with a "failed" row, it is in the DLQ, or its
      park publish was silently lost, unless its message was requeued after a failed park or
      redelivered, or the event travelled in another message besides. */
  lemma {:induction false} WrittenOffEventIsParked(cfg: Config, run: seq<Step>, c: nat, e: EventId)
    requires var s := Exec(cfg, INIT, run);
             && c < |s.copies| && Carries(s.copies[c].body, e) && s.copies[c].place == Acked
             && FailedInTable(s, e)
             && Count(s.log, RequeuedOf(c)) == 0 && Count(s.log, ReturnedFrom(c)) == 0
             && forall d :: 0 <= d < |s.copies| && s.copies[d].place != Dlq && Carries(s.copies[d].body, e) ==> d == c
    ensures InDlq(Exec(cfg, INIT, run), e) || LostInPark(Exec(cfg, INIT, run), e)
  {
    var s := Exec(cfg, INIT, run);
    HeldAlways(cfg, run);
    LinkedAlways(cfg, run);
    hide Exec;
    NotCountedIsUndisturbed(s, c);
    var r :| 0 <= r < |s.rows| && s.rows[r].eventId == e && s.rows[r].status != Sent;
    assert Audited(s, s.rows[r].eventId);
    var i :| 0 <= i < |s.log| && s.log[i].Wrote? && s.log[i].e == e && s.log[i].status != Sent;
    var w := s.log[i].w;
    assert Auditor(s, w, e) && Holding(s, w) && LinkedWorker(s, s.workers[w]);
    assert s.workers[w].copy == c;
  }

  // ----- Published events -----

  /** A published event travels in one message, beside its DLQ copies. */
  ghost predicate OneMessage(s: State) {
    forall id, c, d :: (id in s.minted && 0 <= c < |s.copies| && 0 <= d < |s.copies|
                        && s.copies[c].place != Dlq && s.copies[d].place != Dlq
                        && Carries(s.copies[c].body, id) && Carries(s.copies[d].body, id)) ==> c == d
  }

  ghost predicate FreshChange(s: State, ch: Change) {
    && (ch.copy.Put? && ch.copy.at == |s.copies| && ch.copy.value.place != Dlq && ch.copy.value.body.Event? ==>
          var e := ch.copy.value.body.env.eventId;
          e in Apply(s, ch).minted ==> !Carried(s, e))
    && (ch.mint.Some? ==> !Carried(s, ch.mint.value.0))
  }

  lemma StepIsFresh(cfg: Config, s: State, st: Step)
    requires Enabled(cfg, s, st)
    ensures FreshChange(s, ChangeOf(cfg, s, st))
  {
    hide Routed, Listening, RetriesIn, XDeath.RecordDeath;
  }

  lemma OneMessageStep(s: State, ch: Change)
    requires Lawful(s, ch) && FreshChange(s, ch) && OneMessage(s)
    ensures OneMessage(Apply(s, ch))
  {
    var s' := Apply(s, ch);
    forall id, c, d | (id in s'.minted && 0 <= c < |s'.copies| && 0 <= d < |s'.copies|
                       && s'.copies[c].place != Dlq && s'.copies[d].place != Dlq
                       && Carries(s'.copies[c].body, id) && Carries(s'.copies[d].body, id))
      ensures c == d
    {
      assert c < |s.copies| ==> Carries(s.copies[c].body, id);
      assert d < |s.copies| ==> Carries(s.copies[d].body, id);
    }
  }

  lemma {:induction false} OneMessageAlways(cfg: Config, run: seq<Step>)
    ensures OneMessage(Exec(cfg, INIT, run))
  {
    hide ChangeOf;
    if run != [] {
      var s := Exec(cfg, INIT, run[..|run| - 1]);
      LinkedAlways(cfg, run[..|run| - 1]);
      OneMessageAlways(cfg, run[..|run| - 1]);
      if Enabled(cfg, s, run[|run| - 1]) {
        StepIsLawful(cfg, s, run[|run| - 1]);
        StepIsFresh(cfg, s, run[|run| - 1]);
        OneMessageStep(s, ChangeOf(cfg, s, run[|run| - 1]));
      }
    }
  }

  /** For an event the user service published the condition is about its one message: written off
      and acked, never requeued and never redelivered, it is in the DLQ or its park was silently
      lost; and it is in the DLQ if and only if a park publish was stored. */
  lemma {:induction false} WrittenOffPublishedEventIsParked(cfg: Config, run: seq<Step>, c: nat, e: EventId)
    requires var s := Exec(cfg, INIT, run);
             && e in s.minted && FailedInTable(s, e)
             && c < |s.copies| && Carries(s.copies[c].body, e) && s.copies[c].place == Acked
             && Count(s.log, RequeuedOf(c)) == 0 && Count(s.log, ReturnedFrom(c)) == 0
    ensures var s := Exec(cfg, INIT, run);
            && (InDlq(s, e) <==> StoredInPark(s, e))
            && (StoredInPark(s, e) || LostInPark(s, e))
  {
    OneMessageAlways(cfg, run);
    WrittenOffEventIsParked(cfg, run, c, e);
    InDlqIffStored(cfg, run, e);
  }
}
