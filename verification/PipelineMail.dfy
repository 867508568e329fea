/** How many e-mails an event can cause: an exact account of every one that went out, and
    the bound that makes "at most once" precise. */
module PipelineMail {
  import opened Counting
  import opened NotificationTable
  import opened Pipeline
  import opened PipelineSafety

  // ----- The account -----

  ghost function MailOf(e: EventId): Entry -> bool { (x: Entry) => x.Mail? && x.e == e }
  ghost function UnreportedOf(e: EventId): Entry -> bool { (x: Entry) => x.Mail? && x.e == e && !x.reported }
  ghost function ConflictOf(e: EventId): Entry -> bool { (x: Entry) => x.HitConflict? && x.e == e }
  ghost function LostInsertOf(e: EventId): Entry -> bool { (x: Entry) => x.LostInsert? && x.e == e }
  ghost function AbandonedOf(e: EventId): Entry -> bool { (x: Entry) => x.Abandoned? && x.e == e }
  ghost function AcceptedOf(e: EventId): Entry -> bool { (x: Entry) => x == Accepted(e) }
  ghost function ReturnedOf(e: EventId): Entry -> bool { (x: Entry) => x.Returned? && Carries(x.body, e) }
  ghost function SentRowOf(e: EventId): Row -> bool { (r: Row) => r.eventId == e && r.status == Sent }
  ghost function RecordingOf(e: EventId): Worker -> bool { (x: Worker) => x.pc == Recording && Carries(x.body, e) }

  /** E-mails that went out for e. */
  ghost function Mails(s: State, e: EventId): nat { Count(s.log, MailOf(e)) }

  /** What became of them: a row, a conflict, an insert that failed and left no row, a crash
      before the insert, an error reported although the mail went out, or still to be recorded. */
  ghost function Accounted(s: State, e: EventId): nat {
    Count(s.rows, SentRowOf(e)) + Count(s.log, ConflictOf(e)) + Count(s.log, LostInsertOf(e))
    + Count(s.log, AbandonedOf(e)) + Count(s.log, UnreportedOf(e)) + Count(s.workers, RecordingOf(e))
  }

  ghost predicate BalancedChange(s: State, ch: Change, e: EventId) {
    Gain(ch.entry, MailOf(e)) ==
      Gain(ch.row, SentRowOf(e)) + Gain(ch.entry, ConflictOf(e)) + Gain(ch.entry, LostInsertOf(e))
      + Gain(ch.entry, AbandonedOf(e)) + Gain(ch.entry, UnreportedOf(e)) + EditGain(s.workers, ch.worker, RecordingOf(e))
  }

  lemma StepBalances(cfg: Config, s: State, st: Step, e: EventId)
    requires Linked(s) && Enabled(cfg, s, st)
    ensures BalancedChange(s, ChangeOf(cfg, s, st), e)
  {
    hide Routed, Listening, RetriesIn, XDeath.RecordDeath;
  }

  lemma BalanceStep(s: State, ch: Change, e: EventId)
    requires BalancedChange(s, ch, e) && Mails(s, e) == Accounted(s, e)
    ensures Mails(Apply(s, ch), e) == Accounted(Apply(s, ch), e)
  {
    CountExtended(s.log, ch.entry, MailOf(e));
    CountExtended(s.rows, ch.row, SentRowOf(e));
    CountExtended(s.log, ch.entry, ConflictOf(e));
    CountExtended(s.log, ch.entry, LostInsertOf(e));
    CountExtended(s.log, ch.entry, AbandonedOf(e));
    CountExtended(s.log, ch.entry, UnreportedOf(e));
    CountEdited(s.workers, ch.worker, RecordingOf(e));
  }

  /** Every e-mail has exactly one fate, in every interleaving. */
  lemma {:induction false} EveryMailIsAccountedFor(cfg: Config, run: seq<Step>, e: EventId)
    ensures var s := Exec(cfg, INIT, run); Mails(s, e) == Accounted(s, e)
  {
    hide ChangeOf;
    if run != [] {
      var s := Exec(cfg, INIT, run[..|run| - 1]);
      LinkedAlways(cfg, run[..|run| - 1]);
      EveryMailIsAccountedFor(cfg, run[..|run| - 1], e);
      if Enabled(cfg, s, run[|run| - 1]) {
        StepBalances(cfg, s, run[|run| - 1], e);
        BalanceStep(s, ChangeOf(cfg, s, run[|run| - 1]), e);
      }
    }
  }

  // ----- The bound -----

  /** Whoever may yet cause an e-mail for e holds a token: the message while it is queued
      or waiting to retry, then the call it is delivered to. Once a row exists, only a call
      that has already passed its check keeps one. */
  ghost function CopyToken(s: State, e: EventId, c: nat): nat {
    One(c < |s.copies| && Carries(s.copies[c].body, e)
        && (s.copies[c].place == Main || s.copies[c].place == Retry)
        && !HasRow(s.rows, e))
  }

  ghost function WorkerToken(s: State, e: EventId, w: nat): nat {
    if w >= |s.workers| || !Carries(s.workers[w].body, e) then 0
    else match s.workers[w].pc
      case Sending => 1
      case Handling => One(!HasRow(s.rows, e))
      case FailedCall(_) => One(!HasRow(s.rows, e) && Holds(s, w))
      case Exhausted(_) => One(!HasRow(s.rows, e) && Holds(s, w))
      case Parking => One(!HasRow(s.rows, e) && Holds(s, w))
      case ParkFailed => One(!HasRow(s.rows, e) && Holds(s, w))
      case _ => 0
  }

  ghost function CopyTokens(s: State, e: EventId): nat -> nat { (c: nat) => CopyToken(s, e, c) }
  ghost function WorkerTokens(s: State, e: EventId): nat -> nat { (w: nat) => WorkerToken(s, e, w) }

  /** What puts tokens into play: an acceptance by the exchange, an insert that failed and
      left no row, a send error after the mail went out, and a redelivery of an unacked message. */
  ghost function Supply(s: State, e: EventId): nat {
    Count(s.log, AcceptedOf(e)) + Count(s.log, LostInsertOf(e))
    + Count(s.log, UnreportedOf(e)) + Count(s.log, ReturnedOf(e))
  }

  ghost function Tokens(s: State, e: EventId): nat {
    Total(|s.copies|, CopyTokens(s, e)) + Total(|s.workers|, WorkerTokens(s, e))
  }

  ghost function SupplyGain(ch: Change, e: EventId): nat {
    Gain(ch.entry, AcceptedOf(e)) + Gain(ch.entry, LostInsertOf(e))
    + Gain(ch.entry, UnreportedOf(e)) + Gain(ch.entry, ReturnedOf(e))
  }

  /** The step's own worker and message hand tokens on; they do not make any. */
  ghost predicate ThriftyChange(s: State, ch: Change, e: EventId) {
    var s' := Apply(s, ch);
    Gain(ch.entry, MailOf(e))
    + (if ch.worker.Put? then WorkerToken(s', e, ch.worker.at) else 0)
    + (if ch.copy.Put? then CopyToken(s', e, ch.copy.at) else 0)
    <= SupplyGain(ch, e)
    + (if ch.worker.Put? then WorkerToken(s, e, ch.worker.at) else 0)
    + (if ch.copy.Put? then CopyToken(s, e, ch.copy.at) else 0)
  }

  lemma RowAfter(s: State, ch: Change, e: EventId)
    ensures HasRow(Apply(s, ch).rows, e) <==> HasRow(s.rows, e) || (ch.row.Some? && ch.row.value.eventId == e)
  {
    if ch.row.Some? {
      HasRowSnoc(s.rows, ch.row.value, e);
    }
  }

  lemma MoveIsThrifty(cfg: Config, s: State, st: Step, e: EventId)
    requires Linked(s) && Enabled(cfg, s, st) && MovesMessage(st)
    ensures ThriftyChange(s, ChangeOf(cfg, s, st), e)
  {
    hide Listening, RetriesIn, XDeath.RecordDeath;
  }

  lemma ComingInIsThrifty(cfg: Config, s: State, st: Step, e: EventId)
    requires Enabled(cfg, s, st) && ComesIn(st)
    ensures ThriftyChange(s, ChangeOf(cfg, s, st), e)
  {
    hide Routed, Listening;
  }

  lemma CallIsThrifty(cfg: Config, s: State, st: Step, e: EventId)
    requires Linked(s) && Enabled(cfg, s, st) && (st.Check? || st.Send? || st.GiveUp?)
    ensures ThriftyChange(s, ChangeOf(cfg, s, st), e)
  {
    hide Listening, RetriesIn, XDeath.RecordDeath;
    var ch := ChangeOf(cfg, s, st);
    assert ch.copy.Keep? && ch.row.None? && ch.worker.Put? && ch.worker.at == st.w;
    assert Holds(Apply(s, ch), st.w) == Holds(s, st.w);
    assert ch.worker.value.body == s.workers[st.w].body;
  }

  lemma EndIsThrifty(cfg: Config, s: State, st: Step, e: EventId)
    requires Linked(s) && Enabled(cfg, s, st) && (st.Park? || st.Crash?)
    ensures ThriftyChange(s, ChangeOf(cfg, s, st), e)
  {
    hide Listening, RetriesIn, XDeath.RecordDeath;
  }

  lemma InsertIsThrifty(cfg: Config, s: State, st: Step, e: EventId)
    requires Linked(s) && Enabled(cfg, s, st) && (st.Record? || st.RecordFailure?)
    ensures ThriftyChange(s, ChangeOf(cfg, s, st), e)
  {
    hide Listening, RetriesIn, XDeath.RecordDeath;
    RowAfter(s, ChangeOf(cfg, s, st), e);
  }

  lemma StepIsThrifty(cfg: Config, s: State, st: Step, e: EventId)
    requires Linked(s) && Enabled(cfg, s, st)
    ensures ThriftyChange(s, ChangeOf(cfg, s, st), e)
  {
    if MovesMessage(st) {
      MoveIsThrifty(cfg, s, st, e);
    } else if st.Record? || st.RecordFailure? {
      InsertIsThrifty(cfg, s, st, e);
    } else if ComesIn(st) {
      ComingInIsThrifty(cfg, s, st, e);
    } else if st.Park? || st.Crash? {
      EndIsThrifty(cfg, s, st, e);
    } else {
      CallIsThrifty(cfg, s, st, e);
    }
  }

  lemma OthersGainNoToken(s: State, ch: Change, e: EventId)
    requires Linked(s) && Lawful(s, ch)
    ensures var s' := Apply(s, ch);
            && (forall w: nat :: w < |s.workers| && !(ch.worker.Put? && w == ch.worker.at) ==>
                  WorkerToken(s', e, w) <= WorkerToken(s, e, w))
            && (forall c: nat :: c < |s.copies| && !(ch.copy.Put? && c == ch.copy.at) ==>
                  CopyToken(s', e, c) <= CopyToken(s, e, c))
  {
    RowAfter(s, ch, e);
  }

  lemma NoTokenBeyond(s: State, e: EventId)
    ensures WorkerToken(s, e, |s.workers|) == 0 && CopyToken(s, e, |s.copies|) == 0
  {
  }

  /** The totals move by no more than the step's own worker and message do. */
  lemma WorkerTotalStep(s: State, ch: Change, e: EventId)
    requires Linked(s) && Lawful(s, ch)
    ensures var s' := Apply(s, ch);
            Total(|s'.workers|, WorkerTokens(s', e)) + (if ch.worker.Put? then WorkerToken(s, e, ch.worker.at) else 0)
            <= Total(|s.workers|, WorkerTokens(s, e)) + (if ch.worker.Put? then WorkerToken(s', e, ch.worker.at) else 0)
  {
    hide WorkerToken;
    OthersGainNoToken(s, ch, e);
    var s' := Apply(s, ch);
    if ch.worker.Put? && ch.worker.at < |s.workers| {
      TotalShift(|s.workers|, WorkerTokens(s, e), WorkerTokens(s', e), ch.worker.at);
    } else {
      TotalMono(|s.workers|, WorkerTokens(s, e), WorkerTokens(s', e));
      NoTokenBeyond(s, e);
    }
  }

  lemma CopyTotalStep(s: State, ch: Change, e: EventId)
    requires Linked(s) && Lawful(s, ch)
    ensures var s' := Apply(s, ch);
            Total(|s'.copies|, CopyTokens(s', e)) + (if ch.copy.Put? then CopyToken(s, e, ch.copy.at) else 0)
            <= Total(|s.copies|, CopyTokens(s, e)) + (if ch.copy.Put? then CopyToken(s', e, ch.copy.at) else 0)
  {
    hide CopyToken;
    OthersGainNoToken(s, ch, e);
    var s' := Apply(s, ch);
    if ch.copy.Put? && ch.copy.at < |s.copies| {
      TotalShift(|s.copies|, CopyTokens(s, e), CopyTokens(s', e), ch.copy.at);
    } else {
      TotalMono(|s.copies|, CopyTokens(s, e), CopyTokens(s', e));
      NoTokenBeyond(s, e);
    }
  }

  lemma TokensStep(s: State, ch: Change, e: EventId)
    requires Linked(s) && Lawful(s, ch) && ThriftyChange(s, ch, e)
    ensures Mails(Apply(s, ch), e) + Tokens(Apply(s, ch), e) + Supply(s, e)
         <= Mails(s, e) + Tokens(s, e) + Supply(Apply(s, ch), e)
  {
    hide WorkerToken;
    hide CopyToken;
    WorkerTotalStep(s, ch, e);
    CopyTotalStep(s, ch, e);
    CountExtended(s.log, ch.entry, MailOf(e));
    CountExtended(s.log, ch.entry, AcceptedOf(e));
    CountExtended(s.log, ch.entry, LostInsertOf(e));
    CountExtended(s.log, ch.entry, UnreportedOf(e));
    CountExtended(s.log, ch.entry, ReturnedOf(e));
  }

  lemma {:induction false} MailsNeverOutrunTokens(cfg: Config, run: seq<Step>, e: EventId)
    ensures var s := Exec(cfg, INIT, run); Mails(s, e) + Tokens(s, e) <= Supply(s, e)
  {
    hide ChangeOf;
    if run != [] {
      var s := Exec(cfg, INIT, run[..|run| - 1]);
      LinkedAlways(cfg, run[..|run| - 1]);
      MailsNeverOutrunTokens(cfg, run[..|run| - 1], e);
      if Enabled(cfg, s, run[|run| - 1]) {
        StepIsLawful(cfg, s, run[|run| - 1]);
        StepIsThrifty(cfg, s, run[|run| - 1], e);
        TokensStep(s, ChangeOf(cfg, s, run[|run| - 1]), e);
      }
    }
  }

  // ----- Published events -----

  /** What was queued is carried; a minted event is queued once if any message carries it, and
      never otherwise. */
  ghost predicate AcceptedOnce(s: State) {
    && (forall i :: 0 <= i < |s.log| && s.log[i].Accepted? ==> Carried(s, s.log[i].e))
    && (forall id :: id in s.minted ==> Count(s.log, AcceptedOf(id)) == One(Carried(s, id)))
  }

  ghost predicate AcceptingChange(s: State, ch: Change) {
    && (ch.entry.Some? && ch.entry.value.Accepted? ==>
          && ch.copy.Put? && ch.copy.at == |s.copies| && Carries(ch.copy.value.body, ch.entry.value.e)
          && ch.entry.value.e !in s.minted)
    && (ch.copy.Put? && ch.copy.at == |s.copies| && ch.copy.value.body.Event? ==>
          var e := ch.copy.value.body.env.eventId;
          Carried(s, e) || ch.entry == Some(Accepted(e)))
    && (ch.mint.Some? ==> !Carried(s, ch.mint.value.0))
  }

  lemma StepAccepts(cfg: Config, s: State, st: Step)
    requires Linked(s) && Enabled(cfg, s, st)
    ensures AcceptingChange(s, ChangeOf(cfg, s, st))
  {
    hide Routed, Listening, RetriesIn, XDeath.RecordDeath;
    if st.Park? {
      assert LinkedWorker(s, s.workers[st.w]);
      assert Carries(s.copies[s.workers[st.w].copy].body, s.workers[st.w].body.env.eventId);
    }
  }

  lemma NewlyCarried(s: State, ch: Change, e: EventId)
    requires Lawful(s, ch) && AcceptingChange(s, ch)
    ensures Carried(Apply(s, ch), e) <==> Carried(s, e) || ch.entry == Some(Accepted(e))
  {
    var s' := Apply(s, ch);
    if Carried(s, e) {
      CarriedStays(s, ch, e);
    }
    if ch.entry == Some(Accepted(e)) {
      assert Carries(s'.copies[|s.copies|].body, e);
    }
    if Carried(s', e) {
      var c :| 0 <= c < |s'.copies| && Carries(s'.copies[c].body, e);
      assert c < |s.copies| ==> Carries(s.copies[c].body, e);
    }
  }

  lemma AcceptedIsNew(s: State, ch: Change, id: EventId)
    requires AcceptedOnce(s) && AcceptingChange(s, ch) && id in Apply(s, ch).minted
    ensures ch.entry == Some(Accepted(id)) ==> !Carried(s, id)
    ensures Count(s.log, AcceptedOf(id)) == One(Carried(s, id))
  {
    if id !in s.minted {
      CountZero(s.log, AcceptedOf(id));
    }
  }

  lemma AcceptedOnceStep(s: State, ch: Change)
    requires Lawful(s, ch) && AcceptedOnce(s) && AcceptingChange(s, ch)
    ensures AcceptedOnce(Apply(s, ch))
  {
    hide Lawful, Carried, AcceptingChange;
    var s' := Apply(s, ch);
    forall e ensures Carried(s', e) <==> Carried(s, e) || ch.entry == Some(Accepted(e)) {
      NewlyCarried(s, ch, e);
    }
    forall i | 0 <= i < |s'.log| && s'.log[i].Accepted? ensures Carried(s', s'.log[i].e) {
      if i < |s.log| {
        assert Carried(s, s.log[i].e);
      }
    }
    forall id | id in s'.minted ensures Count(s'.log, AcceptedOf(id)) == One(Carried(s', id)) {
      CountExtended(s.log, ch.entry, AcceptedOf(id));
      AcceptedIsNew(s, ch, id);
    }
  }

  lemma {:induction false} AcceptedOnceAlways(cfg: Config, run: seq<Step>)
    ensures AcceptedOnce(Exec(cfg, INIT, run))
  {
    hide ChangeOf;
    if run != [] {
      var s := Exec(cfg, INIT, run[..|run| - 1]);
      LinkedAlways(cfg, run[..|run| - 1]);
      AcceptedOnceAlways(cfg, run[..|run| - 1]);
      if Enabled(cfg, s, run[|run| - 1]) {
        StepIsLawful(cfg, s, run[|run| - 1]);
        StepAccepts(cfg, s, run[|run| - 1]);
        AcceptedOnceStep(s, ChangeOf(cfg, s, run[|run| - 1]));
      }
    }
  }

  /** The at-most-once promise made precise. In every interleaving, with any number of
      consumers, a published event causes at most one e-mail plus one for each: redelivery of
      an unacked message, insert that failed and left no row, and send that reported an error
      after delivering. Crashes, failed checks, retries, failed parks and lost acks alone add
      none. */
  lemma {:induction false} PublishedEventMailBound(cfg: Config, run: seq<Step>, e: EventId)
    requires e in Exec(cfg, INIT, run).minted
    ensures var s := Exec(cfg, INIT, run);
            Mails(s, e) <= 1 + Count(s.log, ReturnedOf(e)) + Count(s.log, LostInsertOf(e)) + Count(s.log, UnreportedOf(e))
  {
    MailsNeverOutrunTokens(cfg, run, e);
    AcceptedOnceAlways(cfg, run);
  }

  // ----- Failed rows -----

  ghost predicate FailedInTable(s: State, e: EventId) {
    exists i :: 0 <= i < |s.rows| && s.rows[i].eventId == e && s.rows[i].status != Sent
  }

  lemma NoSentRow(s: State, e: EventId)
    requires UniqueEvents(s.rows) && FailedInTable(s, e)
    ensures Count(s.rows, SentRowOf(e)) == 0
  {
    var i :| 0 <= i < |s.rows| && s.rows[i].eventId == e && s.rows[i].status != Sent;
    forall j | 0 <= j < |s.rows| ensures !SentRowOf(e)(s.rows[j]) {
      if j < i {
        assert s.rows[j].eventId != s.rows[i].eventId;
      } else if i < j {
        assert s.rows[i].eventId != s.rows[j].eventId;
      }
    }
    CountZero(s.rows, SentRowOf(e));
  }

  /** Exactly when a "failed" row means what its comment says, that no e-mail was ever sent:
      no insert of a "sent" row conflicted or was lost, no crash fell between send and insert,
      no send failed after delivering, and none is about to be recorded. */
  lemma {:induction false} FailedRowMeansNoMail(cfg: Config, run: seq<Step>, e: EventId)
    requires FailedInTable(Exec(cfg, INIT, run), e)
    ensures var s := Exec(cfg, INIT, run);
            Mails(s, e) == 0 <==>
              && Count(s.log, ConflictOf(e)) == 0 && Count(s.log, LostInsertOf(e)) == 0
              && Count(s.log, AbandonedOf(e)) == 0 && Count(s.log, UnreportedOf(e)) == 0
              && Count(s.workers, RecordingOf(e)) == 0
  {
    hide Exec, Count, UniqueEvents, FailedInTable;
    EveryMailIsAccountedFor(cfg, run, e);
    AtMostOneRowPerEvent(cfg, run);
    NoSentRow(Exec(cfg, INIT, run), e);
  }

  // ----- Sent rows -----

  ghost predicate MailedTo(s: State, e: EventId, to: string) {
    exists i: nat, w: nat :: i < |s.log| && s.log[i] == Mail(w, e, to, true)
  }

  ghost predicate SentRowsBacked(s: State) {
    && (forall w :: 0 <= w < |s.workers| && s.workers[w].pc == Recording && s.workers[w].body.Event? ==>
          MailedTo(s, s.workers[w].body.env.eventId, EmailOf(s.workers[w].body)))
    && (forall i :: 0 <= i < |s.rows| && s.rows[i].status == Sent ==> MailedTo(s, s.rows[i].eventId, s.rows[i].recipient))
  }

  ghost predicate BackedChange(s: State, ch: Change) {
    && (ch.worker.Put? && ch.worker.value.pc == Recording && ch.worker.value.body.Event? ==>
          ch.entry == Some(Mail(ch.worker.at, ch.worker.value.body.env.eventId, EmailOf(ch.worker.value.body), true)))
    && (ch.row.Some? && ch.row.value.status == Sent ==> MailedTo(s, ch.row.value.eventId, ch.row.value.recipient))
  }

  lemma StepBacks(cfg: Config, s: State, st: Step)
    requires SentRowsBacked(s) && Enabled(cfg, s, st)
    ensures BackedChange(s, ChangeOf(cfg, s, st))
  {
    hide MailedTo;
  }

  lemma BackedStep(s: State, ch: Change)
    requires SentRowsBacked(s) && BackedChange(s, ch)
    ensures SentRowsBacked(Apply(s, ch))
  {
    var s' := Apply(s, ch);
    forall e, to | MailedTo(s, e, to) ensures MailedTo(s', e, to) {
      var i: nat, w: nat :| i < |s.log| && s.log[i] == Mail(w, e, to, true);
      assert s'.log[i] == Mail(w, e, to, true);
    }
    if ch.entry.Some? {
      assert s'.log[|s.log|] == ch.entry.value;
    }
  }

  /** A "sent" row implies an earlier Send to its recipient that returned nil. */
  lemma {:induction false} SentRowsAreBacked(cfg: Config, run: seq<Step>)
    ensures SentRowsBacked(Exec(cfg, INIT, run))
  {
    hide ChangeOf;
    if run != [] {
      var s := Exec(cfg, INIT, run[..|run| - 1]);
      SentRowsAreBacked(cfg, run[..|run| - 1]);
      if Enabled(cfg, s, run[|run| - 1]) {
        StepBacks(cfg, s, run[|run| - 1]);
        BackedStep(s, ChangeOf(cfg, s, run[|run| - 1]));
      }
    }
  }
}
