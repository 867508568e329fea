/** The consumer and the notification service as they are written: objects that read a table,
    send mail, insert a row, and ack, nack or republish a delivery. Every external call takes
    its outcome as a parameter, and each method is proved to take the pipeline exactly where
    the steps of the machine take it, whatever those outcomes are. */
module Consumer {
  import opened Counting
  import opened NotificationTable
  import opened Pipeline
  import XDeath

  /** What the environment does to the external calls of one handler call. `others` are the
      rows other consumers commit from this call's exists-check to the end of its sending, `late`
      those they commit between the handler's return and the settlement. */
  datatype Faults = Faults(
    checkError: bool, mail: SendOutcome, others: seq<Row>, insert: DbFault,
    late: seq<Row>, audit: DbFault, park: ParkOutcome, heard: bool)

  // ----- Outside the service -----

  class NotificationRepository {
    var rows: seq<Row>

    constructor ()
      ensures rows == []
    {
      rows := [];
    }

    /** Inserts by the other users of the table. */
    method OthersCommit(more: seq<Row>)
      modifies this
      ensures rows == old(rows) + more
    {
      rows := rows + more;
    }

    /** SELECT count(*) WHERE event_id = e, or None on a database error. */
    method ExistsByEventID(e: EventId, dbError: bool) returns (found: Option<bool>)
      ensures found == if dbError then None else Some(HasRow(rows, e))
    {
      if dbError {
        return None;
      }
      var count := 0;
      var i := 0;
      while i < |rows|
        invariant 0 <= i <= |rows|
        invariant 0 <= count
        invariant count > 0 <==> exists j :: 0 <= j < i && rows[j].eventId == e
      {
        if rows[i].eventId == e {
          count := count + 1;
        }
        i := i + 1;
      }
      found := Some(count > 0);
    }

    /** INSERT, reporting a unique violation as a conflict. */
    method Create(row: Row, fault: DbFault) returns (reply: InsertResult)
      modifies this
      ensures rows == RowsAfter(old(rows), row, fault) && reply == Reply(old(rows), row, fault)
      // no error means that the event has a row; no row is lost; one row per event is kept
      ensures reply != Internal ==> HasRow(rows, row.eventId)
      ensures old(rows) <= rows
      ensures UniqueEvents(old(rows)) ==> UniqueEvents(rows)
    {
      if fault == LostBeforeCommit {
        return Internal;
      }
      HasRowSnoc(rows, row, row.eventId);
      var taken := ExistsByEventID(row.eventId, false);
      if !taken.value {
        rows := rows + [row];
      }
      reply := if fault == LostAfterCommit then Internal else if taken.value then Conflict else Created;
    }
  }

  class Sender {
    /** Recipients of the e-mails that really went out. */
    var outbox: seq<string>

    constructor ()
      ensures outbox == []
    {
      outbox := [];
    }

    /** True if Send returns nil. */
    method Send(to: string, mail: SendOutcome) returns (ok: bool)
      modifies this
      ensures outbox == if mail == Delivered || mail == DeliveredButErrored then old(outbox) + [to] else old(outbox)
      ensures ok == (mail == Delivered)
    {
      if mail == Delivered || mail == DeliveredButErrored {
        outbox := outbox + [to];
      }
      ok := mail == Delivered;
    }
  }

  /** What became of a delivery: nothing the broker heard of, or one of the three settlements. */
  datatype Settlement = Unsettled | AckedBack | Rejected | PutBack

  class Delivery {
    const body: Body
    const headers: XDeath.Headers
    var settlement: Settlement

    constructor (body: Body, headers: XDeath.Headers)
      ensures this.body == body && this.headers == headers && settlement == Unsettled
    {
      this.body := body;
      this.headers := headers;
      settlement := Unsettled;
    }

    method Ack(heard: bool)
      modifies this
      ensures settlement == if heard then AckedBack else old(settlement)
    {
      if heard {
        settlement := AckedBack;
      }
    }

    method Nack(requeue: bool, heard: bool)
      modifies this
      ensures settlement == if !heard then old(settlement) else if requeue then PutBack else Rejected
    {
      if heard {
        settlement := if requeue then PutBack else Rejected;
      }
    }
  }

  class Channel {
    /** The parking queue. */
    var dlq: seq<Body>

    constructor ()
      ensures dlq == []
    {
      dlq := [];
    }

    /** Publish to the default exchange with the DLQ's name as key; true if it returns nil. */
    method PublishToDlq(body: Body, park: ParkOutcome) returns (ok: bool)
      modifies this
      ensures dlq == if park == Stored || park == StoredButErrored then old(dlq) + [body] else old(dlq)
      ensures ok == (park == Stored || park == LostSilently)
    {
      if park == Stored || park == StoredButErrored {
        dlq := dlq + [body];
      }
      ok := park == Stored || park == LostSilently;
    }
  }

  // ----- The notification service -----

  /** The call gets as far as inserting its "sent" row. */
  ghost predicate ReachesInsert(rows: seq<Row>, body: Body, f: Faults)
    requires body.Event?
  {
    body.env.payload.Decodes? && !f.checkError && !HasRow(rows, body.env.eventId) && f.mail == Delivered
  }

  /** The e-mail goes out, whatever is reported. */
  ghost predicate MailsOut(rows: seq<Row>, body: Body, f: Faults)
    requires body.Event?
  {
    && body.env.payload.Decodes? && !f.checkError && !HasRow(rows, body.env.eventId)
    && (f.mail == Delivered || f.mail == DeliveredButErrored)
  }

  /** The table once the handler has returned. */
  ghost function HandledRows(rows: seq<Row>, body: Body, f: Faults): seq<Row>
    requires body.Event?
  {
    if ReachesInsert(rows, body, f) then RowsAfter(rows + f.others, SentRow(body), f.insert) else rows + f.others
  }

  /** The error the handler returns, if any. A conflict on insert is success. */
  ghost function HandlerError(rows: seq<Row>, body: Body, f: Faults): Option<Failure>
    requires body.Event?
  {
    if body.env.payload.Garbled? then Some(BadPayload)
    else if f.checkError then Some(CheckFailed)
    else if HasRow(rows, body.env.eventId) then None
    else match f.mail
      case RenderError => Some(NotRendered)
      case Refused => Some(SendFailed)
      case DeliveredButErrored => Some(SendFailed)
      case Delivered => if f.insert == NoFault then None else Some(InsertFailed)
  }

  class NotificationService {
    const repo: NotificationRepository
    const sender: Sender

    constructor (repo: NotificationRepository, sender: Sender)
      ensures this.repo == repo && this.sender == sender
    {
      this.repo := repo;
      this.sender := sender;
    }

    method HandleUserCreated(eventId: EventId, payload: Payload, f: Faults) returns (err: Option<Failure>)
      modifies repo, sender
      ensures var body := Event(Envelope(eventId, USER_CREATED, Decodes(payload)));
              && repo.rows == HandledRows(old(repo.rows), body, f)
              && sender.outbox == old(sender.outbox) + (if MailsOut(old(repo.rows), body, f) then [payload.email] else [])
              && err == HandlerError(old(repo.rows), body, f)
      // path by path: what is reported, and the row that is written
      ensures var seen := HasRow(old(repo.rows), eventId);
              && (f.checkError ==> err == Some(CheckFailed))
              && (!f.checkError && seen ==> err == None)
              && (!f.checkError && !seen ==>
                    match f.mail
                    case RenderError => err == Some(NotRendered)
                    case Refused => err == Some(SendFailed)
                    case DeliveredButErrored => err == Some(SendFailed)
                    case Delivered => err == if f.insert == NoFault then None else Some(InsertFailed))
              && (!f.checkError && !seen && f.mail == Delivered && f.insert != LostBeforeCommit
                  && !HasRow(old(repo.rows) + f.others, eventId) ==>
                    repo.rows == old(repo.rows) + f.others + [Row(eventId, "user.created", payload.email, Sent)])
              && (f.checkError || seen || f.mail != Delivered ==> repo.rows == old(repo.rows) + f.others)
      // success is reported only for a recorded event
      ensures err.None? ==> HasRow(repo.rows, eventId)
      // one row per event stays one row per event, whoever else is inserting
      ensures UniqueEvents(old(repo.rows)) && UniqueEvents(old(repo.rows) + f.others) ==> UniqueEvents(repo.rows)
    {
      var found := repo.ExistsByEventID(eventId, f.checkError);
      HasRowExtends(repo.rows, f.others, eventId);
      repo.OthersCommit(f.others);
      if found.None? {
        return Some(CheckFailed);
      }
      if found.value {
        return None;
      }
      if f.mail == RenderError {
        return Some(NotRendered);
      }
      var sent := sender.Send(payload.email, f.mail);
      if !sent {
        return Some(SendFailed);
      }
      var row := Row(eventId, USER_CREATED, payload.email, Sent);
      HasRowSnoc(repo.rows, row, eventId);
      var reply := repo.Create(row, f.insert);
      if reply == Internal {
        return Some(InsertFailed);
      }
      return None;
    }

    /** The audit row; a conflict is not an error, and the caller only logs any other. */
    method RecordFailure(eventId: EventId, eventType: string, recipient: string, reason: Failure, f: Faults)
      returns (ok: bool)
      modifies repo
      ensures repo.rows == RowsAfter(old(repo.rows), Row(eventId, eventType, recipient, Failed(reason)), f.audit)
      ensures ok ==> HasRow(repo.rows, eventId)
      ensures UniqueEvents(old(repo.rows)) ==> UniqueEvents(repo.rows)
    {
      var row := Row(eventId, eventType, recipient, Failed(reason));
      HasRowSnoc(repo.rows, row, eventId);
      var reply := repo.Create(row, f.audit);
      ok := reply != Internal;
    }
  }

  // ----- The consumer -----

  /** The table, parking queue and settlement after a whole handler call. */
  ghost function CallRows(rows: seq<Row>, body: Body, f: Faults, giveUp: bool): seq<Row>
    requires body.Event?
  {
    var err := HandlerError(rows, body, f);
    if err.Some? && giveUp
    then RowsAfter(HandledRows(rows, body, f) + f.late, FailedRow(body, err.value), f.audit)
    else HandledRows(rows, body, f) + f.late
  }

  /** The settlement the consumer asks for. */
  ghost function CallVerdict(rows: seq<Row>, body: Body, f: Faults, giveUp: bool): Settlement
    requires body.Event?
  {
    if HandlerError(rows, body, f).None? then AckedBack
    else if !giveUp then Rejected
    else if f.park == Stored || f.park == LostSilently then AckedBack
    else PutBack
  }

  ghost predicate Parks(rows: seq<Row>, body: Body, f: Faults, giveUp: bool)
    requires body.Event?
  {
    HandlerError(rows, body, f).Some? && giveUp && (f.park == Stored || f.park == StoredButErrored)
  }

  class Consumer {
    const ch: Channel
    const service: NotificationService

    constructor (ch: Channel, service: NotificationService)
      ensures this.ch == ch && this.service == service
    {
      this.ch := ch;
      this.service := service;
    }

    /** The handler callback: decode the payload, then hand it to the service. */
    method HandleEvent(env: Envelope, f: Faults) returns (err: Option<Failure>)
      modifies service.repo, service.sender
      ensures var body := Event(env);
              && service.repo.rows == HandledRows(old(service.repo.rows), body, f)
              && service.sender.outbox
                 == old(service.sender.outbox)
                    + (if MailsOut(old(service.repo.rows), body, f) then [env.payload.payload.email] else [])
              && err == HandlerError(old(service.repo.rows), body, f)
      ensures err.None? ==> HasRow(service.repo.rows, env.eventId)
    {
      match env.payload
      case Garbled(_) =>
        service.repo.OthersCommit(f.others);
        return Some(BadPayload);
      case Decodes(payload) =>
        err := service.HandleUserCreated(env.eventId, payload, f);
    }

    /** The exhaustion callback: decode what can be decoded, and record the failure. */
    method RecordExhausted(env: Envelope, lastErr: Failure, f: Faults)
      modifies service.repo
      ensures service.repo.rows == RowsAfter(old(service.repo.rows), FailedRow(Event(env), lastErr), f.audit)
    {
      var email := if env.payload.Decodes? then env.payload.payload.email else env.payload.partialEmail;
      var _ := service.RecordFailure(env.eventId, env.eventType, email, lastErr, f);
    }

    /** Two steps that are not atomic: publish to the DLQ, then ack; requeue if the publish errs. */
    method ParkDelivery(d: Delivery, f: Faults)
      modifies d, ch
      ensures ch.dlq == if f.park == Stored || f.park == StoredButErrored then old(ch.dlq) + [d.body] else old(ch.dlq)
      ensures d.settlement
           == if !f.heard then old(d.settlement)
              else if f.park == Stored || f.park == LostSilently then AckedBack else PutBack
    {
      var ok := ch.PublishToDlq(d.body, f.park);
      if !ok {
        d.Nack(true, f.heard);
        return;
      }
      d.Ack(f.heard);
    }

    method Handle(queue: string, maxRetries: int, d: Delivery, f: Faults)
      requires d.settlement == Unsettled
      modifies d, ch, service.repo, service.sender
      ensures d.body.Undecodable? ==>
                && service.repo.rows == old(service.repo.rows) + f.others + f.late
                && service.sender.outbox == old(service.sender.outbox)
                && ch.dlq == old(ch.dlq) && d.settlement == if f.heard then AckedBack else Unsettled
      ensures d.body.Event? ==>
                var giveUp := XDeath.Retries(d.headers, Topology.RetryQueueName(queue)) >= maxRetries;
                var rows := old(service.repo.rows);
                && service.repo.rows == CallRows(rows, d.body, f, giveUp)
                && service.sender.outbox
                   == old(service.sender.outbox) + (if MailsOut(rows, d.body, f) then [EmailOf(d.body)] else [])
                && ch.dlq == (if Parks(rows, d.body, f, giveUp) then old(ch.dlq) + [d.body] else old(ch.dlq))
                && d.settlement == if f.heard then CallVerdict(rows, d.body, f, giveUp) else Unsettled
      // the audit row of an event whose e-mail could not be sent, or whose payload is no payload
      ensures d.body.Event? && XDeath.Retries(d.headers, queue + ".retry") >= maxRetries && f.audit == NoFault
              && !HasRow(old(service.repo.rows) + f.others + f.late, d.body.env.eventId) ==>
                var before, env := old(service.repo.rows) + f.others + f.late, d.body.env;
                && (env.payload.Garbled? ==>
                      service.repo.rows
                        == before + [Row(env.eventId, env.eventType, env.payload.partialEmail, Failed(BadPayload))])
                && (env.payload.Decodes? && !f.checkError && (f.mail == Refused || f.mail == DeliveredButErrored) ==>
                      service.repo.rows
                        == before + [Row(env.eventId, env.eventType, env.payload.payload.email, Failed(SendFailed))])
      // no row and no parked message is ever taken away
      ensures old(service.repo.rows) <= service.repo.rows && old(ch.dlq) <= ch.dlq
      // an event is acked only with a trace left, unless the park publish was silently lost
      ensures d.body.Event? && d.settlement == AckedBack ==>
                HasRow(service.repo.rows, d.body.env.eventId) || d.body in ch.dlq || f.park == LostSilently
    {
      if d.body.Undecodable? {
        service.repo.OthersCommit(f.others);
        service.repo.OthersCommit(f.late);
        d.Ack(f.heard);
        return;
      }
      var env := d.body.env;
      var err := HandleEvent(env, f);
      NoRowInPart(old(service.repo.rows), f.others + f.late, env.eventId);
      assert old(service.repo.rows) + f.others + f.late == old(service.repo.rows) + (f.others + f.late);
      HasRowExtends(service.repo.rows, f.late, env.eventId);
      service.repo.OthersCommit(f.late);
      if err.None? {
        d.Ack(f.heard);
        return;
      }
      var retries := XDeath.RetriesSoFar(d.headers, Topology.RetryQueueName(queue));
      if retries < maxRetries {
        d.Nack(false, f.heard);
        return;
      }
      RecordExhausted(env, err.value, f);
      ParkDelivery(d, f);
    }

    /** The delivery loop: `deliveries` are those that arrive before the channel closes. Each is
        settled exactly if the broker hears of it, and whatever became of the later ones, an
        event acked along the way has left its trace when the loop ends. */
    method Consume(queue: string, maxRetries: int, deliveries: seq<Delivery>, faults: seq<Faults>)
      requires |faults| == |deliveries|
      requires forall i :: 0 <= i < |deliveries| ==> deliveries[i].settlement == Unsettled
      requires forall i, j :: 0 <= i < j < |deliveries| ==> deliveries[i] != deliveries[j]
      modifies deliveries, ch, service.repo, service.sender
      ensures old(service.repo.rows) <= service.repo.rows && old(ch.dlq) <= ch.dlq
      ensures forall i :: 0 <= i < |deliveries| ==> (deliveries[i].settlement != Unsettled <==> faults[i].heard)
      ensures forall i :: 0 <= i < |deliveries| && deliveries[i].settlement == AckedBack && deliveries[i].body.Event? ==>
                || HasRow(service.repo.rows, deliveries[i].body.env.eventId)
                || deliveries[i].body in ch.dlq || faults[i].park == LostSilently
    {
      var n := 0;
      while n < |deliveries|
        invariant 0 <= n <= |deliveries|
        invariant old(service.repo.rows) <= service.repo.rows && old(ch.dlq) <= ch.dlq
        invariant forall i :: n <= i < |deliveries| ==> deliveries[i].settlement == Unsettled
        invariant forall i :: 0 <= i < n ==> (deliveries[i].settlement != Unsettled <==> faults[i].heard)
        invariant forall i :: 0 <= i < n && deliveries[i].settlement == AckedBack && deliveries[i].body.Event? ==>
                    || HasRow(service.repo.rows, deliveries[i].body.env.eventId)
                    || deliveries[i].body in ch.dlq || faults[i].park == LostSilently
      {
        Handle(queue, maxRetries, deliveries[n], faults[n]);
        n := n + 1;
      }
    }
  }

  // ----- A handler call in the machine -----

  /** The steps of a handler call up to the insert of its "sent" row; a step whose turn it is
      not does nothing. */
  ghost function FirstHalf(cfg: Config, s: State, w: nat, f: Faults): State {
    Do(cfg, Do(cfg, Do(cfg, s, Drop(w, f.heard)), Check(w, f.checkError)), Send(w, f.mail))
  }

  ghost function Decide(cfg: Config, s: State, w: nat, f: Faults): State {
    Do(cfg, Do(cfg, s, Nack(w, f.heard)), GiveUp(w))
  }

  ghost function WriteOff(cfg: Config, s: State, w: nat, f: Faults): State {
    Do(cfg, Do(cfg, s, RecordFailure(w, f.audit)), Park(w, f.park))
  }

  ghost function Close(cfg: Config, s: State, w: nat, f: Faults): State {
    Do(cfg, Do(cfg, s, Requeue(w, f.heard)), Ack(w, f.heard))
  }

  /** From the insert of the "sent" row to the decision to retry or give up. */
  ghost function Middle(cfg: Config, s: State, w: nat, f: Faults): State {
    Decide(cfg, Do(cfg, s, Record(w, f.insert)), w, f)
  }

  /** The rest of the call. */
  ghost function End(cfg: Config, s: State, w: nat, f: Faults): State {
    Close(cfg, WriteOff(cfg, s, w, f), w, f)
  }

  /** Call w, on this event, stands at pc, over this table. */
  ghost predicate Stands(s: State, w: nat, body: Body, deaths: seq<XDeath.Death>, pc: PC, rows: seq<Row>) {
    && w < |s.workers| && s.workers[w].pc == pc && s.workers[w].body == body && s.workers[w].deaths == deaths
    && body.Event? && s.rows == rows
  }

  function ResultPC(err: Option<Failure>): PC {
    if err.None? then Succeeded else FailedCall(err.value)
  }

  /** The broker's place for the message once the call has asked for this settlement. */
  function PlaceFor(verdict: Settlement, w: nat): Place {
    match verdict
    case Unsettled => Unacked(w)
    case AckedBack => Acked
    case Rejected => Retry
    case PutBack => Main
  }

  /** From s to s' only call w's own message may have moved, to `place` if the call holds it;
      `parked` says whether one DLQ message with the call's body was added. */
  ghost predicate Moved(s: State, s': State, w: nat, place: Place, parked: bool) {
    && w < |s.workers| && |s'.workers| == |s.workers| && s'.workers[w].copy == s.workers[w].copy
    && |s'.copies| == |s.copies| + One(parked)
    && (parked ==> s'.copies[|s.copies|].place == Dlq && s'.copies[|s.copies|].body == s.workers[w].body)
    && (forall c :: 0 <= c < |s.copies| && !(Holds(s, w) && c == s.workers[w].copy) ==> s'.copies[c] == s.copies[c])
    && (Holds(s, w) ==> s'.copies[s.workers[w].copy].place == place)
  }

  /** The e-mails of call w for event e to this address. */
  ghost function MailBy(w: nat, e: EventId, to: string): Entry -> bool {
    (x: Entry) => x.Mail? && x.w == w && x.e == e && x.to == to
  }

  ghost function MailsBy(s: State, w: nat, body: Body): nat
    requires body.Event?
  {
    Count(s.log, MailBy(w, body.env.eventId, EmailOf(body)))
  }

  /** What the first half leaves in the history. */
  ghost function FirstEntries(rows: seq<Row>, w: nat, body: Body, f: Faults): seq<Entry>
    requires body.Event?
  {
    var e := body.env.eventId;
    if body.env.payload.Garbled? || f.checkError || HasRow(rows, e) then []
    else if MailsOut(rows, body, f) then [Miss(w, e), Mail(w, e, EmailOf(body), f.mail == Delivered)]
    else [Miss(w, e)]
  }

  lemma FirstHalfMatches(cfg: Config, s: State, w: nat, body: Body, f: Faults)
    requires w < |s.workers| && Stands(s, w, body, s.workers[w].deaths, Handling, s.rows)
    ensures var s' := FirstHalf(cfg, s, w, f);
            && Stands(s', w, body, s.workers[w].deaths,
                      if ReachesInsert(s.rows, body, f) then Recording else ResultPC(HandlerError(s.rows, body, f)), s.rows)
            && Moved(s, s', w, Unacked(w), false)
            && s'.log == s.log + FirstEntries(s.rows, w, body, f)
  {
    hide Listening, Routed, RetriesIn, XDeath.RecordDeath;
  }

  lemma FirstHalfMails(s: State, s': State, w: nat, body: Body, f: Faults)
    requires body.Event? && s'.log == s.log + FirstEntries(s.rows, w, body, f)
    ensures MailsBy(s', w, body) == MailsBy(s, w, body) + One(MailsOut(s.rows, body, f))
  {
    var e, to := body.env.eventId, EmailOf(body);
    CountSnoc(s.log, Miss(w, e), MailBy(w, e, to));
    CountSnoc(s.log + [Miss(w, e)], Mail(w, e, to, f.mail == Delivered), MailBy(w, e, to));
    assert s.log + [Miss(w, e), Mail(w, e, to, f.mail == Delivered)]
        == s.log + [Miss(w, e)] + [Mail(w, e, to, f.mail == Delivered)];
    assert s.log + [] == s.log;
  }

  lemma OnlySendMails(cfg: Config, s: State, st: Step, w: nat, body: Body)
    requires body.Event? && !st.Send?
    ensures MailsBy(Do(cfg, s, st), w, body) == MailsBy(s, w, body)
  {
    hide Count, Routed, Listening, RetriesIn, XDeath.RecordDeath;
    if Enabled(cfg, s, st) {
      CountExtended(s.log, ChangeOf(cfg, s, st).entry, MailBy(w, body.env.eventId, EmailOf(body)));
    }
  }

  lemma RestSendsNothing(cfg: Config, s: State, w: nat, body: Body, f: Faults)
    requires body.Event?
    ensures MailsBy(Middle(cfg, s, w, f), w, body) == MailsBy(s, w, body)
    ensures MailsBy(End(cfg, s, w, f), w, body) == MailsBy(s, w, body)
  {
    hide Do, MailsBy;
    var recorded := Do(cfg, s, Record(w, f.insert));
    var nacked := Do(cfg, recorded, Nack(w, f.heard));
    OnlySendMails(cfg, s, Record(w, f.insert), w, body);
    OnlySendMails(cfg, recorded, Nack(w, f.heard), w, body);
    OnlySendMails(cfg, nacked, GiveUp(w), w, body);
    var audited := Do(cfg, s, RecordFailure(w, f.audit));
    var parked := Do(cfg, audited, Park(w, f.park));
    var requeued := Do(cfg, parked, Requeue(w, f.heard));
    OnlySendMails(cfg, s, RecordFailure(w, f.audit), w, body);
    OnlySendMails(cfg, audited, Park(w, f.park), w, body);
    OnlySendMails(cfg, parked, Requeue(w, f.heard), w, body);
    OnlySendMails(cfg, requeued, Ack(w, f.heard), w, body);
  }

  lemma RecordMatches(cfg: Config, s: State, w: nat, body: Body, deaths: seq<XDeath.Death>, pc: PC, f: Faults)
    requires Stands(s, w, body, deaths, pc, s.rows) && (pc == Recording || pc == Succeeded || pc.FailedCall?)
    ensures var s' := Do(cfg, s, Record(w, f.insert));
            && (pc == Recording ==>
                  Stands(s', w, body, deaths, if f.insert == NoFault then Succeeded else FailedCall(InsertFailed),
                         RowsAfter(s.rows, SentRow(body), f.insert)))
            && (pc != Recording ==> s' == s)
            && Moved(s, s', w, Unacked(w), false)
  {
  }

  lemma DecideMatches(cfg: Config, s: State, w: nat, body: Body, deaths: seq<XDeath.Death>, why: Failure, f: Faults)
    requires Stands(s, w, body, deaths, FailedCall(why), s.rows)
    ensures var s' := Decide(cfg, s, w, f);
            var giveUp := RetriesIn(cfg, deaths) >= cfg.maxRetries;
            && Stands(s', w, body, deaths, if giveUp then Exhausted(why) else Finished, s.rows)
            && Moved(s, s', w, if !giveUp && f.heard then Retry else Unacked(w), false)
  {
    hide RetriesIn, Listening, Routed;
  }

  lemma WriteOffMatches(cfg: Config, s: State, w: nat, body: Body, deaths: seq<XDeath.Death>, why: Failure, f: Faults)
    requires Stands(s, w, body, deaths, Exhausted(why), s.rows)
    ensures var s' := WriteOff(cfg, s, w, f);
            && Stands(s', w, body, deaths, if f.park == Stored || f.park == LostSilently then Parked else ParkFailed,
                      RowsAfter(s.rows, FailedRow(body, why), f.audit))
            && Moved(s, s', w, Unacked(w), f.park == Stored || f.park == StoredButErrored)
  {
    hide RetriesIn, Listening, Routed, XDeath.RecordDeath;
  }

  lemma CloseMatches(cfg: Config, s: State, w: nat, body: Body, deaths: seq<XDeath.Death>, pc: PC, f: Faults)
    requires Stands(s, w, body, deaths, pc, s.rows) && (pc == Succeeded || pc == Parked || pc == ParkFailed)
    ensures var s' := Close(cfg, s, w, f);
            && Stands(s', w, body, deaths, Finished, s.rows)
            && Moved(s, s', w, if !f.heard then Unacked(w) else if pc == ParkFailed then Main else Acked, false)
  {
    hide RetriesIn, Listening, Routed, XDeath.RecordDeath;
  }

  lemma MovedTwice(s: State, a: State, b: State, w: nat, place: Place, first: bool, second: bool)
    requires Moved(s, a, w, Unacked(w), first) && Moved(a, b, w, place, second) && !(first && second)
    requires second ==> a.workers[w].body == s.workers[w].body
    ensures Moved(s, b, w, place, first || second)
  {
    assert Holds(s, w) <==> Holds(a, w);
  }

  lemma IdleSteps(cfg: Config, s: State, w: nat, f: Faults)
    requires w < |s.workers| && (s.workers[w].pc == Succeeded || s.workers[w].pc == Finished)
    ensures Decide(cfg, s, w, f) == s && WriteOff(cfg, s, w, f) == s
    ensures s.workers[w].pc == Finished ==> Close(cfg, s, w, f) == s
  {
    hide ChangeOf, Apply, RetriesIn, Listening, Routed;
  }

  /** The middle of the call: the "sent" row, and the decision if the handler failed. */
  lemma MiddleMatches(cfg: Config, s: State, s2: State, w: nat, body: Body, deaths: seq<XDeath.Death>, f: Faults)
    requires body.Event?
    requires Stands(s2, w, body, deaths,
                    if ReachesInsert(s.rows, body, f) then Recording else ResultPC(HandlerError(s.rows, body, f)),
                    s.rows + f.others)
    ensures var s3 := Middle(cfg, s2, w, f);
            var err := HandlerError(s.rows, body, f);
            var giveUp := RetriesIn(cfg, deaths) >= cfg.maxRetries;
            && Stands(s3, w, body, deaths,
                      if err.None? then Succeeded else if giveUp then Exhausted(err.value) else Finished,
                      HandledRows(s.rows, body, f))
            && Moved(s2, s3, w, if err.Some? && !giveUp && f.heard then Retry else Unacked(w), false)
  {
    hide Do, Decide, RetriesIn;
    RecordMatches(cfg, s2, w, body, deaths, s2.workers[w].pc, f);
    var recorded := Do(cfg, s2, Record(w, f.insert));
    var err := HandlerError(s.rows, body, f);
    if err.None? {
      IdleSteps(cfg, recorded, w, f);
    } else {
      DecideMatches(cfg, recorded, w, body, deaths, err.value, f);
      MovedTwice(s2, recorded, Middle(cfg, s2, w, f), w,
                 if RetriesIn(cfg, deaths) < cfg.maxRetries && f.heard then Retry else Unacked(w), false, false);
    }
  }

  /** The end of a call that has given up. */
  lemma GivenUpMatches(cfg: Config, s: State, w: nat, body: Body, deaths: seq<XDeath.Death>, why: Failure, f: Faults)
    requires Stands(s, w, body, deaths, Exhausted(why), s.rows)
    ensures var s' := End(cfg, s, w, f);
            && Stands(s', w, body, deaths, Finished, RowsAfter(s.rows, FailedRow(body, why), f.audit))
            && Moved(s, s', w,
                     if !f.heard then Unacked(w) else if f.park == Stored || f.park == LostSilently then Acked else Main,
                     f.park == Stored || f.park == StoredButErrored)
  {
    hide Do, WriteOff, Close;
    WriteOffMatches(cfg, s, w, body, deaths, why, f);
    var parked := WriteOff(cfg, s, w, f);
    CloseMatches(cfg, parked, w, body, deaths, parked.workers[w].pc, f);
    MovedTwice(s, parked, End(cfg, s, w, f), w,
               if !f.heard then Unacked(w) else if parked.workers[w].pc == ParkFailed then Main else Acked,
               f.park == Stored || f.park == StoredButErrored, false);
  }

  lemma NotMoved(s: State, w: nat)
    requires w < |s.workers|
    ensures Moved(s, s, w, Unacked(w), false)
  {
  }

  lemma SucceededMatches(cfg: Config, s: State, w: nat, body: Body, deaths: seq<XDeath.Death>, f: Faults)
    requires Stands(s, w, body, deaths, Succeeded, s.rows)
    ensures var s' := End(cfg, s, w, f);
            && Stands(s', w, body, deaths, Finished, s.rows)
            && Moved(s, s', w, if !f.heard then Unacked(w) else Acked, false)
  {
    hide Do, Decide, WriteOff, Close;
    IdleSteps(cfg, s, w, f);
    CloseMatches(cfg, s, w, body, deaths, Succeeded, f);
  }

  lemma FinishedMatches(cfg: Config, s: State, w: nat, f: Faults)
    requires w < |s.workers| && s.workers[w].pc == Finished
    ensures End(cfg, s, w, f) == s && Moved(s, s, w, Unacked(w), false)
  {
    hide Do, Decide, WriteOff, Close;
    IdleSteps(cfg, s, w, f);
    NotMoved(s, w);
  }

  /** The consumer refines the machine. Wherever call w starts in the machine, over whatever
      table, with whatever faults, and whatever all other calls, the broker and the database do
      between its check and its "sent" row (s2) and between its return and its audit row or ack
      (s4), whether or not it inserts anything: the
      machine's steps for the call end it, leave the table that Handle leaves, send the e-mail
      that Handle sends and no other, move the message to where the settlement Handle asked for
      puts it if the call still holds it, and add a DLQ message exactly when Handle does. */
  lemma HandleRefinesMachine(cfg: Config, s: State, s2: State, s4: State, w: nat, body: Body, f: Faults)
    requires w < |s.workers| && Stands(s, w, body, s.workers[w].deaths, Handling, s.rows)
    requires w < |FirstHalf(cfg, s, w, f).workers|
    requires Stands(s2, w, body, s.workers[w].deaths, FirstHalf(cfg, s, w, f).workers[w].pc,
                    s.rows + f.others)
    requires w < |Middle(cfg, s2, w, f).workers|
    requires var s3 := Middle(cfg, s2, w, f);
             Stands(s4, w, body, s.workers[w].deaths, s3.workers[w].pc, s3.rows + f.late)
    ensures var s1, s3, s5 := FirstHalf(cfg, s, w, f), Middle(cfg, s2, w, f), End(cfg, s4, w, f);
            var giveUp := RetriesIn(cfg, s.workers[w].deaths) >= cfg.maxRetries;
            var verdict := if f.heard then CallVerdict(s.rows, body, f, giveUp) else Unsettled;
            && Stands(s5, w, body, s.workers[w].deaths, Finished, CallRows(s.rows, body, f, giveUp))
            && Moved(s2, s3, w, if verdict == Rejected then PlaceFor(verdict, w) else Unacked(w), false)
            && Moved(s4, s5, w, if verdict == Rejected then Unacked(w) else PlaceFor(verdict, w), Parks(s.rows, body, f, giveUp))
            && MailsBy(s1, w, body) == MailsBy(s, w, body) + One(MailsOut(s.rows, body, f))
            && MailsBy(s3, w, body) == MailsBy(s2, w, body) && MailsBy(s5, w, body) == MailsBy(s4, w, body)
  {
    hide Do, Decide, WriteOff, Close, RetriesIn, Moved, Middle, End, FirstHalf, MailsBy, RowsAfter;
    var deaths := s.workers[w].deaths;
    FirstHalfMatches(cfg, s, w, body, f);
    FirstHalfMails(s, FirstHalf(cfg, s, w, f), w, body, f);
    RestSendsNothing(cfg, s2, w, body, f);
    RestSendsNothing(cfg, s4, w, body, f);
    MiddleMatches(cfg, s, s2, w, body, deaths, f);
    var err := HandlerError(s.rows, body, f);
    if err.None? {
      SucceededMatches(cfg, s4, w, body, deaths, f);
    } else if RetriesIn(cfg, deaths) >= cfg.maxRetries {
      GivenUpMatches(cfg, s4, w, body, deaths, err.value, f);
    } else {
      FinishedMatches(cfg, s4, w, f);
    }
  }
}
