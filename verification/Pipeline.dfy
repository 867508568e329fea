/** The asynchronous notification pipeline as one step machine.

    A schedule is any sequence of steps; a step that is not enabled does nothing, so a
    statement about every schedule is a statement about every interleaving of the user
    service, the broker and any number of consumers, with every fault at every point. */
module Pipeline {
  import opened Counting
  import opened NotificationTable
  import Topology
  import XDeath

  // ----- Messages -----

  datatype Payload = Payload(userId: int, name: string, email: string)

  /** The JSON payload of an envelope: it decodes, or decoding fails having filled in
      (possibly) an e-mail address only. */
  datatype PayloadJson = Decodes(payload: Payload) | Garbled(partialEmail: string)

  datatype Envelope = Envelope(eventId: EventId, eventType: string, payload: PayloadJson)

  /** The body of a delivery: an envelope, or bytes that are not one. */
  datatype Body = Undecodable | Event(env: Envelope)

  /** Where a broker message is. Unacked carries the delivery tag. */
  datatype Place = Main | Unacked(tag: nat) | Retry | Dlq | Acked

  /** One broker message; a copy published to the DLQ is a message of its own. */
  datatype Copy = Copy(body: Body, deaths: seq<XDeath.Death>, place: Place)

  // ----- Handler calls -----

  /** Where a handler call stands, between two external effects. */
  datatype PC =
    | Handling                // delivered, nothing done yet
    | Sending                 // the exists-check found no row
    | Recording               // Send returned nil
    | Succeeded               // the handler returned nil, ack pending
    | FailedCall(why: Failure)    // the handler returned an error
    | Exhausted(why: Failure)     // no retries left, audit row pending
    | Parking                 // DLQ publish pending
    | Parked                  // DLQ publish returned nil, ack pending
    | ParkFailed              // DLQ publish returned an error, requeue pending
    | Finished

  /** One delivery being handled, working from the delivery as received. Its index among
      the workers is its delivery tag. `failed` remembers that the handler returned an error. */
  datatype Worker = Worker(copy: nat, body: Body, deaths: seq<XDeath.Death>, pc: PC, failed: bool)

  /** A committed user insert, and whether its one attempt to publish is over. */
  datatype Commit = Commit(user: Payload, published: bool)

  /** The history kept for the statements below; no step reads it. */
  datatype Entry =
    | Accepted(e: EventId)                         // the exchange accepted an event and queued it
    | Unroutable(e: EventId)                       // the exchange accepted an event no queue was bound for
    | Miss(w: nat, e: EventId)                     // an exists-check found no row
    | Mail(w: nat, e: EventId, to: string, reported: bool)  // an e-mail went out
    | Wrote(w: nat, e: EventId, status: Status)    // a row was committed
    | HitConflict(w: nat, e: EventId)              // a "sent" insert met an existing row
    | LostInsert(w: nat, e: EventId)               // a "sent" insert failed and left no row
    | Abandoned(w: nat, e: EventId)                // a crash between send and insert
    | Returned(c: nat, body: Body)                 // an unacked message went back to the queue
    | Requeued(c: nat)                             // a requeue after a failed park
    | ParkTried(e: EventId, park: ParkOutcome)     // a publish to the DLQ
    | Dropped(c: nat)                              // an undecodable delivery was acked

  datatype State = State(
    copies: seq<Copy>,
    workers: seq<Worker>,
    rows: seq<Row>,
    commits: seq<Commit>,
    minted: map<EventId, nat>,
    wiring: Topology.Wiring,
    log: seq<Entry>)

  datatype Config = Config(exchange: string, routingKey: string, queue: string, retryTTL: int, maxRetries: int)

  function SpecOf(cfg: Config): Topology.TopologySpec {
    Topology.TopologySpec(cfg.exchange, cfg.routingKey, cfg.queue, cfg.retryTTL)
  }

  const INIT := State([], [], [], [], map[], Topology.Wiring({}, map[], {}), [])

  // ----- Steps -----

  datatype SendOutcome = RenderError | Refused | DeliveredButErrored | Delivered

  datatype ParkOutcome = Stored | StoredButErrored | PublishError | LostSilently

  /** `heard` says whether the broker receives the ack or nack; `taken` whether the exchange
      took the event, and `reported` whether the publisher heard that it did; `broken` numbers
      the declaration the channel fails, if any. */
  datatype Step =
    | DeclareExchange
    | DeclareTopology(broken: nat)
    | CommitUser(user: Payload)
    | Publish(k: nat, id: EventId, taken: bool, reported: bool)
    | Inject(body: Body, key: string)
    | Deliver(c: nat)
    | Drop(w: nat, heard: bool)
    | Check(w: nat, dbError: bool)
    | Send(w: nat, mail: SendOutcome)
    | Record(w: nat, fault: DbFault)
    | Ack(w: nat, heard: bool)
    | Nack(w: nat, heard: bool)
    | GiveUp(w: nat)
    | RecordFailure(w: nat, fault: DbFault)
    | Park(w: nat, park: ParkOutcome)
    | Requeue(w: nat, heard: bool)
    | Expire(c: nat)
    | LoseConnection(c: nat)
    | Crash(w: nat)

  /** The retry count the consumer reads from this death record. */
  function RetriesIn(cfg: Config, deaths: seq<XDeath.Death>): int {
    XDeath.Retries(XDeath.HeaderOf(deaths), Topology.RetryQueueName(cfg.queue))
  }

  /** The retry decision of handle, from the headers of the delivery. */
  predicate RetriesLeft(cfg: Config, w: Worker) {
    RetriesIn(cfg, w.deaths) < cfg.maxRetries
  }

  predicate Carries(body: Body, e: EventId) {
    body.Event? && body.env.eventId == e
  }

  /** Is the consumer's queue bound for messages under this key? */
  predicate Routed(cfg: Config, s: State, key: string) {
    cfg.queue in Topology.Routes(s.wiring, cfg.exchange, key)
  }

  /** A service whose declarations failed does not start: the consumer listens on a complete
      topology, and the user service publishes on a declared exchange. */
  predicate Listening(cfg: Config, s: State) {
    Topology.Wired(s.wiring, SpecOf(cfg))
  }

  predicate Enabled(cfg: Config, s: State, st: Step) {
    match st
    case DeclareExchange => true
    case DeclareTopology(_) => true
    case CommitUser(_) => true
    // A fresh uuid: no other message carries it.
    case Publish(k, id, _, _) =>
      && k < |s.commits| && !s.commits[k].published
      && cfg.exchange in s.wiring.exchanges
      && id !in s.minted
      && (forall c :: 0 <= c < |s.copies| ==> !Carries(s.copies[c].body, id))
    // Anything else may arrive on the exchange, except a forged uuid.
    case Inject(body, _) => body.Event? ==> body.env.eventId !in s.minted
    case Deliver(c) => c < |s.copies| && s.copies[c].place == Main && Listening(cfg, s)
    case Drop(w, _) => w < |s.workers| && s.workers[w].pc == Handling && s.workers[w].body.Undecodable?
    case Check(w, _) => w < |s.workers| && s.workers[w].pc == Handling && s.workers[w].body.Event?
    case Send(w, _) => w < |s.workers| && s.workers[w].pc == Sending && s.workers[w].body.Event?
    case Record(w, _) => w < |s.workers| && s.workers[w].pc == Recording && s.workers[w].body.Event?
    case Ack(w, _) => w < |s.workers| && (s.workers[w].pc == Succeeded || s.workers[w].pc == Parked)
    case Nack(w, _) => w < |s.workers| && s.workers[w].pc.FailedCall? && RetriesLeft(cfg, s.workers[w])
    case GiveUp(w) => w < |s.workers| && s.workers[w].pc.FailedCall? && !RetriesLeft(cfg, s.workers[w])
    case RecordFailure(w, _) => w < |s.workers| && s.workers[w].pc.Exhausted? && s.workers[w].body.Event?
    case Park(w, _) => w < |s.workers| && s.workers[w].pc == Parking && s.workers[w].body.Event?
    case Requeue(w, _) => w < |s.workers| && s.workers[w].pc == ParkFailed
    case Expire(c) => c < |s.copies| && s.copies[c].place == Retry
    case LoseConnection(c) => c < |s.copies| && s.copies[c].place.Unacked?
    case Crash(w) => w < |s.workers| && s.workers[w].pc != Finished
  }

  // ----- Effects -----

  /** An element of a list replaced, or appended when `at` is the list's length. */
  datatype Edit<T> = Keep | Put(at: nat, value: T)

  function Edited<T>(xs: seq<T>, edit: Edit<T>): seq<T> {
    match edit
    case Keep => xs
    case Put(at, value) => if at < |xs| then xs[at := value] else if at == |xs| then xs + [value] else xs
  }

  function Extended<T>(xs: seq<T>, x: Option<T>): seq<T> {
    match x
    case None => xs
    case Some(value) => xs + [value]
  }

  /** All that one step changes. */
  datatype Change = Change(
    worker: Edit<Worker>,
    copy: Edit<Copy>,
    row: Option<Row>,
    entry: Option<Entry>,
    commit: Edit<Commit>,
    mint: Option<(EventId, nat)>,
    wiring: Option<Topology.Wiring>)

  const NO_CHANGE := Change(Keep, Keep, None, None, Keep, None, None)

  function Apply(s: State, ch: Change): State {
    State(
      Edited(s.copies, ch.copy),
      Edited(s.workers, ch.worker),
      Extended(s.rows, ch.row),
      Edited(s.commits, ch.commit),
      if ch.mint.Some? then s.minted[ch.mint.value.0 := ch.mint.value.1] else s.minted,
      if ch.wiring.Some? then ch.wiring.value else s.wiring,
      Extended(s.log, ch.entry))
  }

  function Goto(s: State, w: nat, pc: PC): Change
    requires w < |s.workers|
  {
    NO_CHANGE.(worker := Put(w, s.workers[w].(pc := pc)))
  }

  function Fail(s: State, w: nat, why: Failure): Change
    requires w < |s.workers|
  {
    NO_CHANGE.(worker := Put(w, s.workers[w].(pc := FailedCall(why), failed := true)))
  }

  /** The exchange takes a message: it goes to the consumer's queue if that is bound for its
      key, and nowhere otherwise. */
  function Arrive(cfg: Config, s: State, body: Body, key: string): Change {
    if Routed(cfg, s, key)
    then NO_CHANGE.(copy := Put(|s.copies|, Copy(body, [], Main)),
                   entry := if body.Event? then Some(Accepted(body.env.eventId)) else None)
    else NO_CHANGE.(entry := if body.Event? then Some(Unroutable(body.env.eventId)) else None)
  }

  function Move(s: State, c: nat, place: Place, deaths: seq<XDeath.Death>): Change
    requires c < |s.copies|
  {
    NO_CHANGE.(copy := Put(c, Copy(s.copies[c].body, deaths, place)))
  }

  /** Does the broker act on this worker's ack or nack? Not if the delivery tag is stale
      because the message has gone back to the queue. */
  predicate Holds(s: State, w: nat) {
    && w < |s.workers| && s.workers[w].copy < |s.copies|
    && s.copies[s.workers[w].copy].place == Unacked(w)
  }

  /** The call ends with an ack or nack, which moves the message if the broker hears it. */
  function Settle(s: State, w: nat, heard: bool, place: Place, deaths: seq<XDeath.Death>): Change
    requires w < |s.workers|
  {
    Goto(s, w, Finished).(copy := if heard && Holds(s, w) then Move(s, s.workers[w].copy, place, deaths).copy else Keep)
  }

  /** The address as the callbacks see it: whatever decoding left behind. */
  function EmailOf(body: Body): string
    requires body.Event?
  {
    match body.env.payload
    case Decodes(p) => p.email
    case Garbled(email) => email
  }

  function SentRow(body: Body): Row
    requires body.Event?
  {
    Row(body.env.eventId, USER_CREATED, EmailOf(body), Sent)
  }

  function FailedRow(body: Body, why: Failure): Row
    requires body.Event?
  {
    Row(body.env.eventId, body.env.eventType, EmailOf(body), Failed(why))
  }

  function DoCheck(s: State, w: nat, dbError: bool): Change
    requires w < |s.workers| && s.workers[w].body.Event?
  {
    var env := s.workers[w].body.env;
    if env.payload.Garbled? then Fail(s, w, BadPayload)
    else if dbError then Fail(s, w, CheckFailed)
    else if HasRow(s.rows, env.eventId) then Goto(s, w, Succeeded)
    else Goto(s, w, Sending).(entry := Some(Miss(w, env.eventId)))
  }

  function DoSend(s: State, w: nat, mail: SendOutcome): Change
    requires w < |s.workers| && s.workers[w].body.Event?
  {
    var e := s.workers[w].body.env.eventId;
    var to := EmailOf(s.workers[w].body);
    match mail
    case RenderError => Fail(s, w, NotRendered)
    case Refused => Fail(s, w, SendFailed)
    case DeliveredButErrored => Fail(s, w, SendFailed).(entry := Some(Mail(w, e, to, false)))
    case Delivered => Goto(s, w, Recording).(entry := Some(Mail(w, e, to, true)))
  }

  function DoRecord(s: State, w: nat, fault: DbFault): Change
    requires w < |s.workers| && s.workers[w].body.Event?
  {
    var row := SentRow(s.workers[w].body);
    if Commits(s.rows, row, fault) then
      (if Reply(s.rows, row, fault) == Created then Goto(s, w, Succeeded) else Fail(s, w, InsertFailed))
        .(row := Some(row), entry := Some(Wrote(w, row.eventId, Sent)))
    else if Reply(s.rows, row, fault) == Conflict then
      Goto(s, w, Succeeded).(entry := Some(HitConflict(w, row.eventId)))
    else
      Fail(s, w, InsertFailed).(entry := Some(LostInsert(w, row.eventId)))
  }

  /** The audit insert; its caller only logs an error. */
  function DoRecordFailure(s: State, w: nat, fault: DbFault): Change
    requires w < |s.workers| && s.workers[w].body.Event? && s.workers[w].pc.Exhausted?
  {
    var row := FailedRow(s.workers[w].body, s.workers[w].pc.why);
    if Commits(s.rows, row, fault)
    then Goto(s, w, Parking).(row := Some(row), entry := Some(Wrote(w, row.eventId, row.status)))
    else Goto(s, w, Parking)
  }

  function DoPark(s: State, w: nat, park: ParkOutcome): Change
    requires w < |s.workers| && s.workers[w].body.Event?
  {
    var body := s.workers[w].body;
    var stored := Put(|s.copies|, Copy(body, [], Dlq));
    Goto(s, w, if park == Stored || park == LostSilently then Parked else ParkFailed)
      .(copy := if park == Stored || park == StoredButErrored then stored else Keep,
        entry := Some(ParkTried(body.env.eventId, park)))
  }

  function ChangeOf(cfg: Config, s: State, st: Step): Change
    requires Enabled(cfg, s, st)
  {
    match st
    case DeclareExchange =>
      NO_CHANGE.(wiring := Some(s.wiring.(exchanges := s.wiring.exchanges + {cfg.exchange})))
    case DeclareTopology(broken) =>
      NO_CHANGE.(wiring := Some(Topology.Declared(s.wiring, SpecOf(cfg), Topology.Reached(s.wiring, SpecOf(cfg), broken))))
    case CommitUser(user) => NO_CHANGE.(commit := Put(|s.commits|, Commit(user, false)))
    case Publish(k, id, taken, _) =>
      var user := s.commits[k].user;
      (if taken then Arrive(cfg, s, Event(Envelope(id, USER_CREATED, Decodes(user))), USER_CREATED) else NO_CHANGE)
        .(commit := Put(k, Commit(user, true)), mint := Some((id, k)))
    case Inject(body, key) => Arrive(cfg, s, body, key)
    case Deliver(c) =>
      var copy := s.copies[c];
      Move(s, c, Unacked(|s.workers|), copy.deaths)
        .(worker := Put(|s.workers|, Worker(c, copy.body, copy.deaths, Handling, false)))
    case Drop(w, heard) => Settle(s, w, heard, Acked, s.workers[w].deaths).(entry := Some(Dropped(s.workers[w].copy)))
    case Check(w, dbError) => DoCheck(s, w, dbError)
    case Send(w, mail) => DoSend(s, w, mail)
    case Record(w, fault) => DoRecord(s, w, fault)
    case Ack(w, heard) => Settle(s, w, heard, Acked, s.workers[w].deaths)
    case Nack(w, heard) =>
      Settle(s, w, heard, Retry, XDeath.RecordDeath(s.workers[w].deaths, cfg.queue, XDeath.Rejected))
    case GiveUp(w) => Goto(s, w, Exhausted(s.workers[w].pc.why))
    case RecordFailure(w, fault) => DoRecordFailure(s, w, fault)
    case Park(w, park) => DoPark(s, w, park)
    case Requeue(w, heard) =>
      Settle(s, w, heard, Main, s.workers[w].deaths)
        .(entry := if heard && Holds(s, w) then Some(Requeued(s.workers[w].copy)) else None)
    case Expire(c) =>
      Move(s, c, Main, XDeath.RecordDeath(s.copies[c].deaths, Topology.RetryQueueName(cfg.queue), XDeath.Expired))
    case LoseConnection(c) =>
      Move(s, c, Main, s.copies[c].deaths).(entry := Some(Returned(c, s.copies[c].body)))
    case Crash(w) =>
      Goto(s, w, Finished).(entry :=
        if s.workers[w].pc == Recording && s.workers[w].body.Event?
        then Some(Abandoned(w, s.workers[w].body.env.eventId)) else None)
  }

  function Do(cfg: Config, s: State, st: Step): State {
    if Enabled(cfg, s, st) then Apply(s, ChangeOf(cfg, s, st)) else s
  }

  /** The state a schedule leads to. */
  function Exec(cfg: Config, s: State, run: seq<Step>): State {
    if run == [] then s
    else Do(cfg, Exec(cfg, s, run[..|run| - 1]), run[|run| - 1])
  }

  lemma ExecSnoc(cfg: Config, s: State, run: seq<Step>, st: Step)
    ensures Exec(cfg, s, run + [st]) == Do(cfg, Exec(cfg, s, run), st)
  {
    assert (run + [st])[..|run|] == run;
  }

  lemma {:induction false} ExecConcat(cfg: Config, s: State, first: seq<Step>, second: seq<Step>)
    ensures Exec(cfg, s, first + second) == Exec(cfg, Exec(cfg, s, first), second)
  {
    if second == [] {
      assert first + second == first;
    } else {
      var n := |second| - 1;
      assert (first + second)[..|first + second| - 1] == first + second[..n];
      ExecConcat(cfg, s, first, second[..n]);
    }
  }

  // ----- Counting across a step -----

  /** How an edit changes the number of elements satisfying p. */
  function EditGain<T>(xs: seq<T>, edit: Edit<T>, p: T -> bool): int {
    if edit.Keep? || edit.at > |xs| then 0
    else One(p(edit.value)) - if edit.at < |xs| then One(p(xs[edit.at])) else 0
  }

  function Gain<T>(x: Option<T>, p: T -> bool): nat {
    if x.Some? then One(p(x.value)) else 0
  }

  lemma CountEdited<T>(xs: seq<T>, edit: Edit<T>, p: T -> bool)
    ensures Count(Edited(xs, edit), p) == Count(xs, p) + EditGain(xs, edit, p)
  {
    if edit.Put? && edit.at < |xs| {
      CountUpdate(xs, edit.at, edit.value, p);
    } else if edit.Put? && edit.at == |xs| {
      CountSnoc(xs, edit.value, p);
    }
  }

  lemma CountExtended<T>(xs: seq<T>, x: Option<T>, p: T -> bool)
    ensures Count(Extended(xs, x), p) == Count(xs, p) + Gain(x, p)
  {
    if x.Some? {
      CountSnoc(xs, x.value, p);
    }
  }
}
