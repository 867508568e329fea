/** The user service: check-then-insert and check-then-update over a table with a unique
    e-mail column, and the event published after a committed insert. */
module Users {
  import opened Counting

  datatype User = User(id: int, name: string, email: string, password: string)

  datatype Result = Ok(user: User) | Conflict | NotFound | Internal

  /** A statement may fail before it takes effect, or its reply may be lost afterwards. */
  datatype DbFault = NoFault | FailedBefore | FailedAfter

  // ----- The users table -----

  /** Rows by id, and the next value of the id sequence. */
  datatype Table = Table(rows: map<int, User>, nextId: int)

  /** Every row sits under its id, below the sequence, and no two share an e-mail. */
  ghost predicate Valid(t: Table) {
    && (forall id :: id in t.rows ==> t.rows[id].id == id && id < t.nextId)
    && (forall a, b :: a in t.rows && b in t.rows && t.rows[a].email == t.rows[b].email ==> a == b)
  }

  predicate Taken(t: Table, email: string) {
    exists id :: id in t.rows && t.rows[id].email == email
  }

  predicate TakenByOther(t: Table, id: int, email: string) {
    exists other :: other in t.rows && other != id && t.rows[other].email == email
  }

  /** INSERT: the sequence advances even when the unique constraint refuses the row. */
  function Inserted(t: Table, u: User): Table {
    if Taken(t, u.email) then t.(nextId := t.nextId + 1)
    else Table(t.rows[t.nextId := u.(id := t.nextId)], t.nextId + 1)
  }

  /** What an UPDATE built from a struct writes: GORM leaves out fields with zero values. */
  function Merged(current: User, u: User): User {
    User(current.id,
         if u.name == "" then current.name else u.name,
         if u.email == "" then current.email else u.email,
         if u.password == "" then current.password else u.password)
  }

  function UpdateReply(t: Table, id: int, u: User): Result {
    if id !in t.rows then NotFound
    else if TakenByOther(t, id, Merged(t.rows[id], u).email) then Conflict
    else Ok(u)
  }

  function Updated(t: Table, id: int, u: User): Table {
    if UpdateReply(t, id, u).Ok? then t.(rows := t.rows[id := Merged(t.rows[id], u)]) else t
  }

  // ----- Uniqueness in every interleaving -----

  /** A statement of any session against the table. Pre-checks only read it, and a transaction
      takes effect as its one UPDATE, so every interleaving of service calls is a sequence of these. */
  datatype Statement = Insert(u: User) | Update(id: int, u: User) | Delete(id: int)

  function Run(t: Table, st: Statement): Table {
    match st
    case Insert(u) => Inserted(t, u)
    case Update(id, u) => Updated(t, id, u)
    case Delete(id) => t.(rows := t.rows - {id})
  }

  function RunAll(t: Table, statements: seq<Statement>): Table {
    if statements == [] then t else Run(RunAll(t, statements[..|statements| - 1]), statements[|statements| - 1])
  }

  lemma UpdateKeepsValid(t: Table, id: int, u: User)
    requires Valid(t)
    ensures Valid(Updated(t, id, u))
  {
    var t' := Updated(t, id, u);
    if UpdateReply(t, id, u).Ok? {
      assert t'.rows.Keys == t.rows.Keys;
      forall a, b | a in t'.rows && b in t'.rows && t'.rows[a].email == t'.rows[b].email ensures a == b {
        assert !(a != id && t.rows[a].email == t'.rows[id].email);
        assert !(b != id && t.rows[b].email == t'.rows[id].email);
      }
    }
  }

  /** E-mails stay unique whatever the sessions do, pre-checks or not. */
  lemma {:induction false} EmailsStayUnique(t: Table, statements: seq<Statement>)
    requires Valid(t)
    ensures Valid(RunAll(t, statements))
  {
    if statements != [] {
      var n := |statements| - 1;
      EmailsStayUnique(t, statements[..n]);
      if statements[n].Update? {
        UpdateKeepsValid(RunAll(t, statements[..n]), statements[n].id, statements[n].u);
      }
    }
  }

  // ----- The event -----

  /** How a publish in confirm mode can end; only Confirmed is reported as success. */
  datatype PublishOutcome = Confirmed | Nacked | PublishErrored(accepted: bool) | WaitErrored(accepted: bool)

  datatype Event = Event(eventId: string, userId: int, name: string, email: string)

  class EventPublisher {
    /** Events the broker has accepted. */
    var accepted: seq<Event>

    constructor ()
      ensures accepted == []
    {
      accepted := [];
    }

    /** Stamps the payload with a fresh event id and publishes it. */
    method PublishUserCreated(u: User, eventId: string, outcome: PublishOutcome) returns (ok: bool)
      modifies this
      ensures ok == outcome.Confirmed?
      ensures accepted ==
                if outcome.Confirmed? || ((outcome.PublishErrored? || outcome.WaitErrored?) && outcome.accepted)
                then old(accepted) + [Event(eventId, u.id, u.name, u.email)] else old(accepted)
      ensures ok ==> |accepted| == |old(accepted)| + 1
    {
      match outcome
      case Confirmed =>
        accepted := accepted + [Event(eventId, u.id, u.name, u.email)];
        return true;
      case Nacked =>
        return false;
      case PublishErrored(got) =>
        if got { accepted := accepted + [Event(eventId, u.id, u.name, u.email)]; }
        return false;
      case WaitErrored(got) =>
        if got { accepted := accepted + [Event(eventId, u.id, u.name, u.email)]; }
        return false;
    }
  }

  // ----- The repository and the service -----

  class UserRepository {
    var table: Table

    constructor ()
      ensures table == Table(map[], 1) && Valid(table)
    {
      table := Table(map[], 1);
    }

    /** Statements other sessions get in. */
    method OthersRun(statements: seq<Statement>)
      modifies this
      ensures table == RunAll(old(table), statements)
    {
      table := RunAll(table, statements);
    }

    method Create(u: User, fault: DbFault) returns (r: Result)
      modifies this
      ensures table == if fault == FailedBefore then old(table) else Inserted(old(table), u)
      ensures r == if fault != NoFault then Internal
                   else if Taken(old(table), u.email) then Conflict else Ok(u.(id := old(table).nextId))
      // someone has the e-mail afterwards, nobody has lost a row, and uniqueness is kept
      ensures r.Ok? || r.Conflict? ==> Taken(table, u.email)
      ensures forall id :: id in old(table).rows && Valid(old(table)) ==>
                id in table.rows && table.rows[id] == old(table).rows[id]
      ensures Valid(old(table)) ==> Valid(table)
    {
      r := if fault != NoFault then Internal
           else if Taken(table, u.email) then Conflict else Ok(u.(id := table.nextId));
      if fault != FailedBefore {
        if Taken(table, u.email) {
          table := table.(nextId := table.nextId + 1);
        } else {
          table := Table(table.rows[table.nextId := u.(id := table.nextId)], table.nextId + 1);
          assert table.rows[table.nextId - 1].email == u.email;
        }
      }
    }

    method ExistsByEmail(email: string, error: bool) returns (found: Option<bool>)
      ensures found == if error then None else Some(Taken(table, email))
    {
      found := if error then None else Some(Taken(table, email));
    }

    method GetByID(id: int, error: bool) returns (r: Result)
      ensures r == if error then Internal else if id in table.rows then Ok(table.rows[id]) else NotFound
    {
      r := if error then Internal else if id in table.rows then Ok(table.rows[id]) else NotFound;
    }

    method Update(id: int, u: User, fault: DbFault) returns (r: Result)
      modifies this
      ensures table == if fault == FailedBefore then old(table) else Updated(old(table), id, u)
      ensures r == if fault != NoFault then Internal else UpdateReply(old(table), id, u)
      // no other row changes, none appears or goes, and uniqueness is kept
      ensures table.rows.Keys == old(table).rows.Keys
      ensures forall other :: other in table.rows && other != id ==> table.rows[other] == old(table).rows[other]
      ensures Valid(old(table)) ==> Valid(table)
    {
      if Valid(table) {
        UpdateKeepsValid(table, id, u);
      }
      if fault == FailedBefore {
        return Internal;
      }
      if id !in table.rows {
        r := NotFound;
      } else {
        var merged := Merged(table.rows[id], u);
        if TakenByOther(table, id, merged.email) {
          r := Conflict;
        } else {
          table := table.(rows := table.rows[id := merged]);
          r := Ok(u);
        }
      }
      if fault == FailedAfter {
        r := Internal;
      }
    }

    method Delete(id: int, fault: DbFault) returns (r: Result)
      modifies this
      ensures table == if fault == FailedBefore then old(table) else old(table).(rows := old(table).rows - {id})
      ensures r == if fault != NoFault then Internal
                   else if id in old(table).rows then Ok(old(table).rows[id]) else NotFound
      // the row is gone unless an error is reported, no other changes, and uniqueness is kept
      ensures r.Ok? || r.NotFound? ==> id !in table.rows
      ensures forall other :: other in old(table).rows && other != id ==>
                other in table.rows && table.rows[other] == old(table).rows[other]
      ensures Valid(old(table)) ==> Valid(table)
    {
      r := if fault != NoFault then Internal else if id in table.rows then Ok(table.rows[id]) else NotFound;
      if fault != FailedBefore {
        table := table.(rows := table.rows - {id});
      }
    }
  }

  /** The reply of a create or an update whose pre-checks and statement meet no fault. */
  function CreateReply(t: Table, u: User): Result {
    if Taken(t, u.email) then Conflict else Ok(u.(id := t.nextId))
  }

  datatype UpdateUserRequest = UpdateUserRequest(name: string, email: string)

  /** All fields required: what validation guarantees of a request that reaches the service. */
  predicate Complete(req: UpdateUserRequest) { req.name != "" && req.email != "" }

  /** What the fetched row is changed to before it is written back. */
  function Requested(current: User, req: UpdateUserRequest): User {
    current.(name := req.name, email := req.email)
  }

  /** The table holds no change but those of other sessions. */
  ghost predicate LeftByOthers(was: Table, early: seq<Statement>, others: seq<Statement>, t: Table) {
    t == was || t == RunAll(was, early) || t == RunAll(RunAll(was, early), others)
  }

  /** The service's Update, run alone: pre-check, then the constraint. */
  function CheckedUpdateReply(t: Table, id: int, req: UpdateUserRequest): Result {
    if id !in t.rows then NotFound
    else if req.email != t.rows[id].email && Taken(t, req.email) then Conflict
    else UpdateReply(t, id, Requested(t.rows[id], req))
  }

  function CheckedUpdate(t: Table, id: int, req: UpdateUserRequest): Table {
    if CheckedUpdateReply(t, id, req).Ok? then Updated(t, id, Requested(t.rows[id], req)) else t
  }

  class UserService {
    const repo: UserRepository
    const publisher: EventPublisher

    constructor (repo: UserRepository, publisher: EventPublisher)
      ensures this.repo == repo && this.publisher == publisher
    {
      this.repo := repo;
      this.publisher := publisher;
    }

    /** Insert, then publish, best effort. */
    method CreateAndPublish(u: User, fault: DbFault, eventId: string, publish: PublishOutcome) returns (r: Result)
      requires Valid(repo.table)
      modifies repo, publisher
      ensures Valid(repo.table)
      ensures repo.table == if fault == FailedBefore then old(repo.table) else Inserted(old(repo.table), u)
      // the answer is the insert's: how the publish ends never fails the request
      ensures r == if fault != NoFault then Internal else CreateReply(old(repo.table), u)
      // no event without a committed row, and at most one, bearing that row as inserted
      ensures publisher.accepted == old(publisher.accepted)
              || (r.Ok? && publisher.accepted == old(publisher.accepted) + [Event(eventId, r.user.id, r.user.name, r.user.email)]
                  && r.user.id in repo.table.rows && r.user.id !in old(repo.table).rows
                  && repo.table.rows[r.user.id] == r.user)
      // a confirmed publish has left exactly one event
      ensures r.Ok? && publish.Confirmed? ==> |publisher.accepted| == |old(publisher.accepted)| + 1
    {
      r := repo.Create(u, fault);
      if !r.Ok? {
        return;
      }
      var _ := publisher.PublishUserCreated(r.user, eventId, publish);
    }

    /** The HTTP path: pre-check, then insert and publish. `others` are the statements other
        sessions get in between. */
    method Create(name: string, email: string, checkError: bool, others: seq<Statement>, fault: DbFault,
                  eventId: string, publish: PublishOutcome) returns (r: Result)
      requires Valid(repo.table)
      modifies repo, publisher
      ensures Valid(repo.table)
      ensures checkError ==> r == Internal
      ensures !checkError && Taken(old(repo.table), email) ==> r == Conflict
      ensures checkError || Taken(old(repo.table), email) ==>
                repo.table == old(repo.table) && publisher.accepted == old(publisher.accepted)
      // past the pre-check the constraint decides, on the table as it then is
      ensures !checkError && !Taken(old(repo.table), email) ==>
                var t := RunAll(old(repo.table), others);
                var u := User(0, name, email, "");
                && r == (if fault != NoFault then Internal else CreateReply(t, u))
                && repo.table == (if fault == FailedBefore then t else Inserted(t, u))
      // no event without a committed row, and at most one, bearing that row as inserted
      ensures publisher.accepted == old(publisher.accepted)
              || (r.Ok? && publisher.accepted == old(publisher.accepted) + [Event(eventId, r.user.id, name, email)]
                  && repo.table.rows[r.user.id] == r.user)
    {
      var found := repo.ExistsByEmail(email, checkError);
      if found.None? {
        return Internal;
      }
      if found.value {
        return Conflict;
      }
      EmailsStayUnique(repo.table, others);
      repo.OthersRun(others);
      r := CreateAndPublish(User(0, name, email, ""), fault, eventId, publish);
    }

    /** One transaction: fetch, pre-check, write back; any error rolls back. `early` and `others`
        are the statements other sessions commit between the fetch and the pre-check, and between
        the pre-check and the UPDATE. */
    method Update(id: int, req: UpdateUserRequest, getError: bool, early: seq<Statement>, checkError: bool,
                  others: seq<Statement>, fault: DbFault, commit: DbFault) returns (r: Result)
      requires Valid(repo.table)
      modifies repo
      ensures Valid(repo.table)
      // run alone and without faults
      ensures !getError && !checkError && early == [] && others == [] && fault == NoFault && commit == NoFault ==>
                && r == CheckedUpdateReply(old(repo.table), id, req)
                && repo.table == CheckedUpdate(old(repo.table), id, req)
      // a refusal, by the pre-check or by the constraint, leaves the table as the others left it
      ensures r.Conflict? || r.NotFound? ==> LeftByOthers(old(repo.table), early, others, repo.table)
      // and a success is this one update on top of theirs
      ensures r.Ok? ==>
                var was, now := old(repo.table), RunAll(RunAll(old(repo.table), early), others);
                && id in was.rows && !(req.email != was.rows[id].email && Taken(RunAll(was, early), req.email))
                && UpdateReply(now, id, Requested(was.rows[id], req)).Ok?
                && repo.table == Updated(now, id, Requested(was.rows[id], req))
                && r.user == Requested(was.rows[id], req)
      // field by field: name and e-mail as asked, id and password those of the row; a password
      // is replaced only by the one that was fetched, and others' rows stay as they left them
      ensures r.Ok? ==>
                var was, now := old(repo.table), RunAll(RunAll(old(repo.table), early), others);
                && r.user == User(id, req.name, req.email, was.rows[id].password)
                && id in now.rows && repo.table.rows.Keys == now.rows.Keys
                && repo.table.rows[id].id == id
                && repo.table.rows[id].name == (if req.name == "" then now.rows[id].name else req.name)
                && repo.table.rows[id].email == (if req.email == "" then now.rows[id].email else req.email)
                && repo.table.rows[id].password
                   == (if was.rows[id].password == "" then now.rows[id].password else was.rows[id].password)
                && forall other :: other in now.rows && other != id ==> repo.table.rows[other] == now.rows[other]
      // who is told what: no such user at the fetch or at the write; an e-mail someone else has
      ensures r.NotFound? ==> id !in old(repo.table).rows || id !in RunAll(RunAll(old(repo.table), early), others).rows
      ensures !getError && id !in old(repo.table).rows ==> r.NotFound?
      ensures r.Conflict? ==>
                var now := RunAll(RunAll(old(repo.table), early), others);
                || Taken(RunAll(old(repo.table), early), req.email)
                || (id in now.rows && TakenByOther(now, id, if req.email == "" then now.rows[id].email else req.email))
      // nothing else can have happened, even when the reply is an internal error
      ensures r.Internal? ==>
                || LeftByOthers(old(repo.table), early, others, repo.table)
                || (commit == FailedAfter && id in old(repo.table).rows
                    && repo.table == Updated(RunAll(RunAll(old(repo.table), early), others), id,
                                             Requested(old(repo.table).rows[id], req)))
    {
      EmailsStayUnique(repo.table, early);
      EmailsStayUnique(RunAll(repo.table, early), others);
      r := repo.GetByID(id, getError);
      if !r.Ok? {
        return;
      }
      var u := r.user;
      repo.OthersRun(early);
      if req.email != u.email {
        var found := repo.ExistsByEmail(req.email, checkError);
        if found.None? {
          return Internal;
        }
        if found.value {
          return Conflict;
        }
      }
      repo.OthersRun(others);
      var before := repo.table;
      r := repo.Update(id, Requested(u, req), fault);
      if !r.Ok? || commit == FailedBefore {
        repo.table := before;   // ROLLBACK
      }
      if r.Ok? && commit != NoFault {
        r := Internal;
      }
    }
  }

  /** What the PUT handler answers: a refusal by validation, or the service's result. */
  datatype Answer = Invalid | Answered(result: Result)

  /** Run alone, the pre-check of Update changes neither answer nor table: for every request that
      passes validation the constraint decides. */
  lemma UpdateRefinesConstraint(t: Table, id: int, req: UpdateUserRequest)
    requires Valid(t) && id in t.rows && Complete(req)
    ensures var u := Requested(t.rows[id], req);
            CheckedUpdateReply(t, id, req) == UpdateReply(t, id, u) && CheckedUpdate(t, id, req) == Updated(t, id, u)
  {
    if req.email != t.rows[id].email {
      assert Taken(t, req.email) <==> TakenByOther(t, id, req.email);
    } else {
      assert !TakenByOther(t, id, t.rows[id].email);
    }
  }

  class UserHandler {
    const service: UserService

    constructor (service: UserService)
      ensures this.service == service
    {
      this.service := service;
    }

    /** PUT: validate, then update. `isEmail` is the validator's notion of an address. */
    method Update(id: int, req: UpdateUserRequest, isEmail: string -> bool, getError: bool, early: seq<Statement>,
                  checkError: bool, others: seq<Statement>, fault: DbFault, commit: DbFault) returns (a: Answer)
      requires Valid(service.repo.table)
      modifies service.repo
      ensures Valid(service.repo.table)
      ensures a.Invalid? <==> !(Complete(req) && isEmail(req.email))
      ensures a.Invalid? ==> service.repo.table == old(service.repo.table)
      // full replacement: an accepted PUT has stored exactly the name and e-mail it was given,
      // which are those it answers with, whatever other sessions do meanwhile
      ensures a.Answered? && a.result.Ok? ==>
                && id in service.repo.table.rows
                && service.repo.table.rows[id].name == req.name == a.result.user.name
                && service.repo.table.rows[id].email == req.email == a.result.user.email
      // run alone and without faults, the constraint alone would have answered and stored the same
      ensures a.Answered? && id in old(service.repo.table).rows
              && !getError && !checkError && early == [] && others == [] && fault == NoFault && commit == NoFault ==>
                var was := old(service.repo.table);
                && a.result == UpdateReply(was, id, Requested(was.rows[id], req))
                && service.repo.table == Updated(was, id, Requested(was.rows[id], req))
    {
      if req.name == "" || req.email == "" || !isEmail(req.email) {
        return Invalid;
      }
      if id in service.repo.table.rows {
        UpdateRefinesConstraint(service.repo.table, id, req);
      }
      var r := service.Update(id, req, getError, early, checkError, others, fault, commit);
      a := Answered(r);
    }
  }

  // ----- What the pre-checks are worth -----

  /** An insert behind a pre-check, as the HTTP path has it, and what it does to the table. */
  function CheckedInserted(t: Table, u: User): Table {
    if Taken(t, u.email) then t else Inserted(t, u)
  }

  function AllChecked(t: Table, us: seq<User>): Table {
    if us == [] then t else CheckedInserted(AllChecked(t, us[..|us| - 1]), us[|us| - 1])
  }

  function AllInserted(t: Table, us: seq<User>): Table {
    if us == [] then t else Inserted(AllInserted(t, us[..|us| - 1]), us[|us| - 1])
  }

  predicate Stored(t: Table, name: string, email: string, password: string) {
    exists id :: id in t.rows && t.rows[id].name == name && t.rows[id].email == email && t.rows[id].password == password
  }

  /** The same users, under whatever ids. */
  ghost predicate SameUsers(t: Table, t': Table) {
    forall name, email, password :: Stored(t, name, email, password) <==> Stored(t', name, email, password)
  }

  lemma InsertStores(t: Table, u: User, name: string, email: string, password: string)
    requires Valid(t) && !Taken(t, u.email)
    ensures Valid(Inserted(t, u))
    ensures Stored(Inserted(t, u), name, email, password)
            <==> Stored(t, name, email, password) || (name == u.name && email == u.email && password == u.password)
  {
    var t' := Inserted(t, u);
    assert t.nextId in t'.rows && t.nextId !in t.rows;
    if Stored(t, name, email, password) {
      var id :| id in t.rows && t.rows[id].name == name && t.rows[id].email == email && t.rows[id].password == password;
      assert id in t'.rows && t'.rows[id] == t.rows[id];
    }
  }

  lemma SameUsersTake(t: Table, t': Table, email: string)
    requires SameUsers(t, t') && Taken(t, email)
    ensures Taken(t', email)
  {
    var id :| id in t.rows && t.rows[id].email == email;
    assert Stored(t, t.rows[id].name, email, t.rows[id].password);
    assert Stored(t', t.rows[id].name, email, t.rows[id].password);
  }

  lemma AgreeOnTaken(t: Table, t': Table, email: string)
    requires SameUsers(t, t')
    ensures Taken(t, email) <==> Taken(t', email)
  {
    if Taken(t, email) { SameUsersTake(t, t', email); }
    if Taken(t', email) { SameUsersTake(t', t, email); }
  }

  /** The pre-check of Create buys nothing but a shorter id sequence: over any list of creations
      run one after another, from tables with the same users, the path with the pre-check and the
      path without it refuse the same ones and store the same users. */
  lemma {:induction false} CreateRefinesConstraint(t: Table, t': Table, us: seq<User>)
    requires Valid(t) && Valid(t') && SameUsers(t, t')
    ensures Valid(AllChecked(t, us)) && Valid(AllInserted(t', us)) && SameUsers(AllChecked(t, us), AllInserted(t', us))
    ensures forall k :: 0 <= k < |us| ==>
              (CreateReply(AllChecked(t, us[..k]), us[k]).Conflict? <==> CreateReply(AllInserted(t', us[..k]), us[k]).Conflict?)
  {
    if us != [] {
      var n := |us| - 1;
      var u := us[n];
      CreateRefinesConstraint(t, t', us[..n]);
      var a, b := AllChecked(t, us[..n]), AllInserted(t', us[..n]);
      AgreeOnTaken(a, b, u.email);
      if !Taken(a, u.email) {
        forall name, email, password
          ensures Stored(Inserted(a, u), name, email, password) <==> Stored(Inserted(b, u), name, email, password)
        {
          InsertStores(a, u, name, email, password);
          InsertStores(b, u, name, email, password);
        }
        InsertStores(a, u, "", "", "");
        InsertStores(b, u, "", "", "");
      }
      assert Inserted(b, u).rows == b.rows || !Taken(b, u.email);
      forall k | 0 <= k < |us|
        ensures CreateReply(AllChecked(t, us[..k]), us[k]).Conflict? <==> CreateReply(AllInserted(t', us[..k]), us[k]).Conflict?
      {
        if k < n {
          assert us[..n][..k] == us[..k] && us[..n][k] == us[k];
        }
      }
    }
  }

  datatype Put = Put(id: int, req: UpdateUserRequest)

  function AllCheckedUpdates(t: Table, puts: seq<Put>): Table {
    if puts == [] then t
    else CheckedUpdate(AllCheckedUpdates(t, puts[..|puts| - 1]), puts[|puts| - 1].id, puts[|puts| - 1].req)
  }

  /** The same updates with the constraint alone. */
  function AllUpdates(t: Table, puts: seq<Put>): Table {
    if puts == [] then t
    else
      var last, before := puts[|puts| - 1], AllUpdates(t, puts[..|puts| - 1]);
      if last.id in before.rows then Updated(before, last.id, Requested(before.rows[last.id], last.req)) else before
  }

  ghost predicate AllComplete(puts: seq<Put>) {
    forall i :: 0 <= i < |puts| ==> Complete(puts[i].req)
  }

  /** Any list of PUTs that pass validation ends in the same table with and without the pre-check,
      and one that is refused leaves the table as it was. */
  lemma {:induction false} UpdatesRefineConstraint(t: Table, puts: seq<Put>)
    requires Valid(t) && AllComplete(puts)
    ensures Valid(AllUpdates(t, puts)) && AllCheckedUpdates(t, puts) == AllUpdates(t, puts)
    ensures puts != [] ==>
              var before, last := AllUpdates(t, puts[..|puts| - 1]), puts[|puts| - 1];
              !CheckedUpdateReply(before, last.id, last.req).Ok? ==> AllUpdates(t, puts) == before
  {
    if puts != [] {
      UpdatesRefineConstraint(t, puts[..|puts| - 1]);
      var before, last := AllUpdates(t, puts[..|puts| - 1]), puts[|puts| - 1];
      if last.id in before.rows {
        UpdateRefinesConstraint(before, last.id, last.req);
        UpdateKeepsValid(before, last.id, Requested(before.rows[last.id], last.req));
      }
    }
  }

  /** No PUT touches a password or an id, its own user's included, or removes or adds a user. */
  lemma {:induction false} PutsKeepPasswords(t: Table, puts: seq<Put>)
    requires Valid(t) && AllComplete(puts)
    ensures AllCheckedUpdates(t, puts).rows.Keys == t.rows.Keys
    ensures forall id :: id in t.rows ==>
              && AllCheckedUpdates(t, puts).rows[id].id == id
              && AllCheckedUpdates(t, puts).rows[id].password == t.rows[id].password
  {
    if puts != [] {
      PutsKeepPasswords(t, puts[..|puts| - 1]);
    }
  }

  /** "PUT does full replacement": after any list of PUTs that pass validation, a user's row is
      exactly what the last accepted PUT for it answered with, though the UPDATE leaves empty
      fields out: validation lets none through. */
  lemma {:induction false} AcceptedPutIsStored(t: Table, puts: seq<Put>, i: nat)
    requires Valid(t) && AllComplete(puts) && i < |puts|
    requires CheckedUpdateReply(AllCheckedUpdates(t, puts[..i]), puts[i].id, puts[i].req).Ok?
    requires forall j :: i < j < |puts| ==> puts[j].id != puts[i].id
    ensures var after := AllCheckedUpdates(t, puts);
            && puts[i].id in after.rows
            && after.rows[puts[i].id]
               == CheckedUpdateReply(AllCheckedUpdates(t, puts[..i]), puts[i].id, puts[i].req).user
            && after.rows[puts[i].id].name == puts[i].req.name && after.rows[puts[i].id].email == puts[i].req.email
  {
    var n := |puts| - 1;
    if i < n {
      assert puts[..n][..i] == puts[..i];
      AcceptedPutIsStored(t, puts[..n], i);
    } else {
      UpdatesRefineConstraint(t, puts[..n]);
      var before := AllCheckedUpdates(t, puts[..n]);
      assert before.rows[puts[i].id].id == puts[i].id;
    }
  }
}
