/** The notifications table: one audit row per event, guarded by UNIQUE (event_id). */
module NotificationTable {
  type EventId = string

  /** Why a handler call failed; a "failed" row stores it as its error text. */
  datatype Failure = BadPayload | CheckFailed | NotRendered | SendFailed | InsertFailed

  datatype Status = Sent | Failed(reason: Failure)

  datatype Row = Row(eventId: EventId, kind: string, recipient: string, status: Status)

  /** The event type written on every "sent" row. */
  const USER_CREATED := "user.created"

  /** How the database can let an INSERT down: the statement may be lost before it
      commits, or the reply may be lost after it did. */
  datatype DbFault = NoFault | LostBeforeCommit | LostAfterCommit

  datatype InsertResult = Created | Conflict | Internal

  predicate HasRow(rows: seq<Row>, e: EventId) {
    exists i :: 0 <= i < |rows| && rows[i].eventId == e
  }

  /** Does the INSERT commit a row, and what does the caller hear? */
  predicate Commits(rows: seq<Row>, row: Row, fault: DbFault) {
    fault != LostBeforeCommit && !HasRow(rows, row.eventId)
  }

  function RowsAfter(rows: seq<Row>, row: Row, fault: DbFault): seq<Row> {
    if Commits(rows, row, fault) then rows + [row] else rows
  }

  function Reply(rows: seq<Row>, row: Row, fault: DbFault): InsertResult {
    if fault != NoFault then Internal
    else if HasRow(rows, row.eventId) then Conflict
    else Created
  }

  /** UNIQUE (event_id). */
  ghost predicate UniqueEvents(rows: seq<Row>) {
    forall i, j :: 0 <= i < j < |rows| ==> rows[i].eventId != rows[j].eventId
  }

  lemma HasRowSnoc(rows: seq<Row>, row: Row, e: EventId)
    ensures HasRow(rows + [row], e) <==> HasRow(rows, e) || row.eventId == e
  {
    if HasRow(rows, e) {
      var i :| 0 <= i < |rows| && rows[i].eventId == e;
      assert (rows + [row])[i].eventId == e;
    }
    if row.eventId == e {
      assert (rows + [row])[|rows|].eventId == e;
    }
  }

  lemma HasRowExtends(rows: seq<Row>, more: seq<Row>, e: EventId)
    ensures HasRow(rows, e) ==> HasRow(rows + more, e)
  {
    if HasRow(rows, e) {
      var i :| 0 <= i < |rows| && rows[i].eventId == e;
      assert (rows + more)[i].eventId == e;
    }
  }

  lemma NoRowInPart(rows: seq<Row>, more: seq<Row>, e: EventId)
    ensures !HasRow(rows + more, e) ==> !HasRow(rows, e) && !HasRow(more, e)
  {
    HasRowExtends(rows, more, e);
    if HasRow(more, e) {
      var i :| 0 <= i < |more| && more[i].eventId == e;
      assert (rows + more)[|rows| + i].eventId == e;
    }
  }
}
