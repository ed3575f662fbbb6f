/** Tables without the newer columns: the same writes give the same statuses and retry counts. */
module OutboxLegacy {
  import opened Options
  import opened OutboxTypes
  import opened OutboxMachine
  import opened Postgres
  import opened OutboxStore

  /** What an older table keeps of a row. */
  function ErasedRow(row: Row): Row {
    row.(facts := row.facts.(headers := None), nextRetryAt := None, updatedAt := None)
  }

  function Erased(rows: map<Id, Row>): map<Id, Row> {
    map id | id in rows :: ErasedRow(rows[id])
  }

  /** A committed store write. */
  datatype StoreWrite =
    | Insertion(id: Id, facts: Facts, now: int)
    | Publication(id: Id, now: int)
    | Failure(id: Id, now: int, maxRetries: int, delay: int)
    | Requeueing(now: int, aggregateType: string, eventType: string)

  /** What a write's row becomes, when the statement finds or may create it. */
  function ChangeOf(rows: map<Id, Row>, w: StoreWrite, newer: bool): Option<Change>
    requires !w.Requeueing?
  {
    match w
    case Insertion(id, facts, now) => if id in rows then None else InsertChange(facts, now, newer)
    case Publication(id, now) => PublishChange(Visible(rows, map[], id), now)
    case Failure(id, now, m, delay) => if id in rows then FailChange(rows[id], now, m, delay) else None
  }

  /** The table after a write in its primary or its fallback form; an older table knows the fallback only. */
  function Stored(rows: map<Id, Row>, w: StoreWrite, newer: bool, full: bool): map<Id, Row> {
    var form := full && newer;
    if w.Requeueing? then RequeuedRows(rows, w.now, w.aggregateType, w.eventType, form)
    else Written(if form then Full else Fallback, Overlay(map[], rows), w.id, ChangeOf(rows, w, newer)).rows
  }

  function StoredAll(rows: map<Id, Row>, ws: seq<(StoreWrite, bool)>, newer: bool): map<Id, Row>
    decreases |ws|
  {
    if ws == [] then rows else StoredAll(Stored(rows, ws[0].0, newer, ws[0].1), ws[1..], newer)
  }

  lemma ErasedPut(rows: map<Id, Row>, id: Id, row: Row)
    ensures Erased(rows[id := row]) == Erased(rows)[id := ErasedRow(row)]
  {
  }

  lemma RequeueErases(rows: map<Id, Row>, now: int, a: string, e: string, full: bool)
    ensures Erased(RequeuedRows(rows, now, a, e, full)) == RequeuedRows(Erased(rows), now, a, e, false)
  {
  }

  lemma InsertionErases(rows: map<Id, Row>, id: Id, facts: Facts, now: int, full: bool)
    ensures Erased(Stored(rows, Insertion(id, facts, now), true, full))
         == Stored(Erased(rows), Insertion(id, facts, now), false, full)
  {
    ErasedPut(rows, id, InsertedRow(facts, now, full, true));
  }

  lemma PublicationErases(rows: map<Id, Row>, id: Id, now: int, full: bool)
    ensures Erased(Stored(rows, Publication(id, now), true, full))
         == Stored(Erased(rows), Publication(id, now), false, full)
  {
    if id in rows { ErasedPut(rows, id, MarkedPublished(rows[id], now, full)); }
  }

  lemma FailureErases(rows: map<Id, Row>, id: Id, now: int, m: int, delay: int, full: bool)
    ensures Erased(Stored(rows, Failure(id, now, m, delay), true, full))
         == Stored(Erased(rows), Failure(id, now, m, delay), false, full)
  {
    if id in rows { ErasedPut(rows, id, MarkedFailed(rows[id], now, m, delay, full)); }
  }

  lemma ErasureCommutes(rows: map<Id, Row>, w: StoreWrite, full: bool)
    ensures Erased(Stored(rows, w, true, full)) == Stored(Erased(rows), w, false, full)
  {
    match w
    case Insertion(id, facts, now) => InsertionErases(rows, id, facts, now, full);
    case Publication(id, now) => PublicationErases(rows, id, now, full);
    case Failure(id, now, m, delay) => FailureErases(rows, id, now, m, delay, full);
    case Requeueing(now, a, e) => RequeueErases(rows, now, a, e, full);
  }

  /**
   Erasing the newer columns after any sequence of writes, each in either form, or before it, gives the same table.
   */
  lemma {:induction false} LegacyAgrees(rows: map<Id, Row>, ws: seq<(StoreWrite, bool)>)
    ensures Erased(StoredAll(rows, ws, true)) == StoredAll(Erased(rows), ws, false)
    ensures StoredAll(rows, ws, true).Keys == StoredAll(Erased(rows), ws, false).Keys
    ensures forall id :: id in StoredAll(rows, ws, true) ==>
              && StoredAll(rows, ws, true)[id].status == StoredAll(Erased(rows), ws, false)[id].status
              && StoredAll(rows, ws, true)[id].retryCount == StoredAll(Erased(rows), ws, false)[id].retryCount
    decreases |ws|
  {
    if ws == [] {
    } else {
      ErasureCommutes(rows, ws[0].0, ws[0].1);
      LegacyAgrees(Stored(rows, ws[0].0, true, ws[0].1), ws[1..]);
    }
    assert Erased(StoredAll(rows, ws, true)).Keys == StoredAll(rows, ws, true).Keys;
  }
}
