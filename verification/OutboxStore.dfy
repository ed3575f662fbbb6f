/** The store's SQL operations: statement by statement through savepoints, and what each amounts to. */
module OutboxStore {
  import opened Options
  import opened Seconds
  import opened OutboxTypes
  import opened OutboxMachine
  import opened Postgres

  /** What the savepoint pattern amounts to: the newer statement, the older one, or a doomed transaction. */
  function Outcome(luck: Luck): How {
    if !luck.savepoint then Broken
    else if luck.primary then (if luck.release then Full else Broken)
    else if luck.rollback && luck.fallback then Fallback
    else Broken
  }

  /** What a store operation writes to its row, if there is one: with the newer columns and without. */
  datatype Change = Change(full: Row, legacy: Row)

  function Written(how: How, writes: Overlay, id: Id, change: Option<Change>): Overlay {
    if change.None? || how == Broken then writes
    else Put(writes, id, Some(if how == Full then change.value.full else change.value.legacy))
  }

  /**
   The pattern every store write follows: try the statement for the newer schema in a savepoint; when it fails,
   roll the savepoint back and run the statement for the older schema. A failed try leaves no trace.
   */
  method WriteWithFallback(tx: Tx, id: Id, change: Option<Change>, luck: Luck) returns (err: bool)
    requires tx.Flat()
    modifies tx
    ensures tx.Flat() && tx.aborted == err && tx.levels == old(tx.levels)
    ensures err == (old(tx.aborted) || Outcome(luck) == Broken)
    ensures !err ==> tx.Writes() == Written(Outcome(luck), old(tx.Writes()), id, change)
  {
    ghost var before, held := tx.stack, tx.levels;
    err := tx.Savepoint(luck.savepoint);
    if err { return; }
    err := tx.PutRow(id, if change.Some? then Some(change.value.full) else None, luck.primary);
    if !err {
      err := tx.Release(luck.release);
      assert held[0] + {} == held[0] && tx.levels == held;
      return;
    }
    tx.RollbackTo(luck.rollback);
    assert tx.stack == before && tx.levels == held;
    err := tx.PutRow(id, if change.Some? then Some(change.value.legacy) else None, luck.fallback);
  }

  /** An insert of an id the transaction can already see violates the primary key on both paths. */
  function InsertOutcome(taken: bool, newer: bool, luck: Luck): How {
    if taken then Broken else Outcome(luck.(primary := luck.primary && newer))
  }

  function InsertChange(facts: Facts, now: int, newer: bool): Option<Change> {
    Some(Change(InsertedRow(facts, now, true, newer), InsertedRow(facts, now, false, newer)))
  }

  /** Insert: an event without an id gets the one minted for it. An older table refuses the newer statement. */
  method Insert(tx: Tx, rows: map<Id, Row>, newer: bool, given: Option<Id>, minted: Id, facts: Facts, now: int,
                luck: Luck)
    returns (id: Id, err: bool)
    requires tx.Flat()
    modifies tx
    ensures tx.Flat() && tx.aborted == err && tx.levels == old(tx.levels)
    ensures id == if given.Some? then given.value else minted
    ensures var how := InsertOutcome(Visible(rows, old(tx.Writes()).rows, id).Some?, newer, luck);
            && err == (old(tx.aborted) || how == Broken)
            && (err || tx.Writes() == Written(how, old(tx.Writes()), id, InsertChange(facts, now, newer)))
            && (err || InsertColumns(facts, now, newer, how == Full, tx.Writes().rows[id]))
  {
    id := minted;
    if given.Some? { id := given.value; }
    var taken := Visible(rows, tx.Writes().rows, id).Some?;
    err := WriteWithFallback(tx, id, InsertChange(facts, now, newer),
                             luck.(primary := luck.primary && newer && !taken, fallback := luck.fallback && !taken));
  }

  /** The columns of a new row, one by one. */
  ghost predicate InsertColumns(facts: Facts, now: int, newer: bool, full: bool, row: Row) {
    && row.status == Pending && row.retryCount == 0 && row.publishedAt == None && row.facts.createdAt == now
    && row.facts.aggregateType == facts.aggregateType && row.facts.aggregateId == facts.aggregateId
    && row.facts.eventType == facts.eventType && row.facts.envelope == facts.envelope && row.facts.topic == facts.topic
    && (newer ==> row.nextRetryAt == Some(now) && row.updatedAt == Some(now))
    && (!newer ==> row.nextRetryAt == None && row.updatedAt == None && row.facts.headers == None)
    && (newer && full && facts.headers.Some? && facts.headers.value != "" ==> row.facts.headers == facts.headers)
    && (newer && (!full || facts.headers in {None, Some("")}) ==> row.facts.headers == Some("{}"))
  }

  /**
   A fallback insert on a newer table loses the event's headers: what is stored is what the newer statement would have
   stored if and only if that statement ran or the event has none to speak of.
   */
  lemma HeadersKept(facts: Facts, now: int, full: bool)
    ensures InsertedRow(facts, now, full, true) == InsertedRow(facts, now, true, true) <==>
              full || facts.headers.None? || facts.headers.value == "" || facts.headers.value == "{}"
  {
    var stored, meant := InsertedRow(facts, now, full, true), InsertedRow(facts, now, true, true);
    assert stored == meant <==> stored.facts.headers == meant.facts.headers;
    assert |"{}"| == 2;
  }

  function PublishChange(row: Option<Row>, now: int): Option<Change> {
    if row.None? then None
    else Some(Change(MarkedPublished(row.value, now, true), MarkedPublished(row.value, now, false)))
  }

  /** The columns a published mark writes and those it leaves alone. */
  ghost predicate PublishColumns(before: Row, now: int, full: bool, after: Row) {
    && after.status == Published && after.publishedAt == Some(now)
    && after.updatedAt == (if full then Some(now) else before.updatedAt)
    && after.facts == before.facts && after.retryCount == before.retryCount && after.nextRetryAt == before.nextRetryAt
  }

  /** Marking a row that is not there succeeds and changes nothing. */
  method MarkPublished(tx: Tx, rows: map<Id, Row>, id: Id, now: int, luck: Luck) returns (err: bool)
    requires tx.Flat()
    modifies tx
    ensures tx.Flat() && tx.aborted == err && tx.levels == old(tx.levels)
    ensures err == (old(tx.aborted) || Outcome(luck) == Broken)
    ensures var row := Visible(rows, old(tx.Writes()).rows, id);
            !err ==> tx.Writes() == Written(Outcome(luck), old(tx.Writes()), id, PublishChange(row, now))
    ensures var row := Visible(rows, old(tx.Writes()).rows, id);
            !err && row.Some? ==>
              id in tx.Writes().rows && PublishColumns(row.value, now, Outcome(luck) == Full, tx.Writes().rows[id])
  {
    err := WriteWithFallback(tx, id, PublishChange(Visible(rows, tx.Writes().rows, id), now), luck);
  }

  function FailOutcome(luck: Luck): How {
    if luck.counter then Outcome(luck) else Broken
  }

  function FailChange(row: Row, now: int, maxRetries: int, delay: int): Option<Change> {
    Some(Change(MarkedFailed(row, now, maxRetries, delay, true), MarkedFailed(row, now, maxRetries, delay, false)))
  }

  /** The columns a failure mark that imposes `pause` microseconds writes, and those it leaves alone. */
  ghost predicate FailColumns(before: Row, now: int, maxRetries: int, pause: nat, full: bool, after: Row) {
    && after.retryCount == before.retryCount + 1
    && (after.retryCount >= maxRetries ==> after.status == Failed)
    && (after.retryCount < maxRetries ==> after.status == Pending)
    && after.nextRetryAt == (if full then Some(now + pause) else before.nextRetryAt)
    && after.updatedAt == (if full then Some(now) else before.updatedAt)
    && after.facts == before.facts && after.publishedAt == before.publishedAt
  }

  /**
   Two statements: the counter is bumped and read back, then the status that count calls for is written. Together
   they mark the row failed as a whole or doom the transaction. A missing row is an error that dooms nothing.
   */
  method MarkFailedWithBackoff(tx: Tx, rows: map<Id, Row>, id: Id, now: int, maxRetries: int, delay: int, luck: Luck)
    returns (err: bool)
    requires tx.Flat()
    modifies tx
    ensures tx.Flat() && (tx.aborted ==> err) && tx.levels == old(tx.levels)
    ensures match Visible(rows, old(tx.Writes()).rows, id)
            case None => err && tx.Writes() == old(tx.Writes()) && tx.aborted == (old(tx.aborted) || !luck.counter)
            case Some(row) =>
              && err == tx.aborted == (old(tx.aborted) || FailOutcome(luck) == Broken)
              && (err || tx.Writes()
                         == Written(FailOutcome(luck), old(tx.Writes()), id, FailChange(row, now, maxRetries, delay)))
              && (err || FailColumns(row, now, maxRetries, RetryGapMicros(delay), FailOutcome(luck) == Full,
                                     tx.Writes().rows[id]))
  {
    var seen := Visible(rows, tx.Writes().rows, id);
    var counted := if seen.Some? then Some(seen.value.(retryCount := seen.value.retryCount + 1)) else None;
    ghost var before := tx.Writes();
    err := tx.PutRow(id, counted, luck.counter);
    if err || counted.None? { return true; }
    err := WriteStatus(tx, id, counted.value, now, maxRetries, delay, luck, before, seen.value);
  }

  /** The second statement of a failure mark, after the counter of `row` was bumped on top of `before`. */
  method WriteStatus(tx: Tx, id: Id, counted: Row, now: int, maxRetries: int, delay: int, luck: Luck,
                     ghost before: Overlay, ghost row: Row)
    returns (err: bool)
    requires tx.Flat() && tx.Writes() == Put(before, id, Some(counted))
    requires counted == row.(retryCount := row.retryCount + 1)
    modifies tx
    ensures tx.Flat() && tx.aborted == err && tx.levels == old(tx.levels)
    ensures err == (old(tx.aborted) || Outcome(luck) == Broken)
    ensures !err ==> tx.Writes() == Written(Outcome(luck), before, id, FailChange(row, now, maxRetries, delay))
  {
    var status := if counted.retryCount >= maxRetries then Failed else Pending;
    var legacy := counted.(status := status);
    var full := legacy.(nextRetryAt := Some(now + RetryGapMicros(delay)), updatedAt := Some(now));
    err := WriteWithFallback(tx, id, Some(Change(full, legacy)), luck);
    assert before.rows[id := counted][id := full] == before.rows[id := full];
    assert before.rows[id := counted][id := legacy] == before.rows[id := legacy];
  }

  /** MarkFailed passes no delay, which the statement turns into one second. */
  method MarkFailed(tx: Tx, rows: map<Id, Row>, id: Id, now: int, maxRetries: int, luck: Luck) returns (err: bool)
    requires tx.Flat()
    modifies tx
    ensures tx.Flat() && (tx.aborted ==> err) && tx.levels == old(tx.levels)
    ensures match Visible(rows, old(tx.Writes()).rows, id)
            case None => err && tx.Writes() == old(tx.Writes()) && tx.aborted == (old(tx.aborted) || !luck.counter)
            case Some(row) =>
              && err == tx.aborted == (old(tx.aborted) || FailOutcome(luck) == Broken)
              && (err || tx.Writes()
                         == Written(FailOutcome(luck), old(tx.Writes()), id, FailChange(row, now, maxRetries, 0)))
              && (err || FailColumns(row, now, maxRetries, 1_000_000, FailOutcome(luck) == Full, tx.Writes().rows[id]))
  {
    err := MarkFailedWithBackoff(tx, rows, id, now, maxRetries, 0, luck);
  }

  /* ---------- Claiming ---------- */

  predicate Free(rows: map<Id, Row>, locks: map<Id, TxId>, start: int, primary: bool, id: Id) {
    id in rows && id !in locks && Due(rows[id], start, primary)
  }

  /** `ids` is what the claim query may return: due, unlocked, oldest first, and nothing older left behind. */
  ghost predicate Selected(rows: map<Id, Row>, locks: map<Id, TxId>, start: int, limit: nat, primary: bool,
                           ids: seq<Id>) {
    && |ids| <= limit
    && (forall i :: 0 <= i < |ids| ==> Free(rows, locks, start, primary, ids[i]))
    && (forall i, j :: 0 <= i < j < |ids| ==> ids[i] != ids[j])
    && (forall i, j :: 0 <= i < j < |ids| && ids[i] in rows && ids[j] in rows ==>
          rows[ids[i]].facts.createdAt <= rows[ids[j]].facts.createdAt)
    && (forall id :: Free(rows, locks, start, primary, id) && id !in ids ==>
          |ids| == limit && forall i :: 0 <= i < |ids| && ids[i] in rows ==>
            rows[ids[i]].facts.createdAt <= rows[id].facts.createdAt)
  }

  predicate Oldest(rows: map<Id, Row>, ids: set<Id>, m: Id)
    requires ids <= rows.Keys
  {
    m in ids && forall id :: id in ids ==> rows[m].facts.createdAt <= rows[id].facts.createdAt
  }

  lemma OldestOfMore(rows: map<Id, Row>, ids: set<Id>, x: Id, m: Id)
    requires ids <= rows.Keys && x in ids && Oldest(rows, ids - {x}, m)
    ensures Oldest(rows, ids, if rows[x].facts.createdAt <= rows[m].facts.createdAt then x else m)
  {
  }

  lemma {:induction false} OldestExists(rows: map<Id, Row>, ids: set<Id>)
    requires ids != {} && ids <= rows.Keys
    ensures exists m :: Oldest(rows, ids, m)
    decreases ids
  {
    var x :| x in ids;
    if ids == {x} {
      assert Oldest(rows, ids, x);
    } else {
      OldestExists(rows, ids - {x});
      var m :| Oldest(rows, ids - {x}, m);
      OldestOfMore(rows, ids, x, m);
    }
  }

  /** `ids` so far and `rest` are the due rows, and nothing in `rest` is older than anything in `ids`. */
  ghost predicate PartlySelected(rows: map<Id, Row>, locks: map<Id, TxId>, start: int, primary: bool, ids: seq<Id>,
                                 rest: set<Id>) {
    && rest <= rows.Keys
    && (forall i :: 0 <= i < |ids| ==> Free(rows, locks, start, primary, ids[i]) && ids[i] !in rest)
    && (forall i, j :: 0 <= i < j < |ids| ==> ids[i] != ids[j])
    && (forall i, j :: 0 <= i < j < |ids| && ids[i] in rows && ids[j] in rows ==>
          rows[ids[i]].facts.createdAt <= rows[ids[j]].facts.createdAt)
    && (forall id :: id in rest ==> Free(rows, locks, start, primary, id))
    && (forall i, id :: 0 <= i < |ids| && id in rest && ids[i] in rows ==>
          rows[ids[i]].facts.createdAt <= rows[id].facts.createdAt)
    && (forall id :: Free(rows, locks, start, primary, id) ==> id in ids || id in rest)
  }

  lemma SelectNext(rows: map<Id, Row>, locks: map<Id, TxId>, start: int, primary: bool, ids: seq<Id>, rest: set<Id>,
                   next: Id)
    requires PartlySelected(rows, locks, start, primary, ids, rest) && Oldest(rows, rest, next)
    ensures PartlySelected(rows, locks, start, primary, ids + [next], rest - {next})
  {
  }

  /** SELECT ... ORDER BY created_at LIMIT n FOR UPDATE SKIP LOCKED. */
  method SelectDue(rows: map<Id, Row>, locks: map<Id, TxId>, start: int, limit: nat, primary: bool)
    returns (ids: seq<Id>)
    ensures Selected(rows, locks, start, limit, primary, ids)
  {
    var rest := set id | id in rows && Free(rows, locks, start, primary, id);
    ids := [];
    while |ids| < limit && rest != {}
      invariant |ids| <= limit && PartlySelected(rows, locks, start, primary, ids, rest)
      decreases |rest|
    {
      OldestExists(rows, rest);
      var next :| next in rest && Oldest(rows, rest, next);
      SelectNext(rows, locks, start, primary, ids, rest, next);
      ids := ids + [next];
      rest := rest - {next};
    }
  }

  /** What can go wrong while rows are read: some cannot be scanned, or the answer breaks off. */
  datatype Reading = Reading(unreadable: set<Id>, brokenOff: bool)

  ghost predicate Reads(reading: Reading, ids: seq<Id>) {
    !reading.brokenOff && forall i :: 0 <= i < |ids| ==> ids[i] !in reading.unreadable
  }

  /** scanEvents: reading the rows one by one; the first that cannot be read, or a broken answer, discards them all. */
  method ScanEvents(rows: map<Id, Row>, ids: seq<Id>, reading: Reading) returns (evts: seq<Event>, err: bool)
    requires forall i :: 0 <= i < |ids| ==> ids[i] in rows
    ensures err <==> !Reads(reading, ids)
    ensures evts == if err then [] else Scanned(rows, ids)
  {
    evts, err := [], false;
    var i := 0;
    while i < |ids|
      invariant 0 <= i <= |ids|
      invariant forall j :: 0 <= j < i ==> ids[j] !in reading.unreadable
      invariant |evts| == i && forall j :: 0 <= j < i ==> evts[j] == Event(ids[j], rows[ids[j]])
    {
      if ids[i] in reading.unreadable { return [], true; }
      evts := evts + [Event(ids[i], rows[ids[i]])];
      i := i + 1;
    }
    if reading.brokenOff { return [], true; }
    assert evts == Scanned(rows, ids);
  }

  function IdSet(ids: seq<Id>): set<Id> {
    set id | id in ids
  }

  /** The committed table and its locks as a statement finds them. */
  datatype Snapshot = Snapshot(rows: map<Id, Row>, locks: map<Id, TxId>)

  /**
   FetchAndLockPending: the query that honours the backoff, in a savepoint; when that query fails, whatever the
   reason, the one that does not, on the table as others have left it by then (`later`). Success leaves the transaction
   usable, its writes as they were, and locks on exactly the returned rows besides those it had: the rows a failed
   first query locked (`partial`) are free again.
   */
  method FetchAndLockPending(tx: Tx, first: Snapshot, later: Snapshot, start: int, limit: nat, luck: Luck,
                             partial: set<Id>, reading: Reading)
    returns (ids: seq<Id>, evts: seq<Event>, primary: bool, err: bool)
    requires tx.Flat()
    modifies tx
    ensures tx.Flat() && primary == luck.primary
    ensures var found := if primary then first else later;
            && (!old(tx.aborted) && Outcome(luck) != Broken ==>
                  Selected(found.rows, found.locks, start, limit, primary, ids))
            && (!err ==> Selected(found.rows, found.locks, start, limit, primary, ids))
            && (!err ==> evts == Scanned(found.rows, ids))
    ensures err ==> evts == []
    ensures !err ==> !tx.aborted && tx.Writes() == old(tx.Writes()) && tx.Locks() == old(tx.Locks()) + IdSet(ids)
    ensures err <==> old(tx.aborted) || Outcome(luck) == Broken || !Reads(reading, ids)
  {
    ids, evts, primary := [], [], luck.primary;
    LocksSingle(tx.levels);
    err := tx.Savepoint(luck.savepoint);
    if err { return; }
    if luck.primary { ids := SelectDue(first.rows, first.locks, start, limit, true); }
    err := tx.SelectForUpdate(if luck.primary then IdSet(ids) else partial, luck.primary);
    if !err {
      evts, err := ScanEvents(first.rows, ids, reading);
      if err {
        tx.RollbackTo(luck.rollback);
        return;
      }
      err := tx.Release(luck.release);
      LocksSingle(tx.levels);
      if err { evts := []; }
      return;
    }
    tx.RollbackTo(luck.rollback);
    ids, evts, err := FetchIgnoringBackoff(tx, later.rows, later.locks, start, limit, luck.fallback, reading);
  }

  /** The fallback query, outside any savepoint. */
  method FetchIgnoringBackoff(tx: Tx, rows: map<Id, Row>, locks: map<Id, TxId>, start: int, limit: nat, ok: bool,
                              reading: Reading)
    returns (ids: seq<Id>, evts: seq<Event>, err: bool)
    requires tx.Flat()
    modifies tx
    ensures tx.Flat() && tx.stack == old(tx.stack)
    ensures err ==> evts == []
    ensures Selected(rows, locks, start, limit, false, ids) && (!err ==> evts == Scanned(rows, ids))
    ensures !err ==> !tx.aborted && tx.Locks() == old(tx.Locks()) + IdSet(ids)
    ensures err <==> old(tx.aborted) || !ok || !Reads(reading, ids)
  {
    evts := [];
    LocksSingle(tx.levels);
    ids := SelectDue(rows, locks, start, limit, false);
    err := tx.SelectForUpdate(IdSet(ids), ok);
    LocksSingle(tx.levels);
    if err { return; }
    evts, err := ScanEvents(rows, ids, reading);
  }

  /* ---------- Administration ---------- */

  ghost function WithStatus(rows: map<Id, Row>, status: Status): set<Id> {
    set id | id in rows && rows[id].status == status
  }

  /** The rows a requeue matches: FAILED ones whose columns equal the filters that are given. */
  function Matching(rows: map<Id, Row>, a: string, e: string): (ids: set<Id>)
    ensures forall id :: id in ids <==>
              id in rows && rows[id].status == Failed && (a != "" ==> rows[id].facts.aggregateType == a)
              && (e != "" ==> rows[id].facts.eventType == e)
  {
    set id | id in rows && Requeueable(rows[id], a, e)
  }

  /** The three statuses partition the table. */
  lemma StatusCountsSum(rows: map<Id, Row>)
    ensures |WithStatus(rows, Pending)| + |WithStatus(rows, Published)| + |WithStatus(rows, Failed)| == |rows|
  {
    var p, q, f := WithStatus(rows, Pending), WithStatus(rows, Published), WithStatus(rows, Failed);
    assert rows.Keys == p + q + f;
    assert |p + q| == |p| + |q|;
    assert |p + q + f| == |p + q| + |f|;
    assert |rows| == |rows.Keys|;
  }

  /** A requeue changes exactly the matching rows, all of them to fresh pending ones. */
  lemma RequeueTouches(rows: map<Id, Row>, now: int, a: string, e: string, full: bool)
    ensures var rows' := RequeuedRows(rows, now, a, e, full);
            && rows'.Keys == rows.Keys
            && (forall id :: id in rows ==> (rows'[id] != rows[id] <==> id in Matching(rows, a, e)))
            && (forall id :: id in Matching(rows, a, e) ==> RequeueColumns(rows[id], now, full, rows'[id]))
            && Matching(rows', a, e) == {}
  {
  }

  /** The columns a requeue writes and those it leaves alone. */
  ghost predicate RequeueColumns(before: Row, now: int, full: bool, after: Row) {
    && after.status == Pending && after.retryCount == 0
    && after.nextRetryAt == (if full then Some(now) else before.nextRetryAt)
    && after.updatedAt == (if full then Some(now) else before.updatedAt)
    && after.facts == before.facts && after.publishedAt == before.publishedAt
  }

  /** ... and so moves exactly their number from FAILED to PENDING. */
  lemma RequeueMoves(rows: map<Id, Row>, now: int, a: string, e: string, full: bool)
    ensures var rows' := RequeuedRows(rows, now, a, e, full);
            && |WithStatus(rows', Pending)| == |WithStatus(rows, Pending)| + |Matching(rows, a, e)|
            && |WithStatus(rows', Failed)| == |WithStatus(rows, Failed)| - |Matching(rows, a, e)|
            && WithStatus(rows', Published) == WithStatus(rows, Published)
  {
    var rows', moved := RequeuedRows(rows, now, a, e, full), Matching(rows, a, e);
    RequeueTouches(rows, now, a, e, full);
    StatusesMoved(rows, rows', moved);
  }

  lemma StatusesMoved(rows: map<Id, Row>, rows': map<Id, Row>, moved: set<Id>)
    requires rows'.Keys == rows.Keys && moved <= WithStatus(rows, Failed)
    requires forall id :: id in rows ==>
               (id in moved ==> rows'[id].status == Pending) && (id !in moved ==> rows'[id] == rows[id])
    ensures |WithStatus(rows', Pending)| == |WithStatus(rows, Pending)| + |moved|
    ensures |WithStatus(rows', Failed)| == |WithStatus(rows, Failed)| - |moved|
    ensures WithStatus(rows', Published) == WithStatus(rows, Published)
  {
    assert WithStatus(rows', Pending) == WithStatus(rows, Pending) + moved;
    assert WithStatus(rows', Failed) == WithStatus(rows, Failed) - moved;
  }

  /** How an autocommitted statement ended: carried out, declined, or carried out with its answer lost. */
  datatype Answer = Done | Declined | Lost

  /** The committed table as the connection pool reaches it, outside any explicit transaction. */
  class Table {
    var rows: map<Id, Row>

    constructor (rows: map<Id, Row>)
      ensures this.rows == rows
    {
      this.rows := rows;
    }

    method UpdateFailed(now: int, a: string, e: string, full: bool, answer: Answer) returns (count: nat, err: bool)
      modifies this
      ensures err == (answer != Done) && count == (if err then 0 else |Matching(old(rows), a, e)|)
      ensures rows == if answer == Declined then old(rows) else RequeuedRows(old(rows), now, a, e, full)
    {
      err := answer != Done;
      count := if err then 0 else |Matching(rows, a, e)|;
      if answer != Declined { rows := RequeuedRows(rows, now, a, e, full); }
    }

    /**
     RequeueFailed: the newer statement, then the older one if the first reports an error. In between, others may have
     changed the table. A nil result is the number of rows the call moved, unless the first statement was carried out
     and its answer lost: then the rows it moved are missing from the count.
     */
    method RequeueFailed(now: int, later: int, a: string, e: string, first: Answer, second: Answer,
                         others: map<Id, Row> -> map<Id, Row>)
      returns (count: nat, err: bool)
      modifies this
      ensures err == (first != Done && second != Done)
      ensures first == Done ==> rows == RequeuedRows(old(rows), now, a, e, true) && count == |Matching(old(rows), a, e)|
      ensures first == Done ==> rows.Keys == old(rows).Keys && forall id :: id in rows ==>
                if id in Matching(old(rows), a, e) then RequeueColumns(old(rows)[id], now, true, rows[id])
                else rows[id] == old(rows)[id]
      ensures first != Done ==>
                var mid := others(if first == Lost then RequeuedRows(old(rows), now, a, e, true) else old(rows));
                && rows == (if second == Declined then mid else RequeuedRows(mid, later, a, e, false))
                && count == (if second == Done then |Matching(mid, a, e)| else 0)
                && var moved := (if first == Lost then |Matching(old(rows), a, e)| else 0) + |Matching(mid, a, e)|;
                (!err ==> (count == moved <==> first != Lost || Matching(old(rows), a, e) == {}))
    {
      RequeueTouches(rows, now, a, e, true);
      count, err := UpdateFailed(now, a, e, true, first);
      if err {
        rows := others(rows);
        count, err := UpdateFailed(later, a, e, false, second);
      }
    }
  }

  /** What CountByStatus meets: whether the query is answered, which groups cannot be scanned, a broken-off answer. */
  datatype Counting = Counting(answered: bool, unreadable: set<Status>, brokenOff: bool)

  /** CountByStatus: one pass over the groups; statuses without rows are absent. */
  method CountByStatus(rows: map<Id, Row>, counting: Counting) returns (counts: map<Status, nat>, err: bool)
    ensures err <==> !counting.answered || counting.brokenOff
                     || exists st :: st in counting.unreadable && WithStatus(rows, st) != {}
    ensures !err ==> forall st :: st in counts <==> WithStatus(rows, st) != {}
    ensures forall st :: st in counts ==> counts[st] == |WithStatus(rows, st)|
  {
    counts := map[];
    if !counting.answered { return counts, true; }
    var groups := [Pending, Published, Failed];
    var i := 0;
    while i < |groups|
      invariant 0 <= i <= |groups| == 3
      invariant forall st :: st in counts <==> st in groups[..i] && WithStatus(rows, st) != {}
      invariant forall st :: st in counts ==> counts[st] == |WithStatus(rows, st)| && st !in counting.unreadable
    {
      var members := set id | id in rows && rows[id].status == groups[i];
      assert members == WithStatus(rows, groups[i]);
      if members != {} {
        if groups[i] in counting.unreadable { return map[], true; }
        counts := counts[groups[i] := |members|];
      }
      i := i + 1;
    }
    assert groups[..i] == groups;
    forall st: Status ensures st in groups {
      assert groups[if st == Pending then 0 else if st == Published then 1 else 2] == st;
    }
    err := counting.brokenOff;
  }
}
