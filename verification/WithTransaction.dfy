/** WithTransaction: business writes and outbox inserts commit together or not at all. */
module WithTransaction {
  import opened Options
  import opened OutboxTypes
  import opened OutboxMachine
  import opened Postgres
  import opened OutboxStore

  /**
   A statement the body issued; an event's id is given or minted by the insert. What the body did with an error is its
   own affair: it may go on regardless.
   */
  datatype Op =
    | Write(cell: string, value: string, ok: bool)
    | InsertEvent(id: Id, given: bool, facts: Facts, luck: Luck)

  /** How the body ended, and how the whole call did. */
  datatype Ending = Nil | Error | Panic

  /** The writes after one more statement, or nothing when it fails. */
  function AfterOp(rows: map<Id, Row>, w: Overlay, op: Op, now: int, newer: bool): Option<Overlay> {
    match op
    case Write(cell, value, ok) => if ok then Some(w.(cells := w.cells[cell := value])) else None
    case InsertEvent(id, _, facts, luck) =>
      var how := InsertOutcome(Visible(rows, w.rows, id).Some?, newer, luck);
      if how == Broken then None else Some(Written(how, w, id, InsertChange(facts, now, newer)))
  }

  /** All of the body's writes, or nothing when any statement of it failed. */
  function AllWrites(rows: map<Id, Row>, w: Overlay, body: seq<Op>, now: int, newer: bool): Option<Overlay>
    decreases |body|
  {
    if body == [] then Some(w)
    else
      match AfterOp(rows, w, body[0], now, newer)
      case None => None
      case Some(w') => AllWrites(rows, w', body[1..], now, newer)
  }

  class Database {
    /** Whether its outbox table has the newer columns. */
    const newer: bool
    var content: Overlay

    constructor (content: Overlay, newer: bool)
      ensures this.content == content && this.newer == newer
    {
      this.content, this.newer := content, newer;
    }

    method Execute(tx: Tx, op: Op, now: int) returns (err: bool)
      requires tx.Flat()
      modifies tx
      ensures tx.Flat()
      ensures var after := AfterOp(content.rows, old(tx.Writes()), op, now, newer);
              && tx.aborted == (old(tx.aborted) || after.None?)
              && (!tx.aborted ==> tx.Writes() == after.value)
    {
      match op
      case Write(cell, value, ok) => err := tx.PutCell(cell, value, ok);
      case InsertEvent(id, given, facts, luck) =>
        var own := if given then Some(id) else None;
        var _, e := OutboxStore.Insert(tx, content.rows, newer, own, id, facts, now, luck);
        err := e;
    }

    /**
     Whatever the body did and however it ended, the database holds all of its writes or none: all when the call
     returns nil; none otherwise, except when the commit was carried out and its answer lost. An error the body
     swallowed leaves nothing.
     */
    method WithTransaction(body: seq<Op>, ending: Ending, begins: bool, commit: Answer, now: int) returns (res: Ending)
      modifies this
      ensures var all := AllWrites(old(content).rows, NOTHING, body, now, newer);
              && (content == old(content) || (all.Some? && content == Over(old(content), all.value)))
              && (res == Nil ==> ending == Nil && all.Some? && content == Over(old(content), all.value))
              && (res != Nil && content != old(content) ==> ending == Nil && commit == Lost)
              && (res == Nil <==> begins && ending == Nil && all.Some? && commit == Done)
              && (res == Panic <==> begins && ending == Panic)
    {
      if !begins { return Error; }
      var tx := new Tx();
      var i := 0;
      assert body[0..] == body;
      while i < |body|
        invariant 0 <= i <= |body| && tx.Flat() && fresh(tx) && content == old(content)
        invariant AllWrites(content.rows, NOTHING, body, now, newer)
               == if tx.aborted then None else AllWrites(content.rows, tx.Writes(), body[i..], now, newer)
      {
        assert body[i..][0] == body[i] && body[i..][1..] == body[i + 1..];
        var _ := Execute(tx, body[i], now);
        i := i + 1;
      }
      if ending != Nil { return ending; }
      if tx.aborted || commit == Declined { return Error; }
      content := Over(content, tx.Writes());
      return if commit == Lost then Error else Nil;
    }
  }

  predicate IsLastWrite(body: seq<Op>, k: nat) {
    && k < |body| && body[k].Write?
    && forall j :: k < j < |body| && body[j].Write? ==> body[j].cell != body[k].cell
  }

  predicate Untouched(body: seq<Op>, cell: string) {
    forall k :: 0 <= k < |body| && body[k].Write? ==> body[k].cell != cell
  }

  function Inserts(body: seq<Op>): nat {
    if body == [] then 0 else Inserts(body[1..]) + if body[0].InsertEvent? then 1 else 0
  }

  lemma WrittenAddsOne(rows: map<Id, Row>, w: Overlay, op: Op, now: int, newer: bool)
    requires op.InsertEvent? && AfterOp(rows, w, op, now, newer).Some?
    ensures var w' := AfterOp(rows, w, op, now, newer).value;
            && op.id !in w.rows && op.id !in rows && w'.rows.Keys == w.rows.Keys + {op.id} && w'.cells == w.cells
            && |w'.rows| == |w.rows| + 1 && (forall id :: id in w.rows ==> w'.rows[id] == w.rows[id])
            && IsFresh(w'.rows[op.id], op.facts, now)
  {
  }

  /** A new row: pending, never tried, due at once, about the event it was inserted for. */
  predicate IsFresh(row: Row, facts: Facts, now: int) {
    && row.status == Pending && row.retryCount == 0 && row.publishedAt == None && Due(row, now, true)
    && row.facts == facts.(createdAt := now, headers := row.facts.headers)
  }

  /** A body adds as many rows as it made Insert calls and keeps what was there. */
  lemma {:induction false} AllCounted(rows: map<Id, Row>, w: Overlay, body: seq<Op>, now: int, newer: bool)
    requires AllWrites(rows, w, body, now, newer).Some?
    ensures var w' := AllWrites(rows, w, body, now, newer).value;
            && |w'.rows| == |w.rows| + Inserts(body)
            && forall id :: id in w.rows ==> id in w'.rows && w'.rows[id] == w.rows[id]
    decreases |body|
  {
    if body == [] {
    } else {
      AllCounted(rows, AfterOp(rows, w, body[0], now, newer).value, body[1..], now, newer);
      if body[0].InsertEvent? { WrittenAddsOne(rows, w, body[0], now, newer); }
    }
  }

  /** Every insert, with or without the newer columns, leaves a fresh row under an unused id. */
  lemma {:induction false} AllInserted(rows: map<Id, Row>, w: Overlay, body: seq<Op>, now: int, newer: bool, k: nat)
    requires AllWrites(rows, w, body, now, newer).Some? && k < |body| && body[k].InsertEvent?
    ensures var w' := AllWrites(rows, w, body, now, newer).value;
            && body[k].id in w'.rows && body[k].id !in rows && body[k].id !in w.rows
            && IsFresh(w'.rows[body[k].id], body[k].facts, now)
    decreases |body|
  {
    var w1 := AfterOp(rows, w, body[0], now, newer).value;
    if body[0].InsertEvent? { WrittenAddsOne(rows, w, body[0], now, newer); }
    if k == 0 {
      AllCounted(rows, w1, body[1..], now, newer);
    } else {
      AllInserted(rows, w1, body[1..], now, newer, k - 1);
    }
  }

  /** Every business write is there unless a later one overwrote it, and nothing else is. */
  lemma {:induction false} AllWritten(rows: map<Id, Row>, w: Overlay, body: seq<Op>, now: int, newer: bool)
    requires AllWrites(rows, w, body, now, newer).Some?
    ensures var w' := AllWrites(rows, w, body, now, newer).value;
            && (forall k :: 0 <= k < |body| && IsLastWrite(body, k) ==>
                  body[k].cell in w'.cells && w'.cells[body[k].cell] == body[k].value)
            && (forall cell :: cell in w.cells ==> cell in w'.cells)
            && (forall cell :: cell in w'.cells && Untouched(body, cell) ==>
                  cell in w.cells && w'.cells[cell] == w.cells[cell])
    decreases |body|
  {
    if body == [] {
    } else {
      var w1 := AfterOp(rows, w, body[0], now, newer).value;
      var w' := AllWrites(rows, w, body, now, newer).value;
      AllWritten(rows, w1, body[1..], now, newer);
      assert forall k :: 0 < k < |body| ==> body[k] == body[1..][k - 1];
      forall cell | cell in w'.cells && Untouched(body, cell)
        ensures cell in w.cells && w'.cells[cell] == w.cells[cell]
      {
        assert Untouched(body[1..], cell);
      }
      forall k | 0 <= k < |body| && IsLastWrite(body, k)
        ensures body[k].cell in w'.cells && w'.cells[body[k].cell] == body[k].value
      {
        LastWriteKept(rows, w, body, now, newer, k, w1, w');
      }
    }
  }

  lemma LastWriteKept(rows: map<Id, Row>, w: Overlay, body: seq<Op>, now: int, newer: bool, k: nat, w1: Overlay,
                      w': Overlay)
    requires body != [] && IsLastWrite(body, k) && AfterOp(rows, w, body[0], now, newer) == Some(w1)
    requires forall j :: 0 <= j < |body| - 1 && IsLastWrite(body[1..], j) ==>
               body[1..][j].cell in w'.cells && w'.cells[body[1..][j].cell] == body[1..][j].value
    requires forall cell :: cell in w1.cells ==> cell in w'.cells
    requires forall cell :: cell in w'.cells && Untouched(body[1..], cell) ==>
               cell in w1.cells && w'.cells[cell] == w1.cells[cell]
    ensures body[k].cell in w'.cells && w'.cells[body[k].cell] == body[k].value
  {
  }

  /* ---------- A committed body as a step of the outbox machine ---------- */

  lemma {:induction false} BodyInserts(s: State, w: Overlay, body: seq<Op>, now: int, newer: bool)
    requires CanInsert(s, w.rows) && AllWrites(s.rows, w, body, now, newer).Some?
    ensures CanInsert(s, AllWrites(s.rows, w, body, now, newer).value.rows)
    decreases |body|
  {
    if body == [] {
    } else {
      var w1 := AfterOp(s.rows, w, body[0], now, newer).value;
      if body[0].InsertEvent? { WrittenAddsOne(s.rows, w, body[0], now, newer); }
      BodyInserts(s, w1, body[1..], now, newer);
    }
  }

  /** What a committed body does to the outbox is an insert step of the machine, of a row per Insert call. */
  lemma CommittedBodyIsInsert(s: State, content: Overlay, body: seq<Op>, now: int, newer: bool, w: Overlay)
    requires content.rows == s.rows && AllWrites(s.rows, NOTHING, body, now, newer) == Some(w)
    ensures CanInsert(s, w.rows) && |w.rows| == Inserts(body) && Inserted(s, w.rows).rows == Over(content, w).rows
  {
    assert CanInsert(s, NOTHING.rows);
    BodyInserts(s, NOTHING, body, now, newer);
    AllCounted(s.rows, NOTHING, body, now, newer);
  }
}
