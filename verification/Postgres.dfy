/** One PostgreSQL transaction as pgx sees it: uncommitted writes, nested savepoints and the aborted state. */
module Postgres {
  import opened Options
  import opened OutboxTypes

  /** Uncommitted writes to business cells and outbox rows. */
  datatype Overlay = Overlay(cells: map<string, string>, rows: map<Id, Row>)

  const NOTHING := Overlay(map[], map[])

  function Over(lower: Overlay, upper: Overlay): Overlay {
    Overlay(lower.cells + upper.cells, lower.rows + upper.rows)
  }

  function Merged(stack: seq<Overlay>): Overlay {
    if stack == [] then NOTHING else Over(Merged(stack[..|stack| - 1]), stack[|stack| - 1])
  }

  function Put(writes: Overlay, id: Id, row: Option<Row>): Overlay {
    if row.None? then writes else writes.(rows := writes.rows[id := row.value])
  }

  /** Which statements of a store operation the server carries out; a refused statement reports an error. */
  datatype Luck = Luck(counter: bool, savepoint: bool, primary: bool, release: bool, rollback: bool, fallback: bool)

  function AllLocks(levels: seq<set<Id>>): set<Id> {
    if levels == [] then {} else AllLocks(levels[..|levels| - 1]) + levels[|levels| - 1]
  }

  /**
   `stack[0]` holds the transaction's own writes and each further element those of an open savepoint; `levels` holds
   the rows each of them selected for update. Once a statement fails, every later one fails until a rollback to a
   savepoint; with no savepoint left, nothing helps.
   */
  class Tx {
    var stack: seq<Overlay>
    var levels: seq<set<Id>>
    var aborted: bool

    ghost predicate Valid()
      reads this
    {
      |stack| == |levels| >= 1
    }

    /** No savepoint is open: the state in which every store operation begins and ends. */
    ghost predicate Flat()
      reads this
    {
      |stack| == |levels| == 1
    }

    /** One savepoint is open. */
    ghost predicate Nested()
      reads this
    {
      |stack| == |levels| == 2
    }

    function Writes(): Overlay
      reads this
    {
      Merged(stack)
    }

    /** The rows the transaction holds for update. */
    function Locks(): set<Id>
      reads this
    {
      AllLocks(levels)
    }

    constructor ()
      ensures Flat() && !aborted && Writes() == NOTHING && Locks() == {}
    {
      stack, levels := [NOTHING], [{}];
      aborted := false;
      new;
      MergeSingle(stack);
    }

    /** SAVEPOINT: later writes can be undone separately. */
    method Savepoint(ok: bool) returns (err: bool)
      requires Valid()
      modifies this
      ensures Valid() && Writes() == old(Writes())
      ensures err == (old(aborted) || !ok) && aborted == err
      ensures stack == if err then old(stack) else old(stack) + [NOTHING]
      ensures levels == if err then old(levels) else old(levels) + [{}]
    {
      err := aborted || !ok;
      if err {
        aborted := true;
      } else {
        ghost var was := stack;
        stack, levels := stack + [NOTHING], levels + [{}];
        assert stack[..|stack| - 1] == was;
      }
    }

    /** RELEASE SAVEPOINT: the savepoint's writes and locks become the enclosing level's. */
    method Release(ok: bool) returns (err: bool)
      requires Nested()
      modifies this
      ensures Flat() && err == (old(aborted) || !ok) && aborted == err
      ensures !err ==> Writes() == old(Writes())
      ensures levels == if err then old(levels)[..1] else [old(levels)[0] + old(levels)[1]]
    {
      err := aborted || !ok;
      levels := if err then levels[..1] else [levels[0] + levels[1]];
      if err {
        stack := [stack[0]];
        aborted := true;
      } else {
        MergePair(stack);
        stack := [Over(stack[0], stack[1])];
        MergeSingle(stack);
      }
    }

    /** ROLLBACK TO SAVEPOINT: its writes and locks vanish and the transaction is usable again. */
    method RollbackTo(ok: bool)
      requires Nested()
      modifies this
      ensures Flat() && aborted == !ok && stack == old(stack)[..1] && levels == old(levels)[..1]
    {
      stack, levels := stack[..1], levels[..1];
      aborted := !ok;
    }

    /** SELECT ... FOR UPDATE: locks rows at the current level, some of them possibly even if it fails. */
    method SelectForUpdate(ids: set<Id>, ok: bool) returns (err: bool)
      requires Valid()
      modifies this
      ensures stack == old(stack) && err == (old(aborted) || !ok) && aborted == err
      ensures levels == old(levels)[|old(levels)| - 1 := old(levels)[|old(levels)| - 1] + ids]
    {
      err := aborted || !ok;
      aborted := err;
      levels := levels[|levels| - 1 := levels[|levels| - 1] + ids];
    }

    /** A statement that writes one outbox row, or none when its condition matches none. */
    method PutRow(id: Id, row: Option<Row>, ok: bool) returns (err: bool)
      requires Valid()
      modifies this
      ensures Valid() && levels == old(levels)
      ensures |stack| == |old(stack)| && stack[..|stack| - 1] == old(stack)[..|stack| - 1]
      ensures err == (old(aborted) || !ok) && aborted == err
      ensures err ==> stack == old(stack)
      ensures !err ==> Writes() == Put(old(Writes()), id, row)
    {
      err := aborted || !ok;
      aborted := err;
      if !err && row.Some? {
        var top := stack[|stack| - 1];
        ghost var was := stack;
        stack := stack[..|stack| - 1] + [Put(top, id, row)];
        assert stack[..|stack| - 1] == was[..|was| - 1];
      }
    }

    /** A statement that writes one business cell. */
    method PutCell(cell: string, value: string, ok: bool) returns (err: bool)
      requires Valid()
      modifies this
      ensures Valid() && |stack| == |old(stack)| && levels == old(levels)
      ensures err == (old(aborted) || !ok) && aborted == err
      ensures !err ==> Writes() == old(Writes()).(cells := old(Writes()).cells[cell := value])
    {
      err := aborted || !ok;
      aborted := err;
      if !err {
        var top := stack[|stack| - 1];
        ghost var was := stack;
        stack := stack[..|stack| - 1] + [top.(cells := top.cells[cell := value])];
        assert stack[..|stack| - 1] == was[..|was| - 1];
      }
    }
  }

  lemma MergeSingle(stack: seq<Overlay>)
    requires |stack| == 1
    ensures Merged(stack) == stack[0]
  {
  }

  lemma MergePair(stack: seq<Overlay>)
    requires |stack| == 2
    ensures Merged(stack) == Over(stack[0], stack[1])
  {
    assert stack[..1] == [stack[0]];
    MergeSingle(stack[..1]);
  }

  lemma LocksSingle(levels: seq<set<Id>>)
    requires |levels| == 1
    ensures AllLocks(levels) == levels[0]
  {
    assert levels[..0] == [];
  }
}
