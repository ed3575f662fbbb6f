/** Progress: how many committed cycles a backlog can take. */
module OutboxProgress {
  import opened OutboxTypes
  import opened OutboxMachine
  import opened OutboxInvariant

  /** How many more failed attempts a row can absorb while pending. */
  function RungsLeft(row: Row, maxRetries: int): nat {
    if row.status == Pending && row.retryCount < maxRetries then maxRetries - row.retryCount else 0
  }

  ghost function Work(rows: map<Id, Row>, ids: set<Id>, maxRetries: int): nat {
    if ids == {} then 0
    else
      var id :| id in ids;
      Work(rows, ids - {id}, maxRetries) + if id in rows then RungsLeft(rows[id], maxRetries) else 0
  }

  ghost function Backlog(s: State): nat {
    Work(s.rows, s.rows.Keys, s.maxRetries)
  }

  /** Lowering rows lowers the work; lowering one of them strictly lowers it strictly. */
  lemma {:induction false} WorkShrinks(rows: map<Id, Row>, rows': map<Id, Row>, ids: set<Id>, m: int)
    requires ids <= rows.Keys && ids <= rows'.Keys
    requires forall id :: id in ids ==> RungsLeft(rows'[id], m) <= RungsLeft(rows[id], m)
    ensures Work(rows', ids, m) <= Work(rows, ids, m)
    ensures (exists id :: id in ids && RungsLeft(rows'[id], m) < RungsLeft(rows[id], m)) ==>
              Work(rows', ids, m) < Work(rows, ids, m)
    decreases ids
  {
    if ids == {} {
    } else {
      var id :| id in ids && Work(rows, ids, m) == Work(rows, ids - {id}, m) + RungsLeft(rows[id], m)
                          && Work(rows', ids, m) == Work(rows', ids - {id}, m) + RungsLeft(rows'[id], m);
      WorkShrinks(rows, rows', ids - {id}, m);
    }
  }

  lemma {:induction false} WorkBounds(rows: map<Id, Row>, ids: set<Id>, m: int)
    requires ids <= rows.Keys && m >= 1 && forall id :: id in ids ==> OnLadder(rows[id], m)
    ensures Work(rows, ids, m) <= |ids| * m
    ensures Work(rows, ids, m) == 0 <==> forall id :: id in ids ==> rows[id].status != Pending
    decreases ids
  {
    if ids == {} {
      assert |ids| * m == 0;
    } else {
      var id :| id in ids && Work(rows, ids, m) == Work(rows, ids - {id}, m) + RungsLeft(rows[id], m);
      var rest := ids - {id};
      WorkBounds(rows, rest, m);
      assert OnLadder(rows[id], m);
      assert 0 <= RungsLeft(rows[id], m) <= m && (RungsLeft(rows[id], m) == 0 <==> rows[id].status != Pending);
      OneMore(|rest|, m);
      assert |ids| == |rest| + 1;
      assert ids == rest + {id};
    }
  }

  lemma OneMore(n: nat, m: int)
    ensures (n + 1) * m == n * m + m
  {
  }

  /** A commit that settles a non-empty batch. */
  predicate Settles(s: State, l: Label) {
    l.Commit? && l.applied && l.t in s.open && s.open[l.t].batch != []
  }

  /** Every row a cycle writes is left with fewer rungs. */
  lemma WriteDescends(rows: map<Id, Row>, c: Cycle, id: Id)
    requires CycleOk(rows, c) && id in c.writes && (id in rows ==> OnLadder(rows[id], c.cfg.maxRetries))
    ensures id in rows && RungsLeft(c.writes[id], c.cfg.maxRetries) < RungsLeft(rows[id], c.cfg.maxRetries)
  {
    WriteClimbs(rows, c, id);
  }

  lemma CommitWorks(s: State, t: TxId)
    requires Ledger(s) && CyclesOk(s) && Ladder(s) && CanCommit(s, t, true)
    ensures Backlog(Committed(s, t)) + (if s.open[t].batch != [] then 1 else 0) <= Backlog(s)
  {
    var c := s.open[t];
    forall id | id in c.writes
      ensures id in s.rows && RungsLeft(c.writes[id], s.maxRetries) < RungsLeft(s.rows[id], s.maxRetries)
    {
      WriteDescends(s.rows, c, id);
    }
    if c.batch != [] { assert CycleOk(s.rows, c) && c.batch[0].id in c.writes; }
    OverlayWorks(s.rows, c.writes, s.maxRetries);
  }

  lemma OverlayWorks(rows: map<Id, Row>, writes: map<Id, Row>, m: int)
    requires forall id :: id in writes ==> id in rows && RungsLeft(writes[id], m) < RungsLeft(rows[id], m)
    ensures (rows + writes).Keys == rows.Keys
    ensures Work(rows + writes, rows.Keys, m) + (if writes != map[] then 1 else 0) <= Work(rows, rows.Keys, m)
  {
    assert (rows + writes).Keys == rows.Keys;
    if writes != map[] {
      var id :| id in writes;
      assert id in rows.Keys && RungsLeft((rows + writes)[id], m) < RungsLeft(rows[id], m);
    }
    WorkShrinks(rows, rows + writes, rows.Keys, m);
  }

  ghost function SettlingCommits(s: State, ls: seq<Label>): nat
    requires ValidRun(s, ls)
    decreases |ls|
  {
    if ls == [] then 0 else SettlingCommits(Apply(s, ls[0]), ls[1..]) + if Settles(s, ls[0]) then 1 else 0
  }

  predicate NoNewWork(ls: seq<Label>) {
    forall k :: 0 <= k < |ls| ==> !ls[k].Insert? && !ls[k].Requeue?
  }

  lemma OtherStepsKeepRows(s: State, l: Label)
    requires Enabled(s, l) && !l.Insert? && !l.Requeue? && !(l.Commit? && l.applied)
    ensures Apply(s, l).rows == s.rows && Apply(s, l).maxRetries == s.maxRetries
  {
  }

  lemma StepWorks(s: State, l: Label)
    requires Ledger(s) && CyclesOk(s) && Ladder(s) && Enabled(s, l) && !l.Insert? && !l.Requeue?
    ensures Backlog(Apply(s, l)) + (if Settles(s, l) then 1 else 0) <= Backlog(s)
  {
    if l.Commit? && l.applied { CommitWorks(s, l.t); } else { OtherStepsKeepRows(s, l); }
  }

  lemma NoNewWorkLater(ls: seq<Label>)
    requires ls != [] && NoNewWork(ls)
    ensures NoNewWork(ls[1..]) && !ls[0].Insert? && !ls[0].Requeue?
  {
    assert forall k :: 0 <= k < |ls[1..]| ==> ls[1..][k] == ls[k + 1];
  }

  lemma {:induction false} RunWorks(s: State, ls: seq<Label>)
    requires Inv(s) && ValidRun(s, ls) && NoNewWork(ls)
    ensures SettlingCommits(s, ls) + Backlog(Run(s, ls)) <= Backlog(s)
    decreases |ls|
  {
    if ls == [] {
    } else {
      InvKept(s, ls[0]);
      NoNewWorkLater(ls);
      RunWorks(Apply(s, ls[0]), ls[1..]);
      StepWorks(s, ls[0]);
    }
  }

  /**
   Without new work, from any reachable state at most rows * maxRetries commits settle a batch, whatever fails or
   crashes in between; and once that many have, no row is pending.
   */
  lemma BacklogDrains(maxRetries: int, now: int, ls: seq<Label>, ms: seq<Label>)
    requires maxRetries >= 1 && ValidRun(Init(maxRetries, now), ls)
    requires ValidRun(Run(Init(maxRetries, now), ls), ms) && NoNewWork(ms)
    ensures var s := Run(Init(maxRetries, now), ls);
            var s' := Run(s, ms);
            && SettlingCommits(s, ms) <= Backlog(s) <= |s.rows| * s.maxRetries
            && (SettlingCommits(s, ms) == Backlog(s) ==> forall id :: id in s'.rows ==> s'.rows[id].status != Pending)
  {
    var s := Run(Init(maxRetries, now), ls);
    InitInv(maxRetries, now);
    RunInv(Init(maxRetries, now), ls);
    RunInv(s, ms);
    RunWorks(s, ms);
    WorkBounds(s.rows, s.rows.Keys, s.maxRetries);
    var s' := Run(s, ms);
    WorkBounds(s'.rows, s'.rows.Keys, s'.maxRetries);
    assert |s.rows| == |s.rows.Keys|;
  }
}
