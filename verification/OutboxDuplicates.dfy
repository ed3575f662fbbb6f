/** Duplicate publishes: acknowledged cycles that roll back publish again, as often as it happens. */
module OutboxDuplicates {
  import opened OutboxTypes
  import opened OutboxMachine
  import opened OutboxSchedules
  import opened OutboxDelivery

  /** A cycle that crashes after the broker has acknowledged its row and before it commits. */
  function LostCycle(t: TxId, cfg: Config, id: Id): seq<Label> {
    Taking(t, cfg, id, true) + [Publish(t, 0, true), Abort(t)]
  }

  /** What such a cycle leaves: an acknowledged message, and otherwise only its own record. */
  function Crashed(s: State, t: TxId, cfg: Config, id: Id): State
    requires id in s.rows
  {
    s.(cfgs := s.cfgs[t := cfg], rolledBack := s.rolledBack + {t},
       log := s.log + Emitted(Main, t, Event(id, s.rows[id]), s.rows[id].facts.topic, 0, true))
  }

  lemma NothingElseLeft(s: State, id: Id, t: TxId, c: Cycle)
    requires id !in s.locks && t !in s.locks.Values && t !in s.open
    ensures Unlocked(s.locks[id := t], t) == s.locks && s.open[t := c] - {t} == s.open
  {
  }

  lemma LostCycleRuns(s: State, t: TxId, cfg: Config, id: Id)
    requires CanTake(s, t, cfg, id, true) && t !in s.locks.Values && t !in s.open
    ensures ValidRun(s, LostCycle(t, cfg, id)) && Run(s, LostCycle(t, cfg, id)) == Crashed(s, t, cfg, id)
  {
    var e, s2 := Event(id, s.rows[id]), Taken(s, t, cfg, id, true);
    TakingRuns(s, t, cfg, id, true);
    HoldingPublishes(s2, t, cfg, e, true, true);
    var s3 := Sent(s2, t, 0, true);
    RunTwo(s2, Publish(t, 0, true), Abort(t), RolledBack(s3, t));
    RunConcat(s, Taking(t, cfg, id, true), [Publish(t, 0, true), Abort(t)]);
    NothingElseLeft(s, id, t, Answered(cfg, s.now, e, true, true));
    assert RolledBack(s3, t) == Crashed(s, t, cfg, id) by {
      assert s2.open[t := Answered(cfg, s.now, e, true, true)] == s.open[t := Answered(cfg, s.now, e, true, true)];
    }
  }

  /** n lost cycles in a row, by the transactions 0 to n - 1, and what they leave. */
  function LostCycles(n: nat, cfg: Config, id: Id): seq<Label> {
    if n == 0 then [] else LostCycles(n - 1, cfg, id) + LostCycle(n - 1, cfg, id)
  }

  function CrashedAll(s: State, n: nat, cfg: Config, id: Id): (s': State)
    requires id in s.rows
    ensures s'.rows == s.rows
  {
    if n == 0 then s else Crashed(CrashedAll(s, n - 1, cfg, id), n - 1, cfg, id)
  }

  lemma OneMoreAck(log: seq<Message>, t: TxId, e: Event, topic: string)
    ensures TotalAcks(log + Emitted(Main, t, e, topic, 0, true), e.id) == TotalAcks(log, e.id) + 1
  {
    var ms := Emitted(Main, t, e, topic, 0, true);
    assert |ms| == 1 && (log + ms)[..|log|] == log;
  }

  /** A row has been inserted, is free and due, and the next unused transaction is n. */
  ghost predicate Waiting(s: State, n: nat, cfg: Config, id: Id, row: Row) {
    && id in s.rows && s.rows[id] == row && id in s.attempts && s.locks == map[] && s.open == map[]
    && s.maxRetries == cfg.maxRetries && (forall t :: t in s.cfgs ==> t < n) && Due(row, s.now, true)
  }

  lemma CrashedOnce(s: State, n: nat, cfg: Config, id: Id, row: Row)
    requires Waiting(s, n, cfg, id, row)
    ensures Waiting(Crashed(s, n, cfg, id), n + 1, cfg, id, row)
    ensures TotalAcks(Crashed(s, n, cfg, id).log, id) == TotalAcks(s.log, id) + 1
  {
    OneMoreAck(s.log, n, Event(id, row), row.facts.topic);
  }

  /** After n crashed cycles the row still waits, and n acknowledgements more are at the broker. */
  ghost predicate AfterCrashes(s: State, s': State, n: nat, cfg: Config, id: Id, row: Row) {
    Waiting(s', n, cfg, id, row) && TotalAcks(s'.log, id) == TotalAcks(s.log, id) + n
  }

  lemma OneCrashMore(s: State, s1: State, s2: State, n: nat, cfg: Config, id: Id, row: Row)
    requires AfterCrashes(s, s1, n, cfg, id, row) && s2 == Crashed(s1, n, cfg, id)
    ensures AfterCrashes(s, s2, n + 1, cfg, id, row)
  {
    CrashedOnce(s1, n, cfg, id, row);
  }

  lemma {:induction false} CrashedWaits(s: State, n: nat, cfg: Config, id: Id, row: Row)
    requires Waiting(s, 0, cfg, id, row)
    ensures AfterCrashes(s, CrashedAll(s, n, cfg, id), n, cfg, id, row)
  {
    if n == 0 {
    } else {
      CrashedWaits(s, n - 1, cfg, id, row);
      OneCrashMore(s, CrashedAll(s, n - 1, cfg, id), CrashedAll(s, n, cfg, id), n - 1, cfg, id, row);
    }
  }

  /** `ls` leads from one state to another. */
  ghost predicate Leads(s: State, ls: seq<Label>, s': State) {
    ValidRun(s, ls) && Run(s, ls) == s'
  }

  lemma LeadsOn(s: State, ls: seq<Label>, s1: State, ms: seq<Label>, s2: State)
    requires Leads(s, ls, s1) && Leads(s1, ms, s2)
    ensures Leads(s, ls + ms, s2)
  {
    RunConcat(s, ls, ms);
  }

  lemma LostCycleLeads(s: State, n: nat, cfg: Config, id: Id, row: Row)
    requires Waiting(s, n, cfg, id, row) && Usable(cfg) && row.facts.envelope.Some?
    ensures Leads(s, LostCycle(n, cfg, id), Crashed(s, n, cfg, id))
  {
    LostCycleRuns(s, n, cfg, id);
  }

  lemma OneLostMore(s: State, s1: State, s2: State, n: nat, cfg: Config, id: Id, row: Row)
    requires Leads(s, LostCycles(n, cfg, id), s1) && Waiting(s1, n, cfg, id, row) && s2 == Crashed(s1, n, cfg, id)
    requires Usable(cfg) && row.facts.envelope.Some?
    ensures Leads(s, LostCycles(n + 1, cfg, id), s2)
  {
    LostCycleLeads(s1, n, cfg, id, row);
    LeadsOn(s, LostCycles(n, cfg, id), s1, LostCycle(n, cfg, id), s2);
  }

  lemma {:induction false} LostCyclesRun(s: State, n: nat, cfg: Config, id: Id, row: Row)
    requires Waiting(s, 0, cfg, id, row) && Usable(cfg) && row.facts.envelope.Some?
    ensures Leads(s, LostCycles(n, cfg, id), CrashedAll(s, n, cfg, id))
  {
    if n == 0 {
    } else {
      LostCyclesRun(s, n - 1, cfg, id, row);
      CrashedWaits(s, n - 1, cfg, id, row);
      OneLostMore(s, CrashedAll(s, n - 1, cfg, id), CrashedAll(s, n, cfg, id), n - 1, cfg, id, row);
    }
  }

  function Duplicating(cfg: Config, id: Id, row: Row, n: nat): seq<Label> {
    [Insert(map[id := row])] + LostCycles(n, cfg, id) + OneRowCycle(n, cfg, id, row, true, true, true)
  }

  /**
   For every new parseable row, every configuration and every n, there is a run that publishes the row's event n + 1
   times with acknowledgement: n cycles crash before they commit, and the next one marks the row published.
   */
  lemma DuplicatesHappen(cfg: Config, id: Id, row: Row, now: int, n: nat)
    requires Usable(cfg) && row.status == Pending && row.retryCount == 0 && row.facts.envelope.Some?
    requires Due(row, now, true)
    ensures ValidRun(Init(cfg.maxRetries, now), Duplicating(cfg, id, row, n))
    ensures var s := Run(Init(cfg.maxRetries, now), Duplicating(cfg, id, row, n));
            id in s.rows && s.rows[id].status == Published && TotalAcks(s.log, id) == n + 1
  {
    var s0, insert := Init(cfg.maxRetries, now), Insert(map[id := row]);
    var s1 := Inserted(s0, map[id := row]);
    RunOne(s0, insert, s1);
    LostCyclesRun(s1, n, cfg, id, row);
    CrashedWaits(s1, n, cfg, id, row);
    RunConcat(s0, [insert], LostCycles(n, cfg, id));
    PublishedAtLast(CrashedAll(s1, n, cfg, id), n, cfg, id, row);
    RunConcat(s0, [insert] + LostCycles(n, cfg, id), OneRowCycle(n, cfg, id, row, true, true, true));
  }

  lemma PublishedAtLast(s: State, n: nat, cfg: Config, id: Id, row: Row)
    requires Waiting(s, n, cfg, id, row) && Usable(cfg) && row.facts.envelope.Some?
    ensures ValidRun(s, OneRowCycle(n, cfg, id, row, true, true, true))
    ensures var s' := Run(s, OneRowCycle(n, cfg, id, row, true, true, true));
            id in s'.rows && s'.rows[id].status == Published && TotalAcks(s'.log, id) == TotalAcks(s.log, id) + 1
  {
    OneRowCycleRuns(s, n, cfg, id, row, true, true, true);
    OneMoreAck(s.log, n, Event(id, row), row.facts.topic);
  }
}
