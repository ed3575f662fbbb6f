/** Schedules built step by step: single cycles that run through from any state in which they can begin. */
module OutboxSchedules {
  import opened OutboxTypes
  import opened OutboxMachine

  lemma RunOne(s: State, l: Label, s': State)
    requires Enabled(s, l) && s' == Apply(s, l)
    ensures ValidRun(s, [l]) && Run(s, [l]) == s'
  {
    assert [l][1..] == [] && ValidRun(s', []) && Run(s', []) == s';
  }

  lemma RunTwo(s: State, l: Label, m: Label, s': State)
    requires Enabled(s, l) && Enabled(Apply(s, l), m) && s' == Apply(Apply(s, l), m)
    ensures ValidRun(s, [l, m]) && Run(s, [l, m]) == s'
  {
    RunOne(s, l, Apply(s, l));
    RunOne(Apply(s, l), m, s');
    RunConcat(s, [l], [m]);
    assert [l] + [m] == [l, m];
  }

  /** A free, due, parseable row, and a cycle that may begin. */
  predicate CanTake(s: State, t: TxId, cfg: Config, id: Id, primary: bool) {
    && CanBegin(s, t, cfg) && id in s.rows && id !in s.locks && id in s.attempts
    && Due(s.rows[id], s.now, primary) && s.rows[id].facts.envelope.Some?
  }

  /* ---------- Claiming one row ---------- */

  function Taking(t: TxId, cfg: Config, id: Id, primary: bool): seq<Label> {
    [Begin(t, cfg), Claim(t, [id], primary)]
  }

  /** The cycle that has claimed one row. */
  function Holding(cfg: Config, start: int, e: Event, primary: bool): Cycle {
    ClaimedCycle(NewCycle(cfg, start), [e], primary)
  }

  function Taken(s: State, t: TxId, cfg: Config, id: Id, primary: bool): State
    requires id in s.rows
  {
    s.(cfgs := s.cfgs[t := cfg], locks := s.locks[id := t],
       open := s.open[t := Holding(cfg, s.now, Event(id, s.rows[id]), primary)])
  }

  lemma LocksOne(rows: map<Id, Row>, locks: map<Id, TxId>, id: Id, t: TxId)
    requires id in rows
    ensures Scanned(rows, [id]) == [Event(id, rows[id])] && Locked(locks, [id], t) == locks[id := t]
  {
    assert forall x :: x in [id] <==> x == id;
  }

  lemma TakingClaims(s: State, t: TxId, cfg: Config, id: Id, primary: bool)
    requires CanTake(s, t, cfg, id, primary)
    ensures CanClaim(Begun(s, t, cfg), t, [id], primary)
    ensures Claimed(Begun(s, t, cfg), t, [id], primary) == Taken(s, t, cfg, id, primary)
  {
    assert [id][0] == id;
    assert CanClaim(Begun(s, t, cfg), t, [id], primary);
    LocksOne(s.rows, s.locks, id, t);
    assert s.open[t := NewCycle(cfg, s.now)][t := Holding(cfg, s.now, Event(id, s.rows[id]), primary)]
        == s.open[t := Holding(cfg, s.now, Event(id, s.rows[id]), primary)];
  }

  lemma TakingRuns(s: State, t: TxId, cfg: Config, id: Id, primary: bool)
    requires CanTake(s, t, cfg, id, primary)
    ensures ValidRun(s, Taking(t, cfg, id, primary))
    ensures Run(s, Taking(t, cfg, id, primary)) == Taken(s, t, cfg, id, primary)
  {
    TakingClaims(s, t, cfg, id, primary);
    RunTwo(s, Begin(t, cfg), Claim(t, [id], primary), Taken(s, t, cfg, id, primary));
  }

  /* ---------- Publishing, marking and committing it ---------- */

  /** The cycle after the broker's answer, and after the dead letter if there is one. */
  function Answered(cfg: Config, start: int, e: Event, primary: bool, acked: bool): Cycle {
    Holding(cfg, start, e, primary).(phase := if acked then Acknowledged else Rejected(DelayOf(cfg, e.row)))
  }

  /** A refused last try is dead-lettered. */
  predicate Escalates(cfg: Config, row: Row, acked: bool) {
    !acked && LastTry(cfg, row) && DeadLetterTopic(cfg, row) != ""
  }

  function Publishing(t: TxId, cfg: Config, row: Row, acked: bool): seq<Label> {
    [Publish(t, 0, acked)] + if Escalates(cfg, row, acked) then [DeadLetter(t, 0, false)] else []
  }

  function Told(s: State, t: TxId, cfg: Config, e: Event, primary: bool, acked: bool): State
    requires t in s.open
  {
    s.(open := s.open[t := Answered(cfg, s.open[t].start, e, primary, acked)],
       log := s.log + Emitted(Main, t, e, e.row.facts.topic, 0, acked),
       dlqTries := s.dlqTries + if Escalates(cfg, e.row, acked) then {(t, e.id)} else {})
  }

  lemma HoldingPublishes(s: State, t: TxId, cfg: Config, e: Event, primary: bool, acked: bool)
    requires t in s.open && s.open[t] == Holding(cfg, s.open[t].start, e, primary) && e.row.facts.envelope.Some?
    ensures CanPublish(s, t)
    ensures !Escalates(cfg, e.row, acked) ==> Sent(s, t, 0, acked) == Told(s, t, cfg, e, primary, acked)
  {
    assert s.dlqTries + {} == s.dlqTries;
  }

  lemma HoldingEscalates(s: State, t: TxId, cfg: Config, e: Event, primary: bool)
    requires t in s.open && s.open[t] == Holding(cfg, s.open[t].start, e, primary) && e.row.facts.envelope.Some?
    requires Escalates(cfg, e.row, false)
    ensures CanPublish(s, t) && CanDeadLetter(Sent(s, t, 0, false), t)
    ensures Escalated(Sent(s, t, 0, false), t, 0, false) == Told(s, t, cfg, e, primary, false)
  {
    var s', c := Sent(s, t, 0, false), Holding(cfg, s.open[t].start, e, primary);
    assert s'.open == s.open[t := c.(phase := Exhausted(DelayOf(cfg, e.row)))];
    assert Emitted(DeadLettered, t, e, DeadLetterTopic(cfg, e.row), 0, false) == [];
    assert s'.log + [] == s'.log;
    var answered := Answered(cfg, c.start, e, primary, false);
    assert s'.open[t := answered] == s.open[t := answered];
  }

  lemma PublishingTells(s: State, t: TxId, cfg: Config, e: Event, primary: bool, acked: bool)
    requires t in s.open && s.open[t] == Holding(cfg, s.open[t].start, e, primary) && e.row.facts.envelope.Some?
    ensures ValidRun(s, Publishing(t, cfg, e.row, acked))
    ensures Run(s, Publishing(t, cfg, e.row, acked)) == Told(s, t, cfg, e, primary, acked)
  {
    if Escalates(cfg, e.row, acked) {
      HoldingEscalates(s, t, cfg, e, primary);
      RunTwo(s, Publish(t, 0, false), DeadLetter(t, 0, false), Told(s, t, cfg, e, primary, false));
      assert Publishing(t, cfg, e.row, acked) == [Publish(t, 0, false), DeadLetter(t, 0, false)];
    } else {
      HoldingPublishes(s, t, cfg, e, primary, acked);
      RunOne(s, Publish(t, 0, acked), Told(s, t, cfg, e, primary, acked));
      assert Publishing(t, cfg, e.row, acked) == [Publish(t, 0, acked)];
    }
  }

  /** The row version the answer calls for. */
  function Settled(cfg: Config, start: int, row: Row, acked: bool, full: bool): Row {
    if acked then MarkedPublished(row, start, full)
    else MarkedFailed(row, start, cfg.maxRetries, DelayOf(cfg, row), full)
  }

  function Finished(cfg: Config, start: int, e: Event, primary: bool, acked: bool, full: bool): Cycle {
    Holding(cfg, start, e, primary).(
      pos := 1, writes := map[e.id := Settled(cfg, start, e.row, acked, full)], legacy := if full then {} else {e.id})
  }

  lemma AnsweredMarks(s: State, t: TxId, cfg: Config, e: Event, primary: bool, acked: bool, full: bool)
    requires t in s.open && s.open[t] == Answered(cfg, s.open[t].start, e, primary, acked)
    requires e.id in s.rows && s.rows[e.id] == e.row
    ensures var how := if full then Full else Fallback;
            && CanMark(s, t, how)
            && Marked(s, t, how) == s.(open := s.open[t := Finished(cfg, s.open[t].start, e, primary, acked, full)])
            && CanCommit(Marked(s, t, how), t, true)
  {
    var how := if full then Full else Fallback;
    assert AfterMark(s.rows, s.open[t], e, how) == Finished(cfg, s.open[t].start, e, primary, acked, full);
  }

  lemma FinishedCommits(s: State, t: TxId, cfg: Config, e: Event, primary: bool, acked: bool, full: bool)
    requires t in s.open && s.open[t] == Finished(cfg, s.open[t].start, e, primary, acked, full)
    requires e.id in s.locks && s.locks[e.id] == t && e.id in s.attempts
    ensures var s', row := Committed(s, t), Settled(cfg, s.open[t].start, e.row, acked, full);
            && s'.rows == s.rows[e.id := row] && e.id !in s'.locks && e.id in s'.attempts
            && s'.attempts[e.id] == s.attempts[e.id]
                 + (if row.status == Published then []
                    else [Attempt(t, s.open[t].start, PauseOf(cfg, row), primary, full)])
            && s'.now == s.now && s'.maxRetries == s.maxRetries && s'.cfgs == s.cfgs && s'.log == s.log
  {
  }

  function Marking(t: TxId, full: bool): seq<Label> {
    [Mark(t, if full then Full else Fallback), Commit(t, true)]
  }

  lemma MarkingRuns(s: State, t: TxId, cfg: Config, e: Event, primary: bool, acked: bool, full: bool)
    requires t in s.open && s.open[t] == Answered(cfg, s.open[t].start, e, primary, acked)
    requires e.id in s.rows && s.rows[e.id] == e.row
    ensures var s4 := s.(open := s.open[t := Finished(cfg, s.open[t].start, e, primary, acked, full)]);
            ValidRun(s, Marking(t, full)) && Run(s, Marking(t, full)) == Committed(s4, t)
  {
    AnsweredMarks(s, t, cfg, e, primary, acked, full);
    var how := if full then Full else Fallback;
    RunTwo(s, Mark(t, how), Commit(t, true), Committed(Marked(s, t, how), t));
  }

  /** What a whole cycle on one row leaves: the row settled and free again, and an attempt on record if refused. */
  ghost predicate CycleMade(s: State, s': State, t: TxId, cfg: Config, id: Id, primary: bool, acked: bool, full: bool)
    requires id in s.rows && id in s.attempts
  {
    var row := Settled(cfg, s.now, s.rows[id], acked, full);
    && s'.rows == s.rows[id := row] && id !in s'.locks && id in s'.attempts
    && s'.attempts[id] == s.attempts[id]
         + (if acked then [] else [Attempt(t, s.now, PauseAfter(cfg, row.facts, s.rows[id].retryCount), primary, full)])
    && s'.now == s.now && s'.maxRetries == s.maxRetries && s'.cfgs == s.cfgs[t := cfg]
    && s'.log == s.log + Emitted(Main, t, Event(id, s.rows[id]), s.rows[id].facts.topic, 0, acked)
  }

  function OneRowCycle(t: TxId, cfg: Config, id: Id, row: Row, primary: bool, acked: bool, full: bool): seq<Label> {
    Taking(t, cfg, id, primary) + (Publishing(t, cfg, row, acked) + Marking(t, full))
  }

  lemma SettledShape(cfg: Config, start: int, row: Row, acked: bool, full: bool)
    ensures var r := Settled(cfg, start, row, acked, full);
            && r.facts == row.facts && (r.status == Published <==> acked)
            && (!acked ==> r.status == if LastTry(cfg, row) then Failed else Pending)
            && (!acked ==> r.retryCount == row.retryCount + 1)
            && (!acked ==> PauseOf(cfg, r) == PauseAfter(cfg, row.facts, row.retryCount))
  {
  }

  /** The state from which a cycle that published and marked its row commits. */
  function ReadyToCommit(s: State, t: TxId, cfg: Config, e: Event, primary: bool, acked: bool, full: bool): State
    requires t in s.open
  {
    Told(s, t, cfg, e, primary, acked).(
      open := s.open[t := Finished(cfg, s.open[t].start, e, primary, acked, full)])
  }

  /** From the claim on: the broker answers, the answer is marked, the cycle commits. */
  lemma PublishingRuns(s: State, t: TxId, cfg: Config, e: Event, primary: bool, acked: bool, full: bool)
    requires t in s.open && s.open[t] == Holding(cfg, s.open[t].start, e, primary)
    requires e.row.facts.envelope.Some? && e.id in s.rows && s.rows[e.id] == e.row
    ensures var ls := Publishing(t, cfg, e.row, acked) + Marking(t, full);
            ValidRun(s, ls) && Run(s, ls) == Committed(ReadyToCommit(s, t, cfg, e, primary, acked, full), t)
  {
    var s3, start := Told(s, t, cfg, e, primary, acked), s.open[t].start;
    PublishingTells(s, t, cfg, e, primary, acked);
    MarkingRuns(s3, t, cfg, e, primary, acked, full);
    RunConcat(s, Publishing(t, cfg, e.row, acked), Marking(t, full));
    assert s3.open[t := Finished(cfg, start, e, primary, acked, full)]
        == s.open[t := Finished(cfg, start, e, primary, acked, full)];
  }

  lemma OneRowCycleRuns(s: State, t: TxId, cfg: Config, id: Id, row: Row, primary: bool, acked: bool, full: bool)
    requires CanTake(s, t, cfg, id, primary) && s.rows[id] == row
    ensures ValidRun(s, OneRowCycle(t, cfg, id, row, primary, acked, full))
    ensures CycleMade(s, Run(s, OneRowCycle(t, cfg, id, row, primary, acked, full)), t, cfg, id, primary, acked, full)
  {
    var e, s2 := Event(id, row), Taken(s, t, cfg, id, primary);
    TakingRuns(s, t, cfg, id, primary);
    PublishingRuns(s2, t, cfg, e, primary, acked, full);
    RunConcat(s, Taking(t, cfg, id, primary), Publishing(t, cfg, row, acked) + Marking(t, full));
    FinishedCommits(ReadyToCommit(s2, t, cfg, e, primary, acked, full), t, cfg, e, primary, acked, full);
    SettledShape(cfg, s.now, row, acked, full);
  }
}
