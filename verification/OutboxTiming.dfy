/** Retry spacing: how far apart the attempts on a row are, and exactly when they are too close. */
module OutboxTiming {
  import opened Options
  import opened Durations
  import opened Seconds
  import opened OutboxTypes
  import opened OutboxMachine
  import opened OutboxInvariant
  import opened OutboxSchedules

  /* ---------- What the column remembers ---------- */

  /**
   What next_retry_at holds for a row queued with `queuedAt` after the attempts `a`: the end of the pause of the last
   attempt whose mark took its primary form. A fallback mark leaves the column as it was.
   */
  function Gate(queuedAt: Option<int>, a: seq<Attempt>): Option<int> {
    if a == [] then queuedAt
    else
      var last := a[|a| - 1];
      if last.full then Some(last.start + last.pause) else Gate(queuedAt, a[..|a| - 1])
  }

  predicate Open(gate: Option<int>, start: int) {
    gate.Some? ==> gate.value <= start
  }

  /** Every attempt claimed by the primary query waited for the column. */
  ghost predicate Gated(queuedAt: Option<int>, a: seq<Attempt>) {
    forall i :: 0 <= i < |a| && a[i].primary ==> Open(Gate(queuedAt, a[..i]), a[i].start)
  }

  ghost predicate Paused(cfgs: map<TxId, Config>, facts: Facts, a: seq<Attempt>) {
    forall i :: 0 <= i < |a| ==> a[i].tx in cfgs && a[i].pause == PauseAfter(cfgs[a[i].tx], facts, i)
  }

  ghost predicate RowTimed(cfgs: map<TxId, Config>, row: Row, a: seq<Attempt>, queuedAt: Option<int>) {
    && |a| == row.retryCount && Gated(queuedAt, a) && Paused(cfgs, row.facts, a)
    && (row.status == Pending ==> row.nextRetryAt == Gate(queuedAt, a))
  }

  /** The next try a marked row is given: after its pause, or as before if the mark fell back. */
  ghost predicate WriteTimed(c: Cycle, before: Row, after: Row, legacy: bool) {
    after.status == Pending ==>
      after.nextRetryAt == if legacy then before.nextRetryAt else Some(c.start + PauseOf(c.cfg, after))
  }

  ghost predicate CycleTimed(c: Cycle) {
    && (c.primary ==> forall i :: 0 <= i < |c.batch| ==> Open(c.batch[i].row.nextRetryAt, c.start))
    && c.legacy <= c.writes.Keys
    && (forall i :: 0 <= i < |c.batch| && c.batch[i].id in c.writes ==>
          WriteTimed(c, c.batch[i].row, c.writes[c.batch[i].id], c.batch[i].id in c.legacy))
  }

  ghost predicate RowsTimed(s: State) {
    forall id :: id in s.rows ==>
      id in s.attempts && id in s.queued && RowTimed(s.cfgs, s.rows[id], s.attempts[id], s.queued[id])
  }

  ghost predicate CyclesTimed(s: State) {
    forall t :: t in s.open ==> CycleTimed(s.open[t])
  }

  ghost predicate Timed(s: State) {
    RowsTimed(s) && CyclesTimed(s)
  }

  /* ---------- One cycle ---------- */

  lemma MarkedRowTimed(c: Cycle, row: Row, full: bool)
    requires c.phase.Acknowledged? || (c.phase.Rejected? && c.phase.delay == DelayOf(c.cfg, row))
    ensures forall c': Cycle :: c'.cfg == c.cfg && c'.start == c.start ==>
              WriteTimed(c', row, MarkedRow(c, row, full), !full)
  {
  }

  lemma WriteAdded(c: Cycle, c': Cycle, k: nat, marked: Row, full: bool)
    requires CycleTimed(c) && k < |c.batch| && c.batch[k].id !in c.writes
    requires forall i, j :: 0 <= i < j < |c.batch| ==> c.batch[i].id != c.batch[j].id
    requires c'.batch == c.batch && c'.cfg == c.cfg && c'.start == c.start && c'.primary == c.primary
    requires c'.writes == c.writes[c.batch[k].id := marked]
    requires c'.legacy == c.legacy + if full then {} else {c.batch[k].id}
    requires WriteTimed(c', c.batch[k].row, marked, !full)
    ensures CycleTimed(c')
  {
    forall i | 0 <= i < |c.batch| && c.batch[i].id in c'.writes
      ensures WriteTimed(c', c.batch[i].row, c'.writes[c.batch[i].id], c.batch[i].id in c'.legacy)
    {
      if i != k { assert WriteTimed(c, c.batch[i].row, c.writes[c.batch[i].id], c.batch[i].id in c.legacy); }
    }
  }

  lemma MarkTimed(rows: map<Id, Row>, c: Cycle, how: How)
    requires CycleOk(rows, c) && CycleTimed(c) && c.pos < |c.batch| && (c.phase.Acknowledged? || c.phase.Rejected?)
    ensures CycleTimed(AfterMark(rows, c, c.batch[c.pos], how))
  {
    var e := c.batch[c.pos];
    UnmarkedYet(rows, c);
    if how != Broken {
      MarkedRowTimed(c, e.row, how == Full);
      WriteAdded(c, AfterMark(rows, c, e, how), c.pos, MarkedRow(c, e.row, how == Full), how == Full);
    }
  }

  lemma AttemptTimed(cfgs: map<TxId, Config>, row: Row, a: seq<Attempt>, queuedAt: Option<int>, marked: Row, x: Attempt)
    requires RowTimed(cfgs, row, a, queuedAt) && row.status == Pending && marked.facts == row.facts
    requires marked.retryCount == row.retryCount + 1 && x.tx in cfgs
    requires x.pause == PauseAfter(cfgs[x.tx], row.facts, row.retryCount)
    requires x.primary ==> Open(row.nextRetryAt, x.start)
    requires marked.status == Pending ==>
               marked.nextRetryAt == if x.full then Some(x.start + x.pause) else row.nextRetryAt
    ensures RowTimed(cfgs, marked, a + [x], queuedAt)
  {
    var b := a + [x];
    assert b[..|a|] == a;
    forall i | 0 <= i < |b| && b[i].primary ensures Open(Gate(queuedAt, b[..i]), b[i].start) {
      if i < |a| { assert b[..i] == a[..i]; }
    }
    forall i | 0 <= i < |b| ensures b[i].tx in cfgs && b[i].pause == PauseAfter(cfgs[b[i].tx], marked.facts, i) {
      if i < |a| { assert b[i] == a[i]; }
    }
  }

  /** What a committed write owes to the row it replaces. */
  lemma WrittenTimed(rows: map<Id, Row>, c: Cycle, id: Id)
    requires CycleOk(rows, c) && CycleTimed(c) && id in c.writes
    ensures id in rows && (c.primary ==> Open(rows[id].nextRetryAt, c.start))
    ensures WriteTimed(c, rows[id], c.writes[id], id in c.legacy)
  {
    var i :| 0 <= i < c.pos && c.batch[i].id == id;
    assert Held(rows, c.batch[i]);
  }

  lemma PublishedTimed(cfgs: map<TxId, Config>, row: Row, a: seq<Attempt>, queuedAt: Option<int>, marked: Row)
    requires RowTimed(cfgs, row, a, queuedAt) && marked.facts == row.facts && marked.retryCount == row.retryCount
    requires marked.status == Published
    ensures RowTimed(cfgs, marked, a, queuedAt)
  {
  }

  /** A committed mark of a timed row is timed, with the attempt it stands for on record. */
  lemma CommittedRowTimed(cfgs: map<TxId, Config>, rows: map<Id, Row>, t: TxId, c: Cycle, id: Id, a: seq<Attempt>,
                          queuedAt: Option<int>)
    requires CycleOk(rows, c) && CycleTimed(c) && id in c.writes && t in cfgs && cfgs[t] == c.cfg
    requires id in rows && RowTimed(cfgs, rows[id], a, queuedAt)
    ensures var b := if c.writes[id].status == Published then a else a + [AttemptOf(t, c, id)];
            RowTimed(cfgs, c.writes[id], b, queuedAt)
  {
    WriteClimbs(rows, c, id);
    WrittenTimed(rows, c, id);
    if c.writes[id].status == Published {
      PublishedTimed(cfgs, rows[id], a, queuedAt, c.writes[id]);
    } else {
      AttemptTimed(cfgs, rows[id], a, queuedAt, c.writes[id], AttemptOf(t, c, id));
    }
  }

  /* ---------- All steps ---------- */

  lemma CommittedTimed(s: State, t: TxId)
    requires Ledger(s) && CyclesOk(s) && Timed(s) && t in s.open
    ensures Timed(Committed(s, t))
  {
    var s', c := Committed(s, t), s.open[t];
    forall id | id in s'.rows
      ensures id in s'.attempts && id in s'.queued && RowTimed(s'.cfgs, s'.rows[id], s'.attempts[id], s'.queued[id])
    {
      if id in c.writes {
        WriteClimbs(s.rows, c, id);
        CommittedRowTimed(s.cfgs, s.rows, t, c, id, s.attempts[id], s.queued[id]);
      }
    }
  }

  lemma MarkedTimed(s: State, t: TxId, how: How)
    requires CyclesOk(s) && Timed(s) && CanMark(s, t, how)
    ensures Timed(Marked(s, t, how))
  {
    MarkTimed(s.rows, s.open[t], how);
  }

  lemma ClaimedTimed(s: State, t: TxId, ids: seq<Id>, primary: bool)
    requires CyclesOk(s) && Timed(s) && CanClaim(s, t, ids, primary)
    ensures Timed(Claimed(s, t, ids, primary))
  {
    assert CycleOk(s.rows, s.open[t]) && s.open[t].writes == map[];
    assert CycleTimed(Claimed(s, t, ids, primary).open[t]);
  }

  lemma FreshTimed(cfgs: map<TxId, Config>, row: Row)
    requires row.retryCount == 0
    ensures RowTimed(cfgs, row, [], row.nextRetryAt)
  {
  }

  lemma InsertedTimed(s: State, added: map<Id, Row>)
    requires Timed(s) && CanInsert(s, added)
    ensures Timed(Inserted(s, added))
  {
    var s' := Inserted(s, added);
    forall id | id in s'.rows
      ensures id in s'.attempts && id in s'.queued && RowTimed(s'.cfgs, s'.rows[id], s'.attempts[id], s'.queued[id])
    {
      if id in added {
        FreshTimed(s.cfgs, added[id]);
      } else {
        assert RowTimed(s.cfgs, s.rows[id], s.attempts[id], s.queued[id]);
      }
    }
  }

  lemma SweptTimed(s: State, a: string, e: string, full: bool)
    requires Timed(s)
    ensures Timed(Swept(s, a, e, full))
  {
    var s' := Swept(s, a, e, full);
    forall id | id in s'.rows
      ensures id in s'.attempts && id in s'.queued && RowTimed(s'.cfgs, s'.rows[id], s'.attempts[id], s'.queued[id])
    {
      assert RowTimed(s.cfgs, s.rows[id], s.attempts[id], s.queued[id]);
    }
  }

  lemma BegunTimed(s: State, t: TxId, cfg: Config)
    requires Timed(s) && CanBegin(s, t, cfg)
    ensures Timed(Begun(s, t, cfg))
  {
    var s' := Begun(s, t, cfg);
    forall id | id in s'.rows ensures RowTimed(s'.cfgs, s'.rows[id], s'.attempts[id], s'.queued[id]) {
      assert RowTimed(s.cfgs, s.rows[id], s.attempts[id], s.queued[id]);
    }
  }

  /** A step that leaves rows, attempts and every cycle's batch and writes alone keeps the timing. */
  lemma TimedFramed(s: State, s': State)
    requires Timed(s) && s'.rows == s.rows && s'.attempts == s.attempts && s'.cfgs == s.cfgs && s'.queued == s.queued
    requires forall t :: t in s'.open ==> t in s.open && s'.open[t] == s.open[t].(phase := s'.open[t].phase)
    ensures Timed(s')
  {
    forall t | t in s'.open ensures CycleTimed(s'.open[t]) {
      var c, c' := s.open[t], s'.open[t];
      assert CycleTimed(c);
      forall i | 0 <= i < |c'.batch| && c'.batch[i].id in c'.writes
        ensures WriteTimed(c', c'.batch[i].row, c'.writes[c'.batch[i].id], c'.batch[i].id in c'.legacy)
      {
        assert WriteTimed(c, c.batch[i].row, c.writes[c.batch[i].id], c.batch[i].id in c.legacy);
      }
    }
  }

  lemma PhaseTimed(s: State, l: Label)
    requires Timed(s) && Enabled(s, l) && (l.Reject? || l.Publish? || l.DeadLetter? || l.Abort? || l.Tick?)
    ensures Timed(Apply(s, l))
  {
    TimedFramed(s, Apply(s, l));
  }

  lemma SharedTimed(s: State, l: Label)
    requires Timed(s) && Enabled(s, l) && (l.Insert? || l.Requeue? || l.Begin?)
    ensures Timed(Apply(s, l))
  {
    match l
    case Insert(added) => InsertedTimed(s, added);
    case Requeue(a, e, full) => SweptTimed(s, a, e, full);
    case Begin(t, cfg) => BegunTimed(s, t, cfg);
  }

  lemma CycleStepTimed(s: State, l: Label)
    requires Ledger(s) && CyclesOk(s) && Timed(s) && Enabled(s, l) && (l.Claim? || l.Mark? || l.Commit?)
    ensures Timed(Apply(s, l))
  {
    match l
    case Claim(t, ids, primary) => ClaimedTimed(s, t, ids, primary);
    case Mark(t, how) => MarkedTimed(s, t, how);
    case Commit(t, applied) => if applied { CommittedTimed(s, t); } else { TimedFramed(s, RolledBack(s, t)); }
  }

  /** Every step keeps the timing of all rows, whatever forms its statements take. */
  lemma TimedKept(s: State, l: Label)
    requires Ledger(s) && CyclesOk(s) && Timed(s) && Enabled(s, l)
    ensures Timed(Apply(s, l))
  {
    if l.Claim? || l.Mark? || l.Commit? { CycleStepTimed(s, l); }
    else if l.Insert? || l.Requeue? || l.Begin? { SharedTimed(s, l); }
    else { PhaseTimed(s, l); }
  }

  lemma {:induction false} RunTimed(s: State, ls: seq<Label>)
    requires Inv(s) && Timed(s) && ValidRun(s, ls)
    ensures Timed(Run(s, ls))
    decreases |ls|
  {
    if ls == [] {
    } else {
      InvKept(s, ls[0]);
      TimedKept(s, ls[0]);
      RunTimed(Apply(s, ls[0]), ls[1..]);
    }
  }

  /* ---------- Spacing ---------- */

  /** Attempt i began no sooner than the pause of the one before it was over. */
  predicate Spaced(a: seq<Attempt>, i: nat)
    requires 0 < i < |a|
  {
    a[i].start >= a[i - 1].start + a[i - 1].pause
  }

  /** All of them did. */
  ghost predicate Chained(a: seq<Attempt>) {
    forall i :: 0 < i < |a| ==> Spaced(a, i)
  }

  /** Neither the mark of attempt i - 1 nor the claim of attempt i fell back. */
  predicate PrimaryPair(a: seq<Attempt>, i: nat)
    requires 0 < i < |a|
  {
    a[i - 1].full && a[i].primary
  }

  lemma GatedIsSpaced(queuedAt: Option<int>, a: seq<Attempt>, i: nat)
    requires Gated(queuedAt, a) && 0 < i < |a| && PrimaryPair(a, i)
    ensures Spaced(a, i)
  {
    var prefix := a[..i];
    assert prefix[|prefix| - 1] == a[i - 1] && Open(Gate(queuedAt, prefix), a[i].start);
  }

  lemma PairsSpaced(queuedAt: Option<int>, a: seq<Attempt>)
    requires Gated(queuedAt, a)
    ensures forall i :: 0 < i < |a| && PrimaryPair(a, i) ==> Spaced(a, i)
  {
    forall i | 0 < i < |a| && PrimaryPair(a, i) ensures Spaced(a, i) {
      GatedIsSpaced(queuedAt, a, i);
    }
  }

  function PauseSum(a: seq<Attempt>): nat {
    if a == [] then 0 else PauseSum(a[..|a| - 1]) + a[|a| - 1].pause
  }

  lemma {:induction false} ChainSpans(a: seq<Attempt>)
    requires Chained(a) && a != []
    ensures a[|a| - 1].start >= a[0].start + PauseSum(a[..|a| - 1])
  {
    if |a| == 1 {
      assert a[..0] == [];
    } else {
      var init := a[..|a| - 1];
      forall i | 0 < i < |init| ensures Spaced(init, i) { assert Spaced(a, i); }
      ChainSpans(init);
      assert init[..|init| - 1] == a[..|a| - 2] && Spaced(a, |a| - 1);
    }
  }

  /**
   In every run, whatever else falls back: the committed attempts on a row since it was last queued are as many as its
   retry count, each calls for the pause its configuration computes, each one claimed by the primary query waited for
   the pause of the last one marked in full, and so each starts after the pause of the one before it unless the mark or
   the claim between them fell back.
   */
  lemma AttemptsSpaced(maxRetries: int, now: int, ls: seq<Label>, id: Id)
    requires maxRetries >= 1 && ValidRun(Init(maxRetries, now), ls) && id in Run(Init(maxRetries, now), ls).rows
    ensures var s := Run(Init(maxRetries, now), ls);
            && id in s.attempts && id in s.queued && |s.attempts[id]| == s.rows[id].retryCount
            && Paused(s.cfgs, s.rows[id].facts, s.attempts[id]) && Gated(s.queued[id], s.attempts[id])
            && forall i :: 0 < i < |s.attempts[id]| && PrimaryPair(s.attempts[id], i) ==> Spaced(s.attempts[id], i)
  {
    var s := Run(Init(maxRetries, now), ls);
    InitInv(maxRetries, now);
    RunInv(Init(maxRetries, now), ls);
    RunTimed(Init(maxRetries, now), ls);
    assert RowTimed(s.cfgs, s.rows[id], s.attempts[id], s.queued[id]);
    PairsSpaced(s.queued[id], s.attempts[id]);
  }

  /** A row that failed for good, its own statements all primary, took at least the sum of its pauses but the last. */
  lemma FailureTakesItsTime(maxRetries: int, now: int, ls: seq<Label>, id: Id, a: seq<Attempt>)
    requires maxRetries >= 1 && ValidRun(Init(maxRetries, now), ls) && id in Run(Init(maxRetries, now), ls).rows
    requires var s := Run(Init(maxRetries, now), ls);
             s.rows[id].status == Failed && id in s.attempts && s.attempts[id] == a
    requires forall i :: 0 < i < |a| ==> PrimaryPair(a, i)
    ensures |a| >= 1 && a[|a| - 1].start - a[0].start >= PauseSum(a[..|a| - 1])
  {
    AttemptsSpaced(maxRetries, now, ls, id);
    FailedWasTried(maxRetries, now, ls, id);
    ChainSpans(a);
  }

  lemma FailedWasTried(maxRetries: int, now: int, ls: seq<Label>, id: Id)
    requires maxRetries >= 1 && ValidRun(Init(maxRetries, now), ls) && id in Run(Init(maxRetries, now), ls).rows
    requires Run(Init(maxRetries, now), ls).rows[id].status == Failed
    ensures Run(Init(maxRetries, now), ls).rows[id].retryCount >= 1
  {
    InitInv(maxRetries, now);
    RunInv(Init(maxRetries, now), ls);
    assert OnLadder(Run(Init(maxRetries, now), ls).rows[id], Run(Init(maxRetries, now), ls).maxRetries);
  }

  /** Base and cap are whole microseconds, the cap under 2^32 seconds, and no doubling leaves 64 bits. */
  ghost predicate InWholeMicros(cfg: Config) {
    && 0 < cfg.baseRetryDelay <= cfg.maxRetryDelay < 0x1_0000_0000 * NANOS_PER_SECOND
    && cfg.maxRetryDelay <= MAX_INT64 && DoublingsFit(cfg.baseRetryDelay, cfg.maxRetryDelay)
    && cfg.baseRetryDelay % 1000 == 0 && cfg.maxRetryDelay % 1000 == 0
  }

  /** How much earlier than its delay, in nanoseconds, an attempt may come for the rounding of the stored pause. */
  function Slack(delay: int): nat {
    if delay < 0x80_0000 * NANOS_PER_SECOND then 500 else 2500
  }

  lemma PauseAlmostCovers(delay: int)
    requires 0 < delay <= MAX_INT64
    ensures 1000 * RetryGapMicros(delay) >= delay - Slack(delay)
  {
    if delay < 0x80_0000 * NANOS_PER_SECOND { NearestMicro(delay); } else { AnyMicro(delay); }
  }

  /**
   The same in nanoseconds of the configured delay: a parseable row's next attempt is never more than half a
   microsecond early for delays under 97 days, two and a half for any other, and not early at all when base and cap
   are whole microseconds.
   */
  lemma DelaysKept(maxRetries: int, now: int, ls: seq<Label>, id: Id, i: nat)
    requires maxRetries >= 1 && ValidRun(Init(maxRetries, now), ls) && id in Run(Init(maxRetries, now), ls).rows
    requires var s := Run(Init(maxRetries, now), ls);
             && s.rows[id].facts.envelope.Some? && id in s.attempts && i + 1 < |s.attempts[id]|
             && PrimaryPair(s.attempts[id], i + 1)
    ensures var s := Run(Init(maxRetries, now), ls);
            && s.attempts[id][i].tx in s.cfgs
            && var gap, cfg := s.attempts[id][i + 1].start - s.attempts[id][i].start, s.cfgs[s.attempts[id][i].tx];
            var delay := Backoff(cfg.baseRetryDelay, cfg.maxRetryDelay, i);
            && (0 < delay <= MAX_INT64 ==> 1000 * gap >= delay - Slack(delay))
            && (InWholeMicros(cfg) ==> 1000 * gap >= Min(cfg.baseRetryDelay * Pow2(i), cfg.maxRetryDelay))
  {
    AttemptsSpaced(maxRetries, now, ls, id);
    var s := Run(Init(maxRetries, now), ls);
    var cfg := s.cfgs[s.attempts[id][i].tx];
    assert Spaced(s.attempts[id], i + 1);
    assert s.attempts[id][i].pause == PauseAfter(cfg, s.rows[id].facts, i);
    DelayCovered(cfg, i);
  }

  lemma DelayCovered(cfg: Config, i: nat)
    ensures var delay := Backoff(cfg.baseRetryDelay, cfg.maxRetryDelay, i);
            && (0 < delay <= MAX_INT64 ==> 1000 * RetryGapMicros(delay) >= delay - Slack(delay))
            && (InWholeMicros(cfg) ==>
                  1000 * RetryGapMicros(delay) >= Min(cfg.baseRetryDelay * Pow2(i), cfg.maxRetryDelay))
  {
    var delay := Backoff(cfg.baseRetryDelay, cfg.maxRetryDelay, i);
    if 0 < delay <= MAX_INT64 { PauseAlmostCovers(delay); }
    if InWholeMicros(cfg) {
      WholeMicros(cfg.baseRetryDelay, cfg.maxRetryDelay, i);
      BackoffIsCappedDoubling(cfg.baseRetryDelay, cfg.maxRetryDelay, i);
    }
  }

  /* ---------- Exactly when spacing is lost ---------- */

  /**
   In every reachable state, which claims come before the pause of the row's last attempt is over: those of the
   fallback query, and those of the primary one when that attempt's mark fell back and the pause of the last attempt
   marked in full, if any, is over.
   */
  lemma EarlyClaims(maxRetries: int, now: int, ls: seq<Label>, t: TxId, id: Id, primary: bool)
    requires maxRetries >= 1 && ValidRun(Init(maxRetries, now), ls)
    requires var s := Run(Init(maxRetries, now), ls);
             && t in s.open && !s.open[t].claimed && id in s.rows && id !in s.locks && s.rows[id].status == Pending
             && id in s.attempts && id in s.queued && s.attempts[id] != []
             && var last := s.attempts[id][|s.attempts[id]| - 1]; s.open[t].start < last.start + last.pause
    ensures var s := Run(Init(maxRetries, now), ls);
            var a, start := s.attempts[id], s.open[t].start;
            CanClaim(s, t, [id], primary) <==>
              !primary || (!a[|a| - 1].full && Open(Gate(s.queued[id], a[..|a| - 1]), start))
  {
    var s := Run(Init(maxRetries, now), ls);
    InitInv(maxRetries, now);
    RunInv(Init(maxRetries, now), ls);
    RunTimed(Init(maxRetries, now), ls);
    assert RowTimed(s.cfgs, s.rows[id], s.attempts[id], s.queued[id]);
    ClaimOne(s, t, id, primary);
  }

  lemma ClaimOne(s: State, t: TxId, id: Id, primary: bool)
    requires Ledger(s) && t in s.open && !s.open[t].claimed && id in s.rows && id !in s.locks
    requires s.rows[id].status == Pending
    ensures CanClaim(s, t, [id], primary) <==> !primary || Open(s.rows[id].nextRetryAt, s.open[t].start)
  {
    assert [id][0] == id;
  }

  /** From every state in which a free parseable row waits out a pause, a cycle that can take it is too early. */
  lemma EarlyAttempt(s: State, t: TxId, cfg: Config, id: Id, row: Row, primary: bool, full: bool)
    requires CanTake(s, t, cfg, id, primary) && s.rows[id] == row && s.attempts[id] != []
    requires var last := s.attempts[id][|s.attempts[id]| - 1]; s.now < last.start + last.pause
    ensures ValidRun(s, OneRowCycle(t, cfg, id, row, primary, false, full))
    ensures var s' := Run(s, OneRowCycle(t, cfg, id, row, primary, false, full));
            && id in s'.attempts && |s'.attempts[id]| == |s.attempts[id]| + 1
            && s'.attempts[id][..|s.attempts[id]|] == s.attempts[id]
            && s'.attempts[id][|s.attempts[id]|].primary == primary && !Spaced(s'.attempts[id], |s.attempts[id]|)
  {
    OneRowCycleRuns(s, t, cfg, id, row, primary, false, full);
  }

  /** An insert and an attempt marked in either form. */
  function FirstTry(cfg: Config, id: Id, row: Row, full: bool): seq<Label> {
    [Insert(map[id := row])] + OneRowCycle(0, cfg, id, row, true, false, full)
  }

  /** The row after that attempt. */
  function TriedRow(cfg: Config, now: int, row: Row, full: bool): Row {
    Settled(cfg, now, row, false, full)
  }

  /** An insert, an attempt marked in either form, and at once a second one claimed in either form. */
  function TwoAttempts(cfg: Config, now: int, id: Id, row: Row, full: bool, primary: bool): seq<Label> {
    FirstTry(cfg, id, row, full) + OneRowCycle(1, cfg, id, TriedRow(cfg, now, row, full), primary, false, true)
  }

  /**
   Whenever the mark falls back or the next claim does, there is such a run, for every new due row and every
   configuration that allows a second try.
   */
  lemma SpacingLost(cfg: Config, now: int, id: Id, row: Row, full: bool, primary: bool)
    requires Usable(cfg) && cfg.maxRetries >= 2 && row.status == Pending && row.retryCount == 0
    requires row.facts.envelope.Some? && Due(row, now, true) && RetryGapMicros(cfg.baseRetryDelay) > 0
    requires !full || !primary
    ensures ValidRun(Init(cfg.maxRetries, now), TwoAttempts(cfg, now, id, row, full, primary))
    ensures var s := Run(Init(cfg.maxRetries, now), TwoAttempts(cfg, now, id, row, full, primary));
            && id in s.attempts && |s.attempts[id]| == 2 && s.attempts[id][0].full == full
            && s.attempts[id][1].primary == primary && !Spaced(s.attempts[id], 1)
  {
    var s0, ls, tried := Init(cfg.maxRetries, now), FirstTry(cfg, id, row, full), TriedRow(cfg, now, row, full);
    FirstAttempt(cfg, now, id, row, full);
    EarlyAttempt(Run(s0, ls), 1, cfg, id, tried, primary, true);
    RunConcat(s0, ls, OneRowCycle(1, cfg, id, tried, primary, false, true));
  }

  lemma FirstAttempt(cfg: Config, now: int, id: Id, row: Row, full: bool)
    requires Usable(cfg) && cfg.maxRetries >= 2 && row.status == Pending && row.retryCount == 0
    requires row.facts.envelope.Some? && Due(row, now, true)
    ensures var s0, ls := Init(cfg.maxRetries, now), FirstTry(cfg, id, row, full);
            && ValidRun(s0, ls)
            && var s := Run(s0, ls);
            && id in s.rows && s.rows[id] == TriedRow(cfg, now, row, full) && id !in s.locks && id in s.attempts
            && s.attempts[id] == [Attempt(0, now, RetryGapMicros(cfg.baseRetryDelay), true, full)]
            && s.now == now && s.maxRetries == cfg.maxRetries && s.cfgs == map[0 := cfg]
  {
    var s0, insert := Init(cfg.maxRetries, now), Insert(map[id := row]);
    var first := OneRowCycle(0, cfg, id, row, true, false, full);
    var s1 := Inserted(s0, map[id := row]);
    RunOne(s0, insert, s1);
    OneRowCycleRuns(s1, 0, cfg, id, row, true, false, full);
    RunConcat(s0, [insert], first);
  }

  /** In some run, attempts i - 1 and i on a row exist, the one marked and the other claimed in the given forms. */
  ghost predicate Consecutive(m: int, now: int, ls: seq<Label>, id: Id, i: nat, full: bool, primary: bool) {
    && m >= 1 && ValidRun(Init(m, now), ls) && id in Run(Init(m, now), ls).rows
    && id in Run(Init(m, now), ls).attempts
    && var a := Run(Init(m, now), ls).attempts[id]; 0 < i < |a| && a[i - 1].full == full && a[i].primary == primary
  }

  /** The forms of the mark and the next claim guarantee spacing. */
  ghost predicate FormsSpace(full: bool, primary: bool) {
    forall m: int, now: int, ls: seq<Label>, id: Id, i: nat :: Consecutive(m, now, ls, id, i, full, primary) ==>
      Spaced(Run(Init(m, now), ls).attempts[id], i)
  }

  /** Spacing is guaranteed in every run if and only if the mark and the next claim both take their primary forms. */
  lemma SpacingExactly(full: bool, primary: bool)
    ensures FormsSpace(full, primary) <==> full && primary
  {
    if full && primary {
      forall m: int, now: int, ls: seq<Label>, id: Id, i: nat | Consecutive(m, now, ls, id, i, full, primary)
        ensures Spaced(Run(Init(m, now), ls).attempts[id], i)
      {
        AttemptsSpaced(m, now, ls, id);
      }
    } else {
      var row := InsertedRow(Facts("", "", "", Some(Envelope("", "", "")), None, "", 0), 0, true, true);
      SpacingLost(DEFAULT_CONFIG, 0, "", row, full, primary);
      InitInv(DEFAULT_CONFIG.maxRetries, 0);
      var ls := TwoAttempts(DEFAULT_CONFIG, 0, "", row, full, primary);
      RunInv(Init(DEFAULT_CONFIG.maxRetries, 0), ls);
      assert Consecutive(DEFAULT_CONFIG.maxRetries, 0, ls, "", 1, full, primary);
    }
  }
}
