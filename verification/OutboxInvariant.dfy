/** What every step of the outbox machine keeps: locks, held rows, the retry ladder and the acknowledgement ledger. */
module OutboxInvariant {
  import opened Options
  import opened OutboxTypes
  import opened OutboxMachine

  /* ---------- The invariant ---------- */

  /** Every cycle ever begun is exactly one of open, committed and rolled back. */
  ghost predicate Ledger(s: State) {
    && s.maxRetries >= 1
    && s.cfgs.Keys == s.open.Keys + s.committed + s.rolledBack
    && s.open.Keys !! s.committed && s.open.Keys !! s.rolledBack && s.committed !! s.rolledBack
    && (forall t :: t in s.cfgs ==> Usable(s.cfgs[t]) && s.cfgs[t].maxRetries == s.maxRetries)
    && (forall t :: t in s.open ==> s.open[t].cfg == s.cfgs[t] && s.open[t].start <= s.now)
    && (forall k :: 0 <= k < |s.log| ==> s.log[k].tx in s.cfgs)
  }

  /** The lock table holds the open batches and nothing else, so distinct cycles hold disjoint batches. */
  ghost predicate LocksMatch(s: State) {
    && (forall id :: id in s.locks ==> s.locks[id] in s.open && Holds(s.open[s.locks[id]], id))
    && (forall t, i :: t in s.open && 0 <= i < |s.open[t].batch| ==>
          s.open[t].batch[i].id in s.locks && s.locks[s.open[t].batch[i].id] == t)
  }

  /** Failed rows have used up their tries, others have not, and published rows say when. */
  predicate OnLadder(row: Row, maxRetries: int) {
    && (if row.status == Failed then row.retryCount == maxRetries else row.retryCount < maxRetries)
    && (row.status == Published ==> row.publishedAt.Some?)
  }

  ghost predicate Ladder(s: State) {
    forall id :: id in s.rows ==> OnLadder(s.rows[id], s.maxRetries)
  }

  /** No committed row ever vanishes: the table has exactly as many rows as were inserted. */
  ghost predicate Counted(s: State) {
    s.attempts.Keys == s.rows.Keys && |s.rows| == s.inserted
  }

  /** The row a holder scanned is still the committed row, and it is pending. */
  predicate Held(rows: map<Id, Row>, e: Event) {
    e.id in rows && rows[e.id] == e.row && e.row.status == Pending
  }

  predicate IsMark(c: Cycle, before: Row, after: Row) {
    || (before.facts.envelope.Some? && after == MarkedPublished(before, c.start, true))
    || (before.facts.envelope.Some? && after == MarkedPublished(before, c.start, false))
    || after == MarkedFailed(before, c.start, c.cfg.maxRetries, DelayOf(c.cfg, before), true)
    || after == MarkedFailed(before, c.start, c.cfg.maxRetries, DelayOf(c.cfg, before), false)
  }

  predicate PhaseFits(c: Cycle) {
    if c.pos >= |c.batch| then c.phase.Ready?
    else
      var row := c.batch[c.pos].row;
      match c.phase
      case Ready => true
      case Acknowledged => row.facts.envelope.Some?
      case Exhausted(delay) => LastTry(c.cfg, row) && WantsDlq(c.cfg, row) && delay == DelayOf(c.cfg, row)
      case Rejected(delay) => delay == DelayOf(c.cfg, row)
  }

  /** A cycle that can still commit has marked exactly the rows before its position. */
  ghost predicate CycleOk(rows: map<Id, Row>, c: Cycle) {
    && c.pos <= |c.batch|
    && (!c.claimed ==> c.batch == [] && !c.doomed)
    && PhaseFits(c)
    && (forall i :: 0 <= i < |c.batch| ==> Held(rows, c.batch[i]))
    && (forall i, j :: 0 <= i < j < |c.batch| ==> c.batch[i].id != c.batch[j].id)
    && (c.doomed ==> c.writes == map[])
    && (!c.doomed ==> MarkedUpTo(c, c.pos))
    && (forall id :: id in c.writes ==> exists i :: 0 <= i < c.pos && c.batch[i].id == id)
  }

  ghost predicate CyclesOk(s: State) {
    forall t :: t in s.open ==> CycleOk(s.rows, s.open[t])
  }

  ghost predicate Inv(s: State) {
    Ledger(s) && LocksMatch(s) && Ladder(s) && Counted(s) && CyclesOk(s) && LogFits(s) && AcksMatch(s)
  }

  /** Everything at the broker was published for an existing row, under that row's key and facts. */
  predicate MessageFits(rows: map<Id, Row>, m: Message) {
    && m.id in rows
    && m.envelope == Outgoing(m.id, rows[m.id].facts) && m.partitionKey == rows[m.id].facts.aggregateId
    && (m.kind == Main ==> m.topic == rows[m.id].facts.topic)
  }

  ghost predicate LogFits(s: State) {
    forall k :: 0 <= k < |s.log| ==> MessageFits(s.rows, s.log[k])
  }

  /** Acknowledged main publishes of row `id` made by the cycles in `ts`. */
  ghost function Acks(log: seq<Message>, id: Id, ts: set<TxId>): nat {
    if log == [] then 0
    else
      var m := log[|log| - 1];
      Acks(log[..|log| - 1], id, ts) + if m.kind == Main && m.acked && m.id == id && m.tx in ts then 1 else 0
  }

  ghost function ExpectedAcks(c: Cycle, id: Id): nat {
    if id in c.writes && c.writes[id].status == Published then 1
    else if c.pos < |c.batch| && c.batch[c.pos].id == id && c.phase.Acknowledged? then 1
    else 0
  }

  ghost predicate AcksMatch(s: State) {
    && (forall t, id :: t in s.open && !s.open[t].doomed ==> Acks(s.log, id, {t}) == ExpectedAcks(s.open[t], id))
    && (forall id :: Acks(s.log, id, s.committed) == if id in s.rows && s.rows[id].status == Published then 1 else 0)
  }

  /* ---------- Counting acknowledgements ---------- */

  lemma {:induction false} AcksConcat(log: seq<Message>, ms: seq<Message>, id: Id, ts: set<TxId>)
    ensures Acks(log + ms, id, ts) == Acks(log, id, ts) + Acks(ms, id, ts)
    decreases |ms|
  {
    if ms == [] {
      assert log + ms == log;
    } else {
      assert (log + ms)[..|log + ms| - 1] == log + ms[..|ms| - 1];
      AcksConcat(log, ms[..|ms| - 1], id, ts);
    }
  }

  lemma {:induction false} AcksUnion(log: seq<Message>, id: Id, ts: set<TxId>, us: set<TxId>)
    requires ts !! us
    ensures Acks(log, id, ts + us) == Acks(log, id, ts) + Acks(log, id, us)
  {
    if log == [] {
    } else {
      AcksUnion(log[..|log| - 1], id, ts, us);
    }
  }

  lemma {:induction false} NoAcks(log: seq<Message>, id: Id, ts: set<TxId>)
    requires forall k :: 0 <= k < |log| ==> log[k].tx !in ts || log[k].kind != Main || !log[k].acked || log[k].id != id
    ensures Acks(log, id, ts) == 0
  {
    if log == [] {
    } else {
      NoAcks(log[..|log| - 1], id, ts);
    }
  }

  lemma EmittedAcks(kind: Kind, t: TxId, e: Event, topic: string, stored: nat, acked: bool, id: Id, ts: set<TxId>)
    ensures Acks(Emitted(kind, t, e, topic, stored, acked), id, ts)
         == if kind == Main && acked && id == e.id && t in ts then 1 else 0
  {
    var ms := Emitted(kind, t, e, topic, stored, acked);
    var silent := Emitted(kind, t, e, topic, stored, false);
    NoAcks(silent, id, ts);
    if acked {
      var last := ms[|ms| - 1];
      assert ms == silent + [last];
      AcksConcat(silent, [last], id, ts);
      assert [last][..0] == [];
      assert Acks([last], id, ts) == if kind == Main && id == e.id && t in ts then 1 else 0;
    } else {
      assert ms == silent;
    }
  }

  /* ---------- Single cycles ---------- */

  lemma MarkClimbs(c: Cycle, before: Row, after: Row)
    requires IsMark(c, before, after) && before.status == Pending
    ensures before.facts == after.facts
    ensures OnLadder(before, c.cfg.maxRetries) ==> OnLadder(after, c.cfg.maxRetries)
    ensures after.retryCount == before.retryCount + if after.status == Published then 0 else 1
  {
  }

  /** What a cycle writes is a mark of a pending row it holds: one rung up the ladder, or published. */
  lemma WriteClimbs(rows: map<Id, Row>, c: Cycle, id: Id)
    requires CycleOk(rows, c) && id in c.writes
    ensures id in rows && rows[id].status == Pending && rows[id].facts == c.writes[id].facts && Holds(c, id)
    ensures OnLadder(rows[id], c.cfg.maxRetries) ==> OnLadder(c.writes[id], c.cfg.maxRetries)
    ensures c.writes[id].retryCount == rows[id].retryCount + if c.writes[id].status == Published then 0 else 1
  {
    var i :| 0 <= i < c.pos && c.batch[i].id == id;
    assert Held(rows, c.batch[i]);
    MarkClimbs(c, c.batch[i].row, c.writes[id]);
  }

  lemma UnmarkedYet(rows: map<Id, Row>, c: Cycle)
    requires CycleOk(rows, c) && c.pos < |c.batch|
    ensures c.batch[c.pos].id !in c.writes
    ensures Visible(rows, c.writes, c.batch[c.pos].id) == Some(c.batch[c.pos].row)
  {
  }

  /** Every row before position n is marked. */
  ghost predicate MarkedUpTo(c: Cycle, n: nat)
    requires n <= |c.batch|
  {
    forall i :: 0 <= i < n ==> c.batch[i].id in c.writes && IsMark(c, c.batch[i].row, c.writes[c.batch[i].id])
  }

  lemma OneMoreMarked(c: Cycle, c': Cycle, n: nat, marked: Row)
    requires n < |c.batch| && MarkedUpTo(c, n) && IsMark(c', c.batch[n].row, marked)
    requires forall i, j :: 0 <= i < j < |c.batch| ==> c.batch[i].id != c.batch[j].id
    requires c'.batch == c.batch && c'.cfg == c.cfg && c'.start == c.start
    requires c'.writes == c.writes[c.batch[n].id := marked]
    ensures MarkedUpTo(c', n + 1)
  {
    forall i | 0 <= i < n + 1
      ensures c'.batch[i].id in c'.writes && IsMark(c', c'.batch[i].row, c'.writes[c'.batch[i].id])
    {
      if i < n { assert IsMark(c, c.batch[i].row, c.writes[c.batch[i].id]); }
    }
  }

  lemma WritesInBatch(c: Cycle, c': Cycle, n: nat, marked: Row)
    requires n < |c.batch| && c'.batch == c.batch && c'.writes == c.writes[c.batch[n].id := marked]
    requires forall id :: id in c.writes ==> exists i :: 0 <= i < n && c.batch[i].id == id
    ensures forall id :: id in c'.writes ==> exists i :: 0 <= i < n + 1 && c'.batch[i].id == id
  {
    forall id | id in c'.writes ensures exists i :: 0 <= i < n + 1 && c'.batch[i].id == id {
      if id == c.batch[n].id {
        assert c'.batch[n].id == id;
      } else {
        var i :| 0 <= i < n && c.batch[i].id == id;
        assert c'.batch[i].id == id;
      }
    }
  }

  lemma MarkKeepsCycle(rows: map<Id, Row>, c: Cycle, how: How)
    requires CycleOk(rows, c) && c.pos < |c.batch| && (c.phase.Acknowledged? || c.phase.Rejected?)
    requires c.doomed ==> how == Broken
    ensures CycleOk(rows, AfterMark(rows, c, c.batch[c.pos], how))
  {
    var e := c.batch[c.pos];
    var c' := AfterMark(rows, c, e, how);
    UnmarkedYet(rows, c);
    if how != Broken {
      var marked := MarkedRow(c, e.row, how == Full);
      MarkIsMark(c, e.row, how == Full);
      assert c'.writes == c.writes[e.id := marked];
      OneMoreMarked(c, c', c.pos, marked);
      WritesInBatch(c, c', c.pos, marked);
    }
  }

  lemma AfterMarkFrame(rows: map<Id, Row>, c: Cycle, e: Event, how: How)
    ensures var c' := AfterMark(rows, c, e, how);
            && c'.batch == c.batch && c'.cfg == c.cfg && c'.start == c.start && c'.claimed == c.claimed
            && c'.pos == c.pos + 1 && c'.phase == Ready && (c'.doomed <==> c.doomed || how == Broken)
  {
  }

  lemma MarkIsMark(c: Cycle, row: Row, full: bool)
    requires c.phase.Acknowledged? ==> row.facts.envelope.Some?
    requires c.phase.Rejected? ==> c.phase.delay == DelayOf(c.cfg, row)
    requires c.phase.Acknowledged? || c.phase.Rejected?
    ensures forall c': Cycle :: c'.cfg == c.cfg && c'.start == c.start ==> IsMark(c', row, MarkedRow(c, row, full))
  {
  }

  lemma MarkSettlesAck(rows: map<Id, Row>, c: Cycle, how: How, id: Id)
    requires CycleOk(rows, c) && c.pos < |c.batch| && (c.phase.Acknowledged? || c.phase.Rejected?) && how != Broken
    ensures ExpectedAcks(AfterMark(rows, c, c.batch[c.pos], how), id) == ExpectedAcks(c, id)
  {
  }

  lemma PhaseMoved(rows: map<Id, Row>, c: Cycle, phase: Phase)
    requires CycleOk(rows, c) && PhaseFits(c.(phase := phase))
    ensures CycleOk(rows, c.(phase := phase))
  {
    var c' := c.(phase := phase);
    assert forall before, after :: IsMark(c, before, after) ==> IsMark(c', before, after);
  }

  lemma EmittedFits(rows: map<Id, Row>, kind: Kind, t: TxId, e: Event, topic: string, stored: nat, acked: bool)
    requires Held(rows, e) && (kind == Main ==> topic == e.row.facts.topic)
    ensures forall k :: 0 <= k < |Emitted(kind, t, e, topic, stored, acked)| ==>
              && MessageFits(rows, Emitted(kind, t, e, topic, stored, acked)[k])
              && Emitted(kind, t, e, topic, stored, acked)[k].tx == t
  {
  }

  /* ---------- Steps inside one cycle ---------- */

  /** A step that only moves one cycle along its batch and may add messages of its own. */
  ghost predicate Private(s: State, s': State, t: TxId, ms: seq<Message>) {
    && t in s.open && s'.open.Keys == s.open.Keys
    && (forall u :: u in s.open && u != t ==> s'.open[u] == s.open[u])
    && s'.open[t].batch == s.open[t].batch && s'.open[t].cfg == s.open[t].cfg
    && s'.open[t].start == s.open[t].start
    && (s.open[t].doomed ==> s'.open[t].doomed)
    && s'.log == s.log + ms && (forall k :: 0 <= k < |ms| ==> ms[k].tx == t)
    && s' == s.(open := s'.open, log := s'.log, dlqTries := s'.dlqTries)
  }

  lemma PrivateLedger(s: State, s': State, t: TxId, ms: seq<Message>)
    requires Ledger(s) && Private(s, s', t, ms)
    ensures Ledger(s')
  {
    forall k | 0 <= k < |s'.log| ensures s'.log[k].tx in s'.cfgs {
      if k < |s.log| { assert s'.log[k] == s.log[k]; } else { assert s'.log[k] == ms[k - |s.log|]; }
    }
  }

  lemma PrivateLocks(s: State, s': State, t: TxId, ms: seq<Message>)
    requires LocksMatch(s) && Private(s, s', t, ms)
    ensures LocksMatch(s')
  {
  }

  lemma PrivateCycles(s: State, s': State, t: TxId, ms: seq<Message>)
    requires CyclesOk(s) && Private(s, s', t, ms) && CycleOk(s.rows, s'.open[t])
    ensures CyclesOk(s')
  {
  }

  lemma PrivateLog(s: State, s': State, t: TxId, ms: seq<Message>)
    requires LogFits(s) && Private(s, s', t, ms) && forall k :: 0 <= k < |ms| ==> MessageFits(s.rows, ms[k])
    ensures LogFits(s')
  {
  }

  lemma PrivateAcks(s: State, s': State, t: TxId, ms: seq<Message>)
    requires Ledger(s) && AcksMatch(s) && Private(s, s', t, ms)
    requires !s'.open[t].doomed ==> forall id ::
               ExpectedAcks(s'.open[t], id) == ExpectedAcks(s.open[t], id) + Acks(ms, id, {t})
    ensures AcksMatch(s')
  {
    forall u, id | u in s'.open && !s'.open[u].doomed
      ensures Acks(s'.log, id, {u}) == ExpectedAcks(s'.open[u], id)
    {
      AcksConcat(s.log, ms, id, {u});
      if u != t { NoAcks(ms, id, {u}); }
    }
    forall id ensures Acks(s'.log, id, s'.committed) == Acks(s.log, id, s.committed) {
      AcksConcat(s.log, ms, id, s.committed);
      NoAcks(ms, id, s.committed);
    }
  }

  lemma PrivateInv(s: State, s': State, t: TxId, ms: seq<Message>)
    requires Inv(s) && Private(s, s', t, ms) && CycleOk(s.rows, s'.open[t])
    requires forall k :: 0 <= k < |ms| ==> MessageFits(s.rows, ms[k])
    requires !s'.open[t].doomed ==> forall id ::
               ExpectedAcks(s'.open[t], id) == ExpectedAcks(s.open[t], id) + Acks(ms, id, {t})
    ensures Inv(s')
  {
    PrivateLedger(s, s', t, ms);
    PrivateLocks(s, s', t, ms);
    PrivateCycles(s, s', t, ms);
    PrivateLog(s, s', t, ms);
    PrivateAcks(s, s', t, ms);
  }

  lemma SentPrivate(s: State, t: TxId, stored: nat, acked: bool)
    requires CanPublish(s, t) && CycleOk(s.rows, s.open[t])
    ensures var s', e := Sent(s, t, stored, acked), Current(s, t);
            var ms := Emitted(Main, t, e, e.row.facts.topic, stored, acked);
            && Private(s, s', t, ms) && CycleOk(s.rows, s'.open[t])
            && (forall k :: 0 <= k < |ms| ==> MessageFits(s.rows, ms[k]))
  {
    var c, e := s.open[t], Current(s, t);
    assert Held(s.rows, e);
    EmittedFits(s.rows, Main, t, e, e.row.facts.topic, stored, acked);
    PhaseMoved(s.rows, c, AfterPublish(c.cfg, e.row, acked));
  }

  lemma SentAcks(s: State, t: TxId, stored: nat, acked: bool)
    requires CanPublish(s, t) && CycleOk(s.rows, s.open[t])
    ensures var s', e := Sent(s, t, stored, acked), Current(s, t);
            var ms := Emitted(Main, t, e, e.row.facts.topic, stored, acked);
            forall id :: ExpectedAcks(s'.open[t], id) == ExpectedAcks(s.open[t], id) + Acks(ms, id, {t})
  {
    var s', e := Sent(s, t, stored, acked), Current(s, t);
    var ms := Emitted(Main, t, e, e.row.facts.topic, stored, acked);
    UnmarkedYet(s.rows, s.open[t]);
    forall id ensures ExpectedAcks(s'.open[t], id) == ExpectedAcks(s.open[t], id) + Acks(ms, id, {t}) {
      EmittedAcks(Main, t, e, e.row.facts.topic, stored, acked, id, {t});
    }
  }

  lemma SentInv(s: State, t: TxId, stored: nat, acked: bool)
    requires Inv(s) && CanPublish(s, t)
    ensures Inv(Sent(s, t, stored, acked))
  {
    var s', e := Sent(s, t, stored, acked), Current(s, t);
    var ms := Emitted(Main, t, e, e.row.facts.topic, stored, acked);
    SentPrivate(s, t, stored, acked);
    SentAcks(s, t, stored, acked);
    PrivateInv(s, s', t, ms);
  }

  lemma EscalatedPrivate(s: State, t: TxId, stored: nat, acked: bool)
    requires CanDeadLetter(s, t) && CycleOk(s.rows, s.open[t])
    ensures var s', e := Escalated(s, t, stored, acked), Current(s, t);
            var ms := Emitted(DeadLettered, t, e, DeadLetterTopic(s.open[t].cfg, e.row), stored, acked);
            && Private(s, s', t, ms) && CycleOk(s.rows, s'.open[t])
            && (forall k :: 0 <= k < |ms| ==> MessageFits(s.rows, ms[k]))
  {
    var c, e := s.open[t], Current(s, t);
    assert Held(s.rows, e);
    EmittedFits(s.rows, DeadLettered, t, e, DeadLetterTopic(c.cfg, e.row), stored, acked);
    PhaseMoved(s.rows, c, Rejected(c.phase.delay));
  }

  lemma EscalatedAcks(s: State, t: TxId, stored: nat, acked: bool)
    requires CanDeadLetter(s, t)
    ensures var s', e := Escalated(s, t, stored, acked), Current(s, t);
            var ms := Emitted(DeadLettered, t, e, DeadLetterTopic(s.open[t].cfg, e.row), stored, acked);
            forall id :: ExpectedAcks(s'.open[t], id) == ExpectedAcks(s.open[t], id) + Acks(ms, id, {t})
  {
    var s', e := Escalated(s, t, stored, acked), Current(s, t);
    var topic := DeadLetterTopic(s.open[t].cfg, e.row);
    var ms := Emitted(DeadLettered, t, e, topic, stored, acked);
    forall id ensures ExpectedAcks(s'.open[t], id) == ExpectedAcks(s.open[t], id) + Acks(ms, id, {t}) {
      EmittedAcks(DeadLettered, t, e, topic, stored, acked, id, {t});
    }
  }

  lemma EscalatedInv(s: State, t: TxId, stored: nat, acked: bool)
    requires Inv(s) && CanDeadLetter(s, t)
    ensures Inv(Escalated(s, t, stored, acked))
  {
    var s', e := Escalated(s, t, stored, acked), Current(s, t);
    var ms := Emitted(DeadLettered, t, e, DeadLetterTopic(s.open[t].cfg, e.row), stored, acked);
    EscalatedPrivate(s, t, stored, acked);
    EscalatedAcks(s, t, stored, acked);
    PrivateInv(s, s', t, ms);
  }

  lemma RefusedPrivate(s: State, t: TxId)
    requires CanReject(s, t) && CycleOk(s.rows, s.open[t])
    ensures Private(s, Refused(s, t), t, []) && CycleOk(s.rows, Refused(s, t).open[t])
    ensures forall id :: ExpectedAcks(Refused(s, t).open[t], id) == ExpectedAcks(s.open[t], id)
  {
    assert s.log == s.log + [];
    PhaseMoved(s.rows, s.open[t], Rejected(0));
  }

  lemma RefusedInv(s: State, t: TxId)
    requires Inv(s) && CanReject(s, t)
    ensures Inv(Refused(s, t))
  {
    RefusedPrivate(s, t);
    PrivateInv(s, Refused(s, t), t, []);
  }

  lemma MarkedPrivate(s: State, t: TxId, how: How)
    requires CanMark(s, t, how) && CycleOk(s.rows, s.open[t])
    ensures Private(s, Marked(s, t, how), t, []) && CycleOk(s.rows, Marked(s, t, how).open[t])
  {
    assert s.log == s.log + [];
    AfterMarkFrame(s.rows, s.open[t], Current(s, t), how);
    MarkKeepsCycle(s.rows, s.open[t], how);
  }

  lemma MarkedAcks(s: State, t: TxId, how: How)
    requires CanMark(s, t, how) && CycleOk(s.rows, s.open[t])
    ensures Marked(s, t, how).open[t].doomed
         || forall id :: ExpectedAcks(Marked(s, t, how).open[t], id) == ExpectedAcks(s.open[t], id)
  {
    if how != Broken {
      forall id ensures ExpectedAcks(Marked(s, t, how).open[t], id) == ExpectedAcks(s.open[t], id) {
        MarkSettlesAck(s.rows, s.open[t], how, id);
      }
    }
  }

  lemma MarkedInv(s: State, t: TxId, how: How)
    requires Inv(s) && CanMark(s, t, how)
    ensures Inv(Marked(s, t, how))
  {
    MarkedPrivate(s, t, how);
    MarkedAcks(s, t, how);
    PrivateInv(s, Marked(s, t, how), t, []);
  }

  /* ---------- Steps that change the table or the set of open cycles ---------- */

  /** A cycle keeps its facts when the rows it has locked are left alone. */
  lemma CycleFramed(s: State, rows': map<Id, Row>, u: TxId)
    requires LocksMatch(s) && CyclesOk(s) && u in s.open
    requires forall id :: id in s.locks && s.locks[id] == u && id in s.rows ==> id in rows' && rows'[id] == s.rows[id]
    ensures CycleOk(rows', s.open[u])
  {
  }

  lemma LogFramed(s: State, s': State)
    requires LogFits(s) && s'.log == s.log
    requires forall id :: id in s.rows ==> id in s'.rows && s'.rows[id].facts == s.rows[id].facts
    ensures LogFits(s')
  {
  }

  lemma AcksFramed(s: State, s': State)
    requires AcksMatch(s) && s'.log == s.log && s'.committed == s.committed
    requires forall t :: t in s'.open ==> t in s.open && s'.open[t] == s.open[t]
    requires forall id :: (id in s'.rows && s'.rows[id].status == Published) <==>
                          (id in s.rows && s.rows[id].status == Published)
    ensures AcksMatch(s')
  {
  }

  lemma LocksFramed(s: State, s': State)
    requires LocksMatch(s) && s'.locks == s.locks && s'.open == s.open
    ensures LocksMatch(s')
  {
  }

  lemma LedgerFramed(s: State, s': State)
    requires Ledger(s) && s'.maxRetries == s.maxRetries && s'.now >= s.now && s'.cfgs == s.cfgs && s'.log == s.log
    requires s'.open == s.open && s'.committed == s.committed && s'.rolledBack == s.rolledBack
    ensures Ledger(s')
  {
  }

  lemma SameKeysSameSize(a: map<Id, Row>, b: map<Id, Row>)
    requires a.Keys == b.Keys
    ensures |a| == |b|
  {
  }

  lemma OverlaySize(a: map<Id, Row>, b: map<Id, Row>)
    requires b.Keys <= a.Keys
    ensures (a + b).Keys == a.Keys && |a + b| == |a|
  {
  }

  lemma DisjointSizes(a: map<Id, Row>, b: map<Id, Row>)
    requires a.Keys !! b.Keys
    ensures |a + b| == |a| + |b|
  {
  }

  lemma InsertedLadder(s: State, added: map<Id, Row>)
    requires Ladder(s) && s.maxRetries >= 1 && CanInsert(s, added)
    ensures Ladder(Inserted(s, added))
  {
    forall id | id in s.rows + added ensures OnLadder((s.rows + added)[id], s.maxRetries) {
      if id !in added { assert OnLadder(s.rows[id], s.maxRetries); }
    }
  }

  lemma InsertedCounted(s: State, added: map<Id, Row>)
    requires Counted(s) && CanInsert(s, added)
    ensures Counted(Inserted(s, added))
  {
    DisjointSizes(s.rows, added);
    NoAttemptsYet(s.attempts, added);
    assert (s.rows + added).Keys == s.rows.Keys + added.Keys;
  }

  lemma NoAttemptsYet(attempts: map<Id, seq<Attempt>>, added: map<Id, Row>)
    ensures (attempts + map id | id in added :: []).Keys == attempts.Keys + added.Keys
  {
  }

  lemma InsertedCycles(s: State, added: map<Id, Row>)
    requires LocksMatch(s) && CyclesOk(s) && CanInsert(s, added)
    ensures CyclesOk(Inserted(s, added))
  {
    var s' := Inserted(s, added);
    forall u | u in s'.open ensures CycleOk(s'.rows, s'.open[u]) { CycleFramed(s, s'.rows, u); }
  }

  lemma InsertedInv(s: State, added: map<Id, Row>)
    requires Inv(s) && CanInsert(s, added)
    ensures Inv(Inserted(s, added))
  {
    InsertedLadder(s, added);
    InsertedCounted(s, added);
    InsertedCycles(s, added);
    LedgerFramed(s, Inserted(s, added));
    LocksFramed(s, Inserted(s, added));
    LogFramed(s, Inserted(s, added));
    AcksFramed(s, Inserted(s, added));
  }

  /** A requeue is never blocked: failed rows are never locked. */
  lemma RequeueNeverBlocks(s: State, a: string, e: string)
    requires LocksMatch(s) && CyclesOk(s)
    ensures CanRequeue(s, a, e)
  {
  }

  lemma SweptLadder(s: State, a: string, e: string, full: bool)
    requires Ladder(s) && s.maxRetries >= 1
    ensures Ladder(Swept(s, a, e, full))
  {
  }

  lemma SweptCounted(s: State, a: string, e: string, full: bool)
    requires Counted(s)
    ensures Counted(Swept(s, a, e, full))
  {
    SameKeysSameSize(s.rows, Swept(s, a, e, full).rows);
  }

  lemma SweptCycles(s: State, a: string, e: string, full: bool)
    requires LocksMatch(s) && CyclesOk(s) && CanRequeue(s, a, e)
    ensures CyclesOk(Swept(s, a, e, full))
  {
  }

  lemma SweptStatics(s: State, a: string, e: string, full: bool)
    ensures var s' := Swept(s, a, e, full);
            && (forall id :: id in s.rows ==> id in s'.rows && s'.rows[id].facts == s.rows[id].facts)
            && (forall id :: (id in s'.rows && s'.rows[id].status == Published) <==>
                             (id in s.rows && s.rows[id].status == Published))
  {
  }

  lemma SweptInv(s: State, a: string, e: string, full: bool)
    requires Inv(s) && CanRequeue(s, a, e)
    ensures Inv(Swept(s, a, e, full))
  {
    SweptLadder(s, a, e, full);
    SweptCounted(s, a, e, full);
    SweptCycles(s, a, e, full);
    SweptStatics(s, a, e, full);
    LedgerFramed(s, Swept(s, a, e, full));
    LocksFramed(s, Swept(s, a, e, full));
    LogFramed(s, Swept(s, a, e, full));
    AcksFramed(s, Swept(s, a, e, full));
  }

  lemma BegunLedger(s: State, t: TxId, cfg: Config)
    requires Ledger(s) && CanBegin(s, t, cfg)
    ensures Ledger(Begun(s, t, cfg))
  {
  }

  lemma BegunLocks(s: State, t: TxId, cfg: Config)
    requires LocksMatch(s) && t !in s.open
    ensures LocksMatch(Begun(s, t, cfg))
  {
  }

  lemma BegunAcks(s: State, t: TxId, cfg: Config)
    requires Ledger(s) && AcksMatch(s) && CanBegin(s, t, cfg)
    ensures AcksMatch(Begun(s, t, cfg))
  {
    forall id ensures Acks(s.log, id, {t}) == 0 { NoAcks(s.log, id, {t}); }
  }

  lemma BegunCycles(s: State, t: TxId, cfg: Config)
    requires CyclesOk(s)
    ensures CyclesOk(Begun(s, t, cfg))
  {
  }

  lemma BegunInv(s: State, t: TxId, cfg: Config)
    requires Inv(s) && CanBegin(s, t, cfg)
    ensures Inv(Begun(s, t, cfg))
  {
    BegunLedger(s, t, cfg);
    BegunLocks(s, t, cfg);
    BegunAcks(s, t, cfg);
    BegunCycles(s, t, cfg);
    LogFramed(s, Begun(s, t, cfg));
  }

  lemma ClaimedLocks(s: State, t: TxId, ids: seq<Id>, primary: bool)
    requires LocksMatch(s) && CanClaim(s, t, ids, primary) && s.open[t].batch == []
    ensures LocksMatch(Claimed(s, t, ids, primary))
  {
    var s' := Claimed(s, t, ids, primary);
    forall id | id in s'.locks ensures s'.locks[id] in s'.open && Holds(s'.open[s'.locks[id]], id) {
      if id in ids {
        var i :| 0 <= i < |ids| && ids[i] == id;
        assert s'.open[t].batch[i].id == id;
      } else {
        assert Holds(s.open[s.locks[id]], id);
      }
    }
    forall u, i | u in s'.open && 0 <= i < |s'.open[u].batch|
      ensures s'.open[u].batch[i].id in s'.locks && s'.locks[s'.open[u].batch[i].id] == u
    {
      if u == t { assert s'.open[t].batch[i].id == ids[i]; } else { assert s.open[u].batch[i].id in s.locks; }
    }
  }

  lemma ClaimedCycles(s: State, t: TxId, ids: seq<Id>, primary: bool)
    requires CyclesOk(s) && CanClaim(s, t, ids, primary)
    ensures CyclesOk(Claimed(s, t, ids, primary))
    ensures s.open[t].writes == map[] && s.open[t].batch == [] && !s.open[t].doomed
  {
    var c := s.open[t];
    assert CycleOk(s.rows, c) && c.pos == 0;
    assert c.writes == map[];
    assert CycleOk(s.rows, Claimed(s, t, ids, primary).open[t]);
  }

  lemma ClaimedAcks(s: State, t: TxId, ids: seq<Id>, primary: bool)
    requires AcksMatch(s) && CanClaim(s, t, ids, primary)
    requires s.open[t].writes == map[] && s.open[t].batch == [] && !s.open[t].doomed
    ensures AcksMatch(Claimed(s, t, ids, primary))
  {
  }

  lemma ClaimedLedger(s: State, t: TxId, ids: seq<Id>, primary: bool)
    requires Ledger(s) && CanClaim(s, t, ids, primary)
    ensures Ledger(Claimed(s, t, ids, primary))
  {
  }

  lemma ClaimedInv(s: State, t: TxId, ids: seq<Id>, primary: bool)
    requires Inv(s) && CanClaim(s, t, ids, primary)
    ensures Inv(Claimed(s, t, ids, primary))
  {
    ClaimedLedger(s, t, ids, primary);
    ClaimedCycles(s, t, ids, primary);
    ClaimedLocks(s, t, ids, primary);
    ClaimedAcks(s, t, ids, primary);
    LogFramed(s, Claimed(s, t, ids, primary));
  }

  lemma ReleaseLocks(s: State, t: TxId, s': State)
    requires LocksMatch(s) && t in s.open && s'.open == s.open - {t} && s'.locks == Unlocked(s.locks, t)
    ensures LocksMatch(s')
  {
  }

  lemma ReleasedLedger(s: State, t: TxId)
    requires Ledger(s) && t in s.open
    ensures Ledger(RolledBack(s, t)) && Ledger(Committed(s, t))
  {
  }

  lemma RolledBackCycles(s: State, t: TxId)
    requires CyclesOk(s) && t in s.open
    ensures CyclesOk(RolledBack(s, t))
  {
  }

  lemma RolledBackInv(s: State, t: TxId)
    requires Inv(s) && t in s.open
    ensures Inv(RolledBack(s, t))
  {
    ReleasedLedger(s, t);
    ReleaseLocks(s, t, RolledBack(s, t));
    RolledBackCycles(s, t);
    LogFramed(s, RolledBack(s, t));
    AcksFramed(s, RolledBack(s, t));
  }

  /** Committed writes change only pending rows the cycle itself has locked, and never their facts. */
  lemma CommittedRow(s: State, t: TxId, id: Id)
    requires LocksMatch(s) && CyclesOk(s) && t in s.open && id in s.open[t].writes
    ensures id in s.rows && id in s.locks && s.locks[id] == t
    ensures s.rows[id].status == Pending && s.open[t].writes[id].facts == s.rows[id].facts
    ensures OnLadder(s.rows[id], s.open[t].cfg.maxRetries) ==> OnLadder(s.open[t].writes[id], s.open[t].cfg.maxRetries)
    ensures s.open[t].writes[id].retryCount
         == s.rows[id].retryCount + if s.open[t].writes[id].status == Published then 0 else 1
  {
    WriteClimbs(s.rows, s.open[t], id);
  }

  lemma CommittedLadder(s: State, t: TxId)
    requires LocksMatch(s) && CyclesOk(s) && Ladder(s) && t in s.open && s.open[t].cfg.maxRetries == s.maxRetries
    ensures Ladder(Committed(s, t))
  {
    var s' := Committed(s, t);
    forall id | id in s.open[t].writes ensures id in s.rows && OnLadder(s.open[t].writes[id], s.maxRetries) {
      CommittedRow(s, t, id);
    }
  }

  lemma CommittedCounted(s: State, t: TxId)
    requires LocksMatch(s) && CyclesOk(s) && Counted(s) && t in s.open
    ensures Counted(Committed(s, t))
  {
    forall id | id in s.open[t].writes ensures id in s.rows { CommittedRow(s, t, id); }
    OverlaySize(s.rows, s.open[t].writes);
  }

  lemma CommittedCycles(s: State, t: TxId)
    requires LocksMatch(s) && CyclesOk(s) && t in s.open
    ensures CyclesOk(Committed(s, t))
  {
    var s' := Committed(s, t);
    forall id | id in s.open[t].writes ensures id in s.locks && s.locks[id] == t { CommittedRow(s, t, id); }
    forall u | u in s'.open ensures CycleOk(s'.rows, s'.open[u]) { CycleFramed(s, s'.rows, u); }
  }

  lemma CommittedLog(s: State, t: TxId)
    requires LocksMatch(s) && CyclesOk(s) && LogFits(s) && t in s.open
    ensures LogFits(Committed(s, t))
  {
    var s' := Committed(s, t);
    forall id | id in s.rows ensures s'.rows[id].facts == s.rows[id].facts {
      if id in s.open[t].writes { CommittedRow(s, t, id); }
    }
    LogFramed(s, s');
  }

  lemma CommittedAcks(s: State, t: TxId)
    requires Ledger(s) && AcksMatch(s) && CyclesOk(s) && LocksMatch(s) && CanCommit(s, t, true)
    ensures AcksMatch(Committed(s, t))
  {
    var s' := Committed(s, t);
    forall id
      ensures Acks(s'.log, id, s'.committed) == if id in s'.rows && s'.rows[id].status == Published then 1 else 0
    {
      AcksUnion(s.log, id, s.committed, {t});
      assert Acks(s.log, id, {t}) == ExpectedAcks(s.open[t], id);
      if id in s.open[t].writes { CommittedRow(s, t, id); }
    }
  }

  lemma CommittedInv(s: State, t: TxId)
    requires Inv(s) && CanCommit(s, t, true)
    ensures Inv(Committed(s, t))
  {
    ReleasedLedger(s, t);
    ReleaseLocks(s, t, Committed(s, t));
    CommittedLadder(s, t);
    CommittedCounted(s, t);
    CommittedCycles(s, t);
    CommittedLog(s, t);
    CommittedAcks(s, t);
  }

  /* ---------- All steps, all runs ---------- */

  lemma InitInv(maxRetries: int, now: int)
    requires maxRetries >= 1
    ensures Inv(Init(maxRetries, now))
  {
  }

  lemma TickedInv(s: State, elapsed: nat)
    requires Inv(s)
    ensures Inv(Ticked(s, elapsed))
  {
    LedgerFramed(s, Ticked(s, elapsed));
    LocksFramed(s, Ticked(s, elapsed));
    LogFramed(s, Ticked(s, elapsed));
    AcksFramed(s, Ticked(s, elapsed));
  }

  lemma PublishStepInv(s: State, l: Label)
    requires Inv(s) && Enabled(s, l) && (l.Publish? || l.DeadLetter?)
    ensures Inv(Apply(s, l))
  {
    match l
    case Publish(t, stored, acked) => SentInv(s, t, stored, acked);
    case DeadLetter(t, stored, acked) => EscalatedInv(s, t, stored, acked);
  }

  lemma SettleStepInv(s: State, l: Label)
    requires Inv(s) && Enabled(s, l) && (l.Reject? || l.Mark?)
    ensures Inv(Apply(s, l))
  {
    match l
    case Reject(t) => RefusedInv(s, t);
    case Mark(t, how) => MarkedInv(s, t, how);
  }

  lemma SharedStepInv(s: State, l: Label)
    requires Inv(s) && Enabled(s, l) && (l.Tick? || l.Insert? || l.Requeue? || l.Begin?)
    ensures Inv(Apply(s, l))
  {
    match l
    case Tick(elapsed) => TickedInv(s, elapsed);
    case Insert(added) => InsertedInv(s, added);
    case Requeue(a, e, full) => SweptInv(s, a, e, full);
    case Begin(t, cfg) => BegunInv(s, t, cfg);
  }

  lemma LockStepInv(s: State, l: Label)
    requires Inv(s) && Enabled(s, l) && (l.Claim? || l.Commit? || l.Abort?)
    ensures Inv(Apply(s, l))
  {
    match l
    case Claim(t, ids, primary) => ClaimedInv(s, t, ids, primary);
    case Commit(t, applied) => if applied { CommittedInv(s, t); } else { RolledBackInv(s, t); }
    case Abort(t) => RolledBackInv(s, t);
  }

  /** Every step of every schedule keeps the whole invariant. */
  lemma InvKept(s: State, l: Label)
    requires Inv(s) && Enabled(s, l)
    ensures Inv(Apply(s, l))
  {
    if l.Tick? || l.Insert? || l.Requeue? || l.Begin? { SharedStepInv(s, l); }
    else if l.Claim? || l.Commit? || l.Abort? { LockStepInv(s, l); }
    else if l.Publish? || l.DeadLetter? { PublishStepInv(s, l); }
    else { SettleStepInv(s, l); }
  }

  lemma {:induction false} RunInv(s: State, ls: seq<Label>)
    requires Inv(s) && ValidRun(s, ls)
    ensures Inv(Run(s, ls))
    decreases |ls|
  {
    if ls == [] {
    } else {
      InvKept(s, ls[0]);
      RunInv(Apply(s, ls[0]), ls[1..]);
    }
  }
}
