/**
 The outbox as a concurrent machine: business inserts, administrative requeues and any number of publisher
 cycles interleave one label at a time. Every publish, mark, commit and crash outcome is part of the label, so
 quantifying over label sequences quantifies over all failures and all schedules.
 */
module OutboxMachine {
  import opened Options
  import opened Durations
  import opened OutboxTypes

  datatype Kind = Main | DeadLettered

  /** A message the broker stored; `acked` tells whether the producer also learned of it. */
  datatype Message = Message(
    kind: Kind, tx: TxId, id: Id, topic: string, partitionKey: string, envelope: Envelope, acked: bool)
  {
    /** The event_id and idempotency_key headers both carry the envelope's event id. */
    function IdempotencyKey(): string {
      envelope.eventId
    }
  }

  /** Where a cycle stands with the event at its position. */
  datatype Phase = Ready | Acknowledged | Exhausted(delay: int) | Rejected(delay: int)

  /**
   One run of processOnce. `start` is what NOW() returns in its transaction, `batch` the rows as scanned,
   `writes` the uncommitted row versions, and `doomed` says that the transaction can only roll back. `primary` and
   `legacy` are history: whether the claim took its primary form, and which rows were marked in the fallback form.
   */
  datatype Cycle = Cycle(
    cfg: Config, start: int, claimed: bool, batch: seq<Event>, pos: nat, phase: Phase,
    writes: map<Id, Row>, doomed: bool, primary: bool, legacy: set<Id>)

  /**
   A committed failed attempt: the cycle that made it, when that began, the pause it called for, and whether the
   claim and the mark took their primary forms.
   */
  datatype Attempt = Attempt(tx: TxId, start: int, pause: nat, primary: bool, full: bool)

  /**
   The shared state. `cfgs` has every cycle ever begun, which is open, committed or rolled back. `inserted`,
   `attempts` and `queued` (the attempts since a row was last queued, and the next try it was queued with),
   `dlqTries` and `failedBy` are history.
   */
  datatype State = State(
    maxRetries: int,
    now: int,
    rows: map<Id, Row>,
    locks: map<Id, TxId>,
    open: map<TxId, Cycle>,
    log: seq<Message>,
    cfgs: map<TxId, Config>,
    committed: set<TxId>,
    rolledBack: set<TxId>,
    inserted: nat,
    attempts: map<Id, seq<Attempt>>,
    dlqTries: set<(TxId, Id)>,
    failedBy: set<(TxId, Id)>,
    queued: map<Id, Option<int>>)

  /** How a mark went: on the newer columns, on the older ones, or not at all. */
  datatype How = Full | Fallback | Broken

  datatype Label =
    | Tick(elapsed: nat)
    | Insert(added: map<Id, Row>)
    | Requeue(aggregateType: string, eventType: string, full: bool)
    | Begin(t: TxId, cfg: Config)
    | Claim(t: TxId, ids: seq<Id>, primary: bool)
    | Reject(t: TxId)
    | Publish(t: TxId, stored: nat, acked: bool)
    | DeadLetter(t: TxId, stored: nat, acked: bool)
    | Mark(t: TxId, how: How)
    | Commit(t: TxId, applied: bool)
    | Abort(t: TxId)

  function Init(maxRetries: int, now: int): State {
    State(maxRetries, now, map[], map[], map[], [], map[], {}, {}, 0, map[], {}, {}, map[])
  }

  /* ---------- Reading a cycle ---------- */

  predicate AtEvent(s: State, t: TxId) {
    t in s.open && s.open[t].pos < |s.open[t].batch|
  }

  function Current(s: State, t: TxId): Event
    requires AtEvent(s, t)
  {
    s.open[t].batch[s.open[t].pos]
  }

  predicate Holds(c: Cycle, id: Id) {
    exists i :: 0 <= i < |c.batch| && c.batch[i].id == id
  }

  predicate LastTry(cfg: Config, row: Row) {
    row.retryCount + 1 >= cfg.maxRetries
  }

  predicate WantsDlq(cfg: Config, row: Row) {
    row.facts.envelope.Some? && DeadLetterTopic(cfg, row) != ""
  }

  /** FOR UPDATE SKIP LOCKED: an ordered, duplicate-free choice of due rows nobody has locked. */
  predicate Claimable(s: State, c: Cycle, ids: seq<Id>, primary: bool) {
    && |ids| <= c.cfg.batchSize
    && (forall i :: 0 <= i < |ids| ==>
          ids[i] in s.rows && ids[i] !in s.locks && Due(s.rows[ids[i]], c.start, primary))
    && (forall i, j :: 0 <= i < j < |ids| ==> ids[i] != ids[j])
    && (forall i, j :: 0 <= i < j < |ids| && ids[i] in s.rows && ids[j] in s.rows ==>
          s.rows[ids[i]].facts.createdAt <= s.rows[ids[j]].facts.createdAt)
  }

  /** A statement reads the transaction's own version of a row, or else the latest committed one. */
  function Visible(rows: map<Id, Row>, writes: map<Id, Row>, id: Id): Option<Row> {
    if id in writes then Some(writes[id]) else if id in rows then Some(rows[id]) else None
  }

  /* ---------- Steps ---------- */

  function Ticked(s: State, elapsed: nat): State {
    s.(now := s.now + elapsed)
  }

  /** A business transaction commits new pending rows. */
  predicate CanInsert(s: State, added: map<Id, Row>) {
    && added.Keys !! s.rows.Keys
    && forall id :: id in added ==> added[id].status == Pending && added[id].retryCount == 0
  }

  function Inserted(s: State, added: map<Id, Row>): State {
    s.(rows := s.rows + added, inserted := s.inserted + |added|,
       attempts := s.attempts + map id | id in added :: [],
       queued := s.queued + map id | id in added :: added[id].nextRetryAt)
  }

  /** A requeue would have to wait for any matching row that is locked. */
  predicate CanRequeue(s: State, a: string, e: string) {
    forall id :: id in s.rows && Requeueable(s.rows[id], a, e) ==> id !in s.locks
  }

  function RequeuedRows(rows: map<Id, Row>, now: int, a: string, e: string, full: bool): map<Id, Row> {
    map id | id in rows :: if Requeueable(rows[id], a, e) then Requeued(rows[id], now, full) else rows[id]
  }

  function Swept(s: State, a: string, e: string, full: bool): State {
    s.(rows := RequeuedRows(s.rows, s.now, a, e, full),
       attempts := map id | id in s.attempts ::
         if id in s.rows && Requeueable(s.rows[id], a, e) then [] else s.attempts[id],
       queued := map id | id in s.queued ::
         if id in s.rows && Requeueable(s.rows[id], a, e) then Requeued(s.rows[id], s.now, full).nextRetryAt
         else s.queued[id])
  }

  predicate CanBegin(s: State, t: TxId, cfg: Config) {
    t !in s.cfgs && Usable(cfg) && cfg.maxRetries == s.maxRetries
  }

  function NewCycle(cfg: Config, start: int): Cycle {
    Cycle(cfg, start, false, [], 0, Ready, map[], false, true, {})
  }

  function Begun(s: State, t: TxId, cfg: Config): State {
    s.(cfgs := s.cfgs[t := cfg], open := s.open[t := NewCycle(cfg, s.now)])
  }

  predicate CanClaim(s: State, t: TxId, ids: seq<Id>, primary: bool) {
    t in s.open && !s.open[t].claimed && Claimable(s, s.open[t], ids, primary)
  }

  function Scanned(rows: map<Id, Row>, ids: seq<Id>): seq<Event>
    requires forall i :: 0 <= i < |ids| ==> ids[i] in rows
  {
    seq(|ids|, i requires 0 <= i < |ids| => Event(ids[i], rows[ids[i]]))
  }

  function Locked(locks: map<Id, TxId>, ids: seq<Id>, t: TxId): map<Id, TxId> {
    locks + map id | id in ids :: t
  }

  function ClaimedCycle(c: Cycle, evts: seq<Event>, primary: bool): Cycle {
    c.(claimed := true, batch := evts, pos := 0, phase := Ready, primary := primary)
  }

  function Claimed(s: State, t: TxId, ids: seq<Id>, primary: bool): State
    requires CanClaim(s, t, ids, primary)
  {
    s.(open := s.open[t := ClaimedCycle(s.open[t], Scanned(s.rows, ids), primary)], locks := Locked(s.locks, ids, t))
  }

  predicate CanReject(s: State, t: TxId) {
    AtEvent(s, t) && s.open[t].phase.Ready? && Current(s, t).row.facts.envelope.None?
  }

  /** The payload does not parse: the event is marked failed without a publish or a computed delay. */
  function Refused(s: State, t: TxId): State
    requires CanReject(s, t)
  {
    s.(open := s.open[t := s.open[t].(phase := Rejected(0))])
  }

  /** What one Publish call leaves at the broker: unacknowledged copies, then the acknowledged one if any. */
  function Emitted(kind: Kind, t: TxId, e: Event, topic: string, stored: nat, acked: bool): seq<Message> {
    var m := Message(kind, t, e.id, topic, e.row.facts.aggregateId, Outgoing(e.id, e.row.facts), false);
    seq(stored, _ => m) + if acked then [m.(acked := true)] else []
  }

  function AfterPublish(cfg: Config, row: Row, acked: bool): Phase {
    if acked then Acknowledged
    else
      var delay := Backoff(cfg.baseRetryDelay, cfg.maxRetryDelay, row.retryCount);
      if LastTry(cfg, row) && DeadLetterTopic(cfg, row) != "" then Exhausted(delay) else Rejected(delay)
  }

  predicate CanPublish(s: State, t: TxId) {
    AtEvent(s, t) && s.open[t].phase.Ready? && Current(s, t).row.facts.envelope.Some?
  }

  function Sent(s: State, t: TxId, stored: nat, acked: bool): State
    requires CanPublish(s, t)
  {
    var c, e := s.open[t], Current(s, t);
    s.(open := s.open[t := c.(phase := AfterPublish(c.cfg, e.row, acked))],
       log := s.log + Emitted(Main, t, e, e.row.facts.topic, stored, acked))
  }

  predicate CanDeadLetter(s: State, t: TxId) {
    AtEvent(s, t) && s.open[t].phase.Exhausted?
  }

  function Escalated(s: State, t: TxId, stored: nat, acked: bool): State
    requires CanDeadLetter(s, t)
  {
    var c, e := s.open[t], Current(s, t);
    s.(open := s.open[t := c.(phase := Rejected(c.phase.delay))],
       log := s.log + Emitted(DeadLettered, t, e, DeadLetterTopic(c.cfg, e.row), stored, acked),
       dlqTries := s.dlqTries + {(t, e.id)})
  }

  function MarkedRow(c: Cycle, row: Row, full: bool): Row {
    match c.phase
    case Acknowledged => MarkedPublished(row, c.start, full)
    case Rejected(delay) => MarkedFailed(row, c.start, c.cfg.maxRetries, delay, full)
    case _ => row
  }

  /** A broken mark dooms the transaction; a mark of a missing row changes nothing; the loop goes on either way. */
  function AfterMark(rows: map<Id, Row>, c: Cycle, e: Event, how: How): Cycle {
    var next := c.(pos := c.pos + 1, phase := Ready);
    if how == Broken then next.(doomed := true, writes := map[], legacy := {})
    else
      match Visible(rows, c.writes, e.id)
      case None => next
      case Some(row) =>
        next.(writes := c.writes[e.id := MarkedRow(c, row, how == Full)],
              legacy := c.legacy + if how == Full then {} else {e.id})
  }

  predicate CanMark(s: State, t: TxId, how: How) {
    && AtEvent(s, t) && (s.open[t].phase.Acknowledged? || s.open[t].phase.Rejected?)
    && (s.open[t].doomed ==> how == Broken)
  }

  function Marked(s: State, t: TxId, how: How): State
    requires CanMark(s, t, how)
  {
    s.(open := s.open[t := AfterMark(s.rows, s.open[t], Current(s, t), how)])
  }

  function Unlocked(locks: map<Id, TxId>, t: TxId): map<Id, TxId> {
    map id | id in locks && locks[id] != t :: locks[id]
  }

  /** The pause a failure mark imposed, from the row version it wrote. */
  function PauseOf(cfg: Config, marked: Row): nat {
    if marked.retryCount == 0 then 0 else PauseAfter(cfg, marked.facts, marked.retryCount - 1)
  }

  function AttemptOf(t: TxId, c: Cycle, id: Id): Attempt
    requires id in c.writes
  {
    Attempt(t, c.start, PauseOf(c.cfg, c.writes[id]), c.primary, id !in c.legacy)
  }

  function Attempted(attempts: map<Id, seq<Attempt>>, t: TxId, c: Cycle): map<Id, seq<Attempt>> {
    map id | id in attempts ::
      if id in c.writes && c.writes[id].status != Published
      then attempts[id] + [AttemptOf(t, c, id)] else attempts[id]
  }

  function RolledBack(s: State, t: TxId): State {
    s.(open := s.open - {t}, locks := Unlocked(s.locks, t), rolledBack := s.rolledBack + {t})
  }

  /** A finished batch may commit, unless a mark broke the transaction: then the commit is a rollback. */
  predicate CanCommit(s: State, t: TxId, applied: bool) {
    t in s.open && s.open[t].claimed && s.open[t].pos == |s.open[t].batch| && (s.open[t].doomed ==> !applied)
  }

  function Committed(s: State, t: TxId): State
    requires t in s.open
  {
    var c := s.open[t];
    s.(rows := s.rows + c.writes, open := s.open - {t}, locks := Unlocked(s.locks, t),
       committed := s.committed + {t}, attempts := Attempted(s.attempts, t, c),
       failedBy := s.failedBy + set id | id in c.writes && c.writes[id].status == Failed :: (t, id))
  }

  predicate Enabled(s: State, l: Label) {
    match l
    case Tick(_) => true
    case Insert(added) => CanInsert(s, added)
    case Requeue(a, e, _) => CanRequeue(s, a, e)
    case Begin(t, cfg) => CanBegin(s, t, cfg)
    case Claim(t, ids, primary) => CanClaim(s, t, ids, primary)
    case Reject(t) => CanReject(s, t)
    case Publish(t, _, _) => CanPublish(s, t)
    case DeadLetter(t, _, _) => CanDeadLetter(s, t)
    case Mark(t, how) => CanMark(s, t, how)
    case Commit(t, applied) => CanCommit(s, t, applied)
    case Abort(t) => t in s.open
  }

  function Apply(s: State, l: Label): State
    requires Enabled(s, l)
  {
    match l
    case Tick(elapsed) => Ticked(s, elapsed)
    case Insert(added) => Inserted(s, added)
    case Requeue(a, e, full) => Swept(s, a, e, full)
    case Begin(t, cfg) => Begun(s, t, cfg)
    case Claim(t, ids, primary) => Claimed(s, t, ids, primary)
    case Reject(t) => Refused(s, t)
    case Publish(t, stored, acked) => Sent(s, t, stored, acked)
    case DeadLetter(t, stored, acked) => Escalated(s, t, stored, acked)
    case Mark(t, how) => Marked(s, t, how)
    case Commit(t, applied) => if applied then Committed(s, t) else RolledBack(s, t)
    case Abort(t) => RolledBack(s, t)
  }

  /* ---------- Runs ---------- */

  predicate ValidRun(s: State, ls: seq<Label>)
    decreases |ls|
  {
    ls == [] || (Enabled(s, ls[0]) && ValidRun(Apply(s, ls[0]), ls[1..]))
  }

  function Run(s: State, ls: seq<Label>): State
    requires ValidRun(s, ls)
    decreases |ls|
  {
    if ls == [] then s else Run(Apply(s, ls[0]), ls[1..])
  }

  lemma {:induction false} RunConcat(s: State, ls: seq<Label>, ms: seq<Label>)
    requires ValidRun(s, ls) && ValidRun(Run(s, ls), ms)
    ensures ValidRun(s, ls + ms) && Run(s, ls + ms) == Run(Run(s, ls), ms)
    decreases |ls|
  {
    if ls == [] {
      assert ls + ms == ms;
    } else {
      RunConcat(Apply(s, ls[0]), ls[1..], ms);
      assert (ls + ms)[1..] == ls[1..] + ms;
    }
  }
}
