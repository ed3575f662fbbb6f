/** The publisher's poll cycle as code: every execution, among any other actors, is a run of the machine. */
module OutboxPublisher {
  import opened Options
  import opened Durations
  import opened Seconds
  import opened OutboxTypes
  import opened OutboxMachine
  import opened OutboxInvariant
  import opened Postgres
  import opened OutboxStore
  import opened KafkaProducer

  /** The transaction a label belongs to, if any. */
  function Actor(l: Label): Option<TxId> {
    match l
    case Begin(t, _) => Some(t)
    case Claim(t, _, _) => Some(t)
    case Reject(t) => Some(t)
    case Publish(t, _, _) => Some(t)
    case DeadLetter(t, _, _) => Some(t)
    case Mark(t, _) => Some(t)
    case Commit(t, _) => Some(t)
    case Abort(t) => Some(t)
    case _ => None
  }

  /** Nobody else's step touches a cycle's own record. */
  lemma OthersLeaveAlone(s: State, l: Label, t: TxId)
    requires Enabled(s, l) && Actor(l) != Some(t)
    ensures var s' := Apply(s, l);
            && (t in s'.open <==> t in s.open) && (t in s.open ==> s'.open[t] == s.open[t])
            && (t in s'.cfgs <==> t in s.cfgs) && s'.maxRetries == s.maxRetries
  {
  }

  lemma {:induction false} RunSnoc(s: State, ls: seq<Label>, l: Label)
    requires ValidRun(s, ls) && Enabled(Run(s, ls), l)
    ensures ValidRun(s, ls + [l]) && Run(s, ls + [l]) == Apply(Run(s, ls), l)
  {
    assert [l][1..] == [];
    assert ValidRun(Apply(Run(s, ls), l), []);
    RunConcat(s, ls, [l]);
  }

  /** In a reachable state a cycle's next event is still the committed row it scanned, and not yet marked. */
  lemma NextIsFresh(maxRetries: int, now: int, ls: seq<Label>, t: TxId)
    requires maxRetries >= 1 && ValidRun(Init(maxRetries, now), ls) && AtEvent(Run(Init(maxRetries, now), ls), t)
    ensures var s := Run(Init(maxRetries, now), ls);
            Visible(s.rows, s.open[t].writes, Current(s, t).id) == Some(Current(s, t).row)
  {
    InitInv(maxRetries, now);
    RunInv(Init(maxRetries, now), ls);
    UnmarkedYet(Run(Init(maxRetries, now), ls).rows, Run(Init(maxRetries, now), ls).open[t]);
  }

  /** What a mark does to a cycle whose next event is as it was scanned. */
  lemma MarkedCycle(s: State, t: TxId, how: How)
    requires CanMark(s, t, how) && Visible(s.rows, s.open[t].writes, Current(s, t).id) == Some(Current(s, t).row)
    ensures var c, e, c' := s.open[t], Current(s, t), Marked(s, t, how).open[t];
            && c' == c.(pos := c.pos + 1, phase := Ready, doomed := c'.doomed, writes := c'.writes, legacy := c'.legacy)
            && (c'.doomed <==> c.doomed || how == Broken)
            && c'.writes == if how == Broken then map[] else c.writes[e.id := MarkedRow(c, e.row, how == Full)]
  {
  }

  lemma HeldIsInBatch(c: Cycle, id: Id)
    ensures Holds(c, id) <==> id in Ids(c.batch)
  {
    if Holds(c, id) {
      var i :| 0 <= i < |c.batch| && c.batch[i].id == id;
      assert Ids(c.batch)[i] == id;
    }
  }

  /** An open cycle's locks are its batch. */
  lemma LocksAreBatch(s: State, t: TxId)
    requires LocksMatch(s) && t in s.open
    ensures forall id :: (id in s.locks && s.locks[id] == t) <==> id in Ids(s.open[t].batch)
  {
    forall id ensures (id in s.locks && s.locks[id] == t) <==> id in Ids(s.open[t].batch) {
      HeldIsInBatch(s.open[t], id);
    }
  }

  lemma ReachableLocks(maxRetries: int, now: int, ls: seq<Label>, t: TxId)
    requires maxRetries >= 1 && ValidRun(Init(maxRetries, now), ls) && t in Run(Init(maxRetries, now), ls).open
    ensures var s := Run(Init(maxRetries, now), ls);
            forall id :: (id in s.locks && s.locks[id] == t) <==> id in Ids(s.open[t].batch)
  {
    InitInv(maxRetries, now);
    RunInv(Init(maxRetries, now), ls);
    LocksAreBatch(Run(Init(maxRetries, now), ls), t);
  }

  /** Database and broker, shared by everybody; `trace` records how the present state came about. */
  class World {
    var s: State
    ghost const maxRetries: int
    ghost const epoch: int
    ghost var trace: seq<Label>

    ghost predicate Valid()
      reads this
    {
      maxRetries >= 1 && ValidRun(Init(maxRetries, epoch), trace) && Run(Init(maxRetries, epoch), trace) == s
    }

    constructor (maxRetries: int, now: int)
      requires maxRetries >= 1
      ensures Valid() && s == Init(maxRetries, now) && trace == []
    {
      this.s, this.maxRetries, this.epoch, this.trace := Init(maxRetries, now), maxRetries, now, [];
    }

    method Take(l: Label)
      requires Valid() && Enabled(s, l)
      modifies this
      ensures Valid() && s == Apply(old(s), l) && trace == old(trace) + [l]
    {
      RunSnoc(Init(maxRetries, epoch), trace, l);
      s := Apply(s, l);
      trace := trace + [l];
    }

    /** Other actors run: whichever of the planned steps are possible and not `mine`. */
    method Interfere(mine: TxId, plan: seq<Label>)
      requires Valid()
      modifies this
      ensures Valid() && old(trace) <= trace && (plan == [] ==> s == old(s))
      ensures (mine in s.open <==> mine in old(s).open) && (mine in s.open ==> s.open[mine] == old(s).open[mine])
      ensures (mine in s.cfgs <==> mine in old(s).cfgs) && s.maxRetries == old(s).maxRetries
    {
      var i := 0;
      while i < |plan|
        invariant 0 <= i <= |plan| && Valid() && old(trace) <= trace && (i == 0 ==> s == old(s))
        invariant (mine in s.open <==> mine in old(s).open) && (mine in s.open ==> s.open[mine] == old(s).open[mine])
        invariant (mine in s.cfgs <==> mine in old(s).cfgs) && s.maxRetries == old(s).maxRetries
      {
        if Enabled(s, plan[i]) && Actor(plan[i]) != Some(mine) {
          OthersLeaveAlone(s, plan[i], mine);
          Take(plan[i]);
        }
        i := i + 1;
      }
    }
  }

  /**
   Everything outside the code's control while one event is handled, and what others do in between; the context is
   consulted before the publish (`contextDone`) and again if that returns an error (`contextOver`).
   */
  datatype EventScript = EventScript(
    contextDone: bool, publish: Fate, contextOver: bool, deadLetter: Fate, luck: Luck,
    before: seq<Label>, after: seq<Label>, middle: seq<Label>)

  datatype CycleScript = CycleScript(
    contextDone: bool, begins: bool, fetch: Luck, partial: set<Id>, reading: Reading, commit: Answer,
    first: seq<Label>, second: seq<Label>, retry: seq<Label>, last: seq<Label>)

  /** How a cycle ended; `Silent` is a rollback reported as success. */
  datatype End = NotStarted | Unclaimed | Settled | Unconfirmed | Undone | Silent

  function Ids(evts: seq<Event>): seq<Id> {
    seq(|evts|, i requires 0 <= i < |evts| => evts[i].id)
  }

  ghost predicate DistinctIds(evts: seq<Event>) {
    forall i, j :: 0 <= i < j < |evts| ==> evts[i].id != evts[j].id
  }

  /** What the claim query returns is a claim the machine allows, and its batch is what was scanned. */
  lemma SelectedIsClaimable(s: State, t: TxId, ids: seq<Id>, primary: bool)
    requires t in s.open && !s.open[t].claimed && s.open[t].cfg.batchSize >= 0
    requires Selected(s.rows, s.locks, s.open[t].start, s.open[t].cfg.batchSize, primary, ids)
    ensures CanClaim(s, t, ids, primary) && Ids(Scanned(s.rows, ids)) == ids && DistinctIds(Scanned(s.rows, ids))
  {
  }

  class Publisher {
    const cfg: Config
    /** The producer's own MaxRetries. */
    const producerRetries: int

    /** NewPublisher. */
    constructor (raw: Config, producerRetries: int)
      ensures cfg == Normalised(raw) && this.producerRetries == producerRetries
    {
      cfg := Normalised(raw);
      this.producerRetries := producerRetries;
    }

    /* ---------- What an event's script amounts to ---------- */

    function ReplyTo(now: EventScript): Reply {
      Replied(producerRetries, now.publish)
    }

    predicate Publishable(e: Event) {
      e.row.facts.envelope.Some?
    }

    /** The committed version of a handled event: published if the broker acknowledged it, else one failure further. */
    function FinalRow(start: int, e: Event, now: EventScript): Row {
      var full := Outcome(now.luck) == Full;
      if Publishable(e) && ReplyTo(now) == Acked then MarkedPublished(e.row, start, full)
      else MarkedFailed(e.row, start, cfg.maxRetries, DelayOf(cfg, e.row), full)
    }

    /** The publish returned an error under an ended context, or a cancellation. */
    predicate GivesUp(now: EventScript) {
      ReplyTo(now) != Acked && (now.contextOver || ReplyTo(now).Cancelled?)
    }

    /** The loop ends at this event: the cycle's context is over, or a failed publish makes it give up. */
    predicate Stops(e: Event, now: EventScript) {
      now.contextDone || (Publishable(e) && GivesUp(now))
    }

    /** ... and the cycle's context is alive, so that its error is nil. */
    predicate StopsSilently(e: Event, now: EventScript) {
      !now.contextDone && Publishable(e) && !now.contextOver && ReplyTo(now) == Cancelled(false)
    }

    /** The event's mark fails beyond repair. */
    predicate Breaks(e: Event, now: EventScript) {
      if Publishable(e) && ReplyTo(now) == Acked then Outcome(now.luck) == Broken else FailOutcome(now.luck) == Broken
    }

    ghost predicate NoneStops(evts: seq<Event>, events: nat -> EventScript, n: nat)
      requires n <= |evts|
    {
      forall i :: 0 <= i < n ==> !Stops(evts[i], events(i))
    }

    ghost predicate NoneBreaks(evts: seq<Event>, events: nat -> EventScript, n: nat)
      requires n <= |evts|
    {
      forall i :: 0 <= i < n ==> !Breaks(evts[i], events(i))
    }

    /** The first event that ends the loop does so silently. */
    ghost predicate FirstStopIsSilent(evts: seq<Event>, events: nat -> EventScript) {
      exists i :: 0 <= i < |evts| && StopsSilently(evts[i], events(i)) && NoneStops(evts, events, i)
    }

    /** How a cycle that claimed `evts` ends. */
    ghost function EndOf(evts: seq<Event>, events: nat -> EventScript, commit: Answer): End {
      if !NoneStops(evts, events, |evts|) then (if FirstStopIsSilent(evts, events) then Silent else Undone)
      else if !NoneBreaks(evts, events, |evts|) || commit == Declined then Undone
      else if commit == Lost then Unconfirmed
      else Settled
    }

    lemma FirstStopFound(evts: seq<Event>, events: nat -> EventScript, i: nat)
      requires i < |evts| && NoneStops(evts, events, i) && Stops(evts[i], events(i))
      ensures !NoneStops(evts, events, |evts|)
      ensures FirstStopIsSilent(evts, events) <==> StopsSilently(evts[i], events(i))
    {
      assert forall j :: i < j < |evts| ==> !NoneStops(evts, events, j);
    }

    lemma OneMoreTurn(evts: seq<Event>, events: nat -> EventScript, i: nat)
      requires i < |evts|
      ensures NoneStops(evts, events, i + 1) <==> NoneStops(evts, events, i) && !Stops(evts[i], events(i))
      ensures NoneBreaks(evts, events, i + 1) <==> NoneBreaks(evts, events, i) && !Breaks(evts[i], events(i))
    {
    }

    ghost predicate AllFinal(rows: map<Id, Row>, start: int, evts: seq<Event>, n: nat, events: nat -> EventScript)
      requires n <= |evts|
    {
      forall j :: 0 <= j < n ==> evts[j].id in rows && rows[evts[j].id] == FinalRow(start, evts[j], events(j))
    }

    /** The pause a failed attempt on an event imposes: a second if it cannot be parsed, else its backoff. */
    function PauseFor(e: Event): nat {
      if Publishable(e) then RetryGapMicros(Backoff(cfg.baseRetryDelay, cfg.maxRetryDelay, e.row.retryCount))
      else 1_000_000
    }

    /** The same column by column: acknowledged events are published, all others one failure further. */
    ghost predicate ColumnsFinal(rows: map<Id, Row>, start: int, evts: seq<Event>, events: nat -> EventScript) {
      forall j :: 0 <= j < |evts| ==>
        var full := Outcome(events(j).luck) == Full;
        && evts[j].id in rows
        && if Publishable(evts[j]) && ReplyTo(events(j)) == Acked
           then PublishColumns(evts[j].row, start, full, rows[evts[j].id])
           else FailColumns(evts[j].row, start, cfg.maxRetries, PauseFor(evts[j]), full, rows[evts[j].id])
    }

    lemma FinalColumns(rows: map<Id, Row>, start: int, evts: seq<Event>, events: nat -> EventScript)
      requires AllFinal(rows, start, evts, |evts|, events)
      ensures ColumnsFinal(rows, start, evts, events)
    {
    }

    /** The rows handled so far are written as they should be, and so is one more. */
    lemma OneMoreFinal(start: int, evts: seq<Event>, i: nat, events: nat -> EventScript, writes: map<Id, Row>, row: Row)
      requires i < |evts| && row == FinalRow(start, evts[i], events(i)) && DistinctIds(evts)
      requires AllFinal(writes, start, evts, i, events)
      ensures AllFinal(writes[evts[i].id := row], start, evts, i + 1, events)
    {
    }

    /* ---------- The code ---------- */

    /** The machine's record of this open cycle agrees with the transaction and with what was handled so far. */
    ghost predicate Agrees(world: World, tx: Tx, t: TxId, evts: seq<Event>, pos: nat, phase: Phase,
                           events: nat -> EventScript)
      reads world, tx
    {
      && world.Valid() && tx.Flat() && t in world.s.open && DistinctIds(evts) && tx.Locks() == IdSet(Ids(evts))
      && var c := world.s.open[t];
      && c.claimed && c.cfg == cfg && c.batch == evts && c.pos == pos <= |evts| && c.phase == phase
      && c.doomed == tx.aborted
      && (!c.doomed ==> tx.Writes().rows == c.writes && AllFinal(c.writes, c.start, evts, pos, events))
    }

    /** The store's failure mark and the machine's are the same step; an error is logged and the loop goes on. */
    method MarkEventFailed(world: World, tx: Tx, t: TxId, evts: seq<Event>, i: nat, delay: int,
                           ghost events: nat -> EventScript, luck: Luck)
      requires i < |evts| && Agrees(world, tx, t, evts, i, Rejected(delay), events) && luck == events(i).luck
      requires delay == DelayOf(cfg, evts[i].row) && !(Publishable(evts[i]) && ReplyTo(events(i)) == Acked)
      modifies world, tx
      ensures Agrees(world, tx, t, evts, i + 1, Ready, events) && old(world.trace) <= world.trace
      ensures world.s.open[t].start == old(world.s.open[t].start)
      ensures tx.aborted == (old(tx.aborted) || FailOutcome(luck) == Broken)
    {
      var start := world.s.open[t].start;
      NextIsFresh(world.maxRetries, world.epoch, world.trace, t);
      var _ := MarkFailedWithBackoff(tx, world.s.rows, evts[i].id, start, cfg.maxRetries, delay, luck);
      var how := if tx.aborted then Broken else Outcome(luck);
      ghost var c := world.s.open[t];
      MarkedCycle(world.s, t, how);
      world.Take(Mark(t, how));
      if how != Broken { OneMoreFinal(start, evts, i, events, c.writes, MarkedRow(c, evts[i].row, how == Full)); }
    }

    method MarkEventPublished(world: World, tx: Tx, t: TxId, evts: seq<Event>, i: nat,
                              ghost events: nat -> EventScript, luck: Luck)
      requires i < |evts| && Agrees(world, tx, t, evts, i, Acknowledged, events) && luck == events(i).luck
      requires Publishable(evts[i]) && ReplyTo(events(i)) == Acked
      modifies world, tx
      ensures Agrees(world, tx, t, evts, i + 1, Ready, events) && old(world.trace) <= world.trace
      ensures world.s.open[t].start == old(world.s.open[t].start)
      ensures tx.aborted == (old(tx.aborted) || Outcome(luck) == Broken)
    {
      var start := world.s.open[t].start;
      NextIsFresh(world.maxRetries, world.epoch, world.trace, t);
      var err := OutboxStore.MarkPublished(tx, world.s.rows, evts[i].id, start, luck);
      var how := if err then Broken else Outcome(luck);
      ghost var c := world.s.open[t];
      MarkedCycle(world.s, t, how);
      world.Take(Mark(t, how));
      if how != Broken { OneMoreFinal(start, evts, i, events, c.writes, MarkedRow(c, evts[i].row, how == Full)); }
    }

    /** Routing an exhausted event to its dead-letter topic: one publish step, whose failure is only logged. */
    method SendDeadLetter(world: World, tx: Tx, t: TxId, evts: seq<Event>, i: nat, delay: int, dlqTopic: string,
                          ghost events: nat -> EventScript, now: EventScript)
      requires i < |evts| && Agrees(world, tx, t, evts, i, Exhausted(delay), events)
      requires dlqTopic == DeadLetterTopic(cfg, evts[i].row)
      modifies world
      ensures Agrees(world, tx, t, evts, i, Rejected(delay), events) && old(world.trace) <= world.trace
      ensures world.s.open[t].start == old(world.s.open[t].start)
    {
      var reply, stored, _, sent :=
        KafkaProducer.Publish(producerRetries, DeadLettered, t, evts[i], dlqTopic, now.deadLetter);
      ghost var log := world.s.log;
      world.Take(DeadLetter(t, stored, reply == Acked));
      assert world.s.log == log + sent;
      world.Interfere(t, now.middle);
    }

    /** The failure branch: compute the delay, dead-letter on the last try, then mark. */
    method HandleRefusal(world: World, tx: Tx, t: TxId, evts: seq<Event>, i: nat, ghost events: nat -> EventScript,
                         now: EventScript)
      requires i < |evts| && Agrees(world, tx, t, evts, i, AfterPublish(cfg, evts[i].row, false), events)
      requires now == events(i) && Publishable(evts[i]) && ReplyTo(now) != Acked
      modifies world, tx
      ensures Agrees(world, tx, t, evts, i + 1, Ready, events) && old(world.trace) <= world.trace
      ensures world.s.open[t].start == old(world.s.open[t].start)
      ensures tx.aborted == (old(tx.aborted) || FailOutcome(now.luck) == Broken)
    {
      var row := evts[i].row;
      var delay := RetryDelay(cfg.baseRetryDelay, cfg.maxRetryDelay, row.retryCount);
      if row.retryCount + 1 >= cfg.maxRetries {
        var dlqTopic := cfg.dlqTopic;
        if dlqTopic == "" && row.facts.topic != "" {
          dlqTopic := row.facts.topic + ".dlq";
        }
        if dlqTopic != "" {
          SendDeadLetter(world, tx, t, evts, i, delay, dlqTopic, events, now);
        }
      }
      MarkEventFailed(world, tx, t, evts, i, delay, events, now.luck);
    }

    /** The main publish: what the producer leaves at the broker is the machine's publish step. */
    method SendEvent(world: World, tx: Tx, t: TxId, evts: seq<Event>, i: nat, ghost events: nat -> EventScript,
                     now: EventScript)
      returns (reply: Reply)
      requires i < |evts| && Agrees(world, tx, t, evts, i, Ready, events) && Publishable(evts[i])
      modifies world
      ensures reply == ReplyTo(now) && old(world.trace) <= world.trace
      ensures Agrees(world, tx, t, evts, i, AfterPublish(cfg, evts[i].row, reply == Acked), events)
      ensures world.s.open[t].start == old(world.s.open[t].start)
    {
      var stored, calls, sent;
      reply, stored, calls, sent :=
        KafkaProducer.Publish(producerRetries, Main, t, evts[i], evts[i].row.facts.topic, now.publish);
      ghost var log := world.s.log;
      world.Take(Label.Publish(t, stored, reply == Acked));
      assert world.s.log == log + sent;
    }

    /** A parseable event: publish it, then mark it as the reply demands. */
    method PublishEvent(world: World, tx: Tx, t: TxId, evts: seq<Event>, i: nat, ghost events: nat -> EventScript,
                        now: EventScript)
      returns (stopped: bool, end: End)
      requires i < |evts| && Agrees(world, tx, t, evts, i, Ready, events) && now == events(i) && Publishable(evts[i])
      modifies world, tx
      ensures old(world.trace) <= world.trace
      ensures !stopped ==> Agrees(world, tx, t, evts, i + 1, Ready, events)
      ensures !stopped ==> world.s.open[t].start == old(world.s.open[t].start)
      ensures !stopped ==> tx.aborted == (old(tx.aborted) || Breaks(evts[i], now))
      ensures stopped ==> world.Valid() && t !in world.s.open && t in world.s.rolledBack
      ensures stopped == GivesUp(now)
      ensures stopped ==> end == if !now.contextOver && ReplyTo(now) == Cancelled(false) then Silent else Undone
    {
      stopped, end := false, Undone;
      var reply := SendEvent(world, tx, t, evts, i, events, now);
      if reply != Acked && (now.contextOver || reply.Cancelled?) {
        world.Take(Abort(t));
        var alive := !now.contextOver && reply != Cancelled(true);
        return true, if alive then Silent else Undone;
      }
      world.Interfere(t, now.after);
      if reply == Acked {
        MarkEventPublished(world, tx, t, evts, i, events, now.luck);
      } else {
        HandleRefusal(world, tx, t, evts, i, events, now);
      }
    }

    /** One turn of the loop: stop if the context ended, mark an unparseable event failed, publish any other. */
    method HandleEvent(world: World, tx: Tx, t: TxId, evts: seq<Event>, i: nat, ghost events: nat -> EventScript,
                       now: EventScript)
      returns (stopped: bool, end: End)
      requires i < |evts| && Agrees(world, tx, t, evts, i, Ready, events) && now == events(i)
      modifies world, tx
      ensures old(world.trace) <= world.trace
      ensures !stopped ==> Agrees(world, tx, t, evts, i + 1, Ready, events)
      ensures !stopped ==> world.s.open[t].start == old(world.s.open[t].start)
      ensures !stopped ==> tx.aborted == (old(tx.aborted) || Breaks(evts[i], now))
      ensures stopped ==> world.Valid() && t !in world.s.open && t in world.s.rolledBack
      ensures stopped == Stops(evts[i], now)
      ensures stopped ==> end == if StopsSilently(evts[i], now) then Silent else Undone
    {
      stopped, end := false, Undone;
      world.Interfere(t, now.before);
      if now.contextDone {
        world.Take(Abort(t));
        return true, Undone;
      }
      if evts[i].row.facts.envelope.None? {
        world.Take(Reject(t));
        MarkEventFailed(world, tx, t, evts, i, 0, events, now.luck);
      } else {
        stopped, end := PublishEvent(world, tx, t, evts, i, events, now);
      }
    }

    /** The loop over the claimed batch. */
    method HandleBatch(world: World, tx: Tx, t: TxId, evts: seq<Event>, events: nat -> EventScript)
      returns (stopped: bool, end: End)
      requires Agrees(world, tx, t, evts, 0, Ready, events)
      modifies world, tx
      ensures old(world.trace) <= world.trace
      ensures !stopped ==> Agrees(world, tx, t, evts, |evts|, Ready, events)
      ensures !stopped ==> world.s.open[t].start == old(world.s.open[t].start)
      ensures !stopped ==> tx.aborted == (old(tx.aborted) || !NoneBreaks(evts, events, |evts|))
      ensures stopped ==> world.Valid() && t !in world.s.open && t in world.s.rolledBack
      ensures stopped == !NoneStops(evts, events, |evts|)
      ensures stopped ==> end == if FirstStopIsSilent(evts, events) then Silent else Undone
    {
      var i := 0;
      stopped, end := false, Undone;
      while i < |evts|
        invariant 0 <= i <= |evts| && !stopped && Agrees(world, tx, t, evts, i, Ready, events)
        invariant old(world.trace) <= world.trace && world.s.open[t].start == old(world.s.open[t].start)
        invariant NoneStops(evts, events, i) && tx.aborted == (old(tx.aborted) || !NoneBreaks(evts, events, i))
      {
        stopped, end := HandleEvent(world, tx, t, evts, i, events, events(i));
        OneMoreTurn(evts, events, i);
        if stopped {
          FirstStopFound(evts, events, i);
          return;
        }
        i := i + 1;
      }
    }

    /**
     Claiming: the fetched events are the machine's batch, and the transaction's locks the machine's. Others may act
     between a failed first query and the fallback. `ids` are the rows the query that counts selected.
     */
    method ClaimBatch(world: World, tx: Tx, t: TxId, script: CycleScript, ghost events: nat -> EventScript)
      returns (ids: seq<Id>, evts: seq<Event>, err: bool)
      requires world.Valid() && tx.Flat() && !tx.aborted && tx.Writes() == NOTHING && tx.Locks() == {} && Usable(cfg)
      requires t in world.s.open && world.s.open[t] == NewCycle(cfg, world.s.open[t].start)
      modifies world, tx
      ensures old(world.trace) <= world.trace
      ensures err <==> Outcome(script.fetch) == Broken || !Reads(script.reading, ids)
      ensures !err ==> Agrees(world, tx, t, evts, 0, Ready, events) && !tx.aborted && Ids(evts) == ids
      ensures !err ==> world.s.open[t].start == old(world.s.open[t].start)
      ensures Outcome(script.fetch) != Broken && (script.fetch.primary || script.retry == []) ==>
                Selected(old(world.s.rows), old(world.s.locks), old(world.s.open[t].start), cfg.batchSize,
                         script.fetch.primary, ids)
      ensures !err ==> forall id :: id in tx.Locks() <==> id in world.s.locks && world.s.locks[id] == t
      ensures err ==> evts == [] && world.Valid() && t !in world.s.open && t in world.s.rolledBack
    {
      ids, evts, err := FetchBatch(world, tx, t, script);
      if err {
        world.Take(Abort(t));
      } else {
        SelectedIsClaimable(world.s, t, ids, script.fetch.primary);
        LockBatch(world, t, ids, script.fetch.primary);
      }
    }

    /** The fetch itself: what it selected is what the query that counts should find in the table as it is now. */
    method FetchBatch(world: World, tx: Tx, t: TxId, script: CycleScript)
      returns (ids: seq<Id>, evts: seq<Event>, err: bool)
      requires world.Valid() && tx.Flat() && !tx.aborted && t in world.s.open && Usable(cfg)
      modifies world, tx
      ensures world.Valid() && tx.Flat() && old(world.trace) <= world.trace
      ensures t in world.s.open && world.s.open[t] == old(world.s.open[t])
      ensures script.fetch.primary || script.retry == [] ==> world.s == old(world.s)
      ensures err <==> Outcome(script.fetch) == Broken || !Reads(script.reading, ids)
      ensures Outcome(script.fetch) != Broken ==>
                Selected(world.s.rows, world.s.locks, world.s.open[t].start, cfg.batchSize, script.fetch.primary, ids)
      ensures err ==> evts == []
      ensures !err ==> forall i :: 0 <= i < |ids| ==> ids[i] in world.s.rows
      ensures !err ==> evts == Scanned(world.s.rows, ids)
      ensures !err ==> !tx.aborted && tx.Writes() == old(tx.Writes()) && tx.Locks() == old(tx.Locks()) + IdSet(ids)
    {
      var first := Snapshot(world.s.rows, world.s.locks);
      if !script.fetch.primary { world.Interfere(t, script.retry); }
      var primary;
      ids, evts, primary, err :=
        FetchAndLockPending(tx, first, Snapshot(world.s.rows, world.s.locks), world.s.open[t].start, cfg.batchSize,
                            script.fetch, script.partial, script.reading);
    }

    /** The claim as a step of the machine. */
    method LockBatch(world: World, t: TxId, ids: seq<Id>, primary: bool)
      requires world.Valid() && CanClaim(world.s, t, ids, primary)
      modifies world
      ensures world.Valid() && old(world.trace) <= world.trace && t in world.s.open
      ensures world.s.open[t] == ClaimedCycle(old(world.s.open[t]), Scanned(old(world.s.rows), ids), primary)
      ensures forall id :: id in IdSet(ids) <==> id in world.s.locks && world.s.locks[id] == t
    {
      world.Take(Claim(t, ids, primary));
      ReachableLocks(world.maxRetries, world.epoch, world.trace, t);
      assert Ids(world.s.open[t].batch) == ids;
    }

    /** The end of a cycle that handled its whole batch. */
    method FinishCycle(world: World, tx: Tx, t: TxId, evts: seq<Event>, ghost events: nat -> EventScript,
                       commit: Answer)
      returns (err: bool, end: End)
      requires Agrees(world, tx, t, evts, |evts|, Ready, events)
      modifies world
      ensures world.Valid() && old(world.trace) <= world.trace && t !in world.s.open
      ensures end == if tx.aborted || commit == Declined then Undone
                     else if commit == Lost then Unconfirmed
                     else Settled
      ensures err == (end != Settled)
      ensures end == Undone ==> t in world.s.rolledBack
      ensures end != Undone ==>
                t in world.s.committed && AllFinal(world.s.rows, old(world.s.open[t].start), evts, |evts|, events)
    {
      if tx.aborted || commit == Declined {
        world.Take(Commit(t, false));
        return true, Undone;
      }
      world.Take(Commit(t, true));
      err := commit == Lost;
      end := if err then Unconfirmed else Settled;
    }

    /** Everything after a successful claim. */
    method RunClaimed(world: World, tx: Tx, t: TxId, evts: seq<Event>, script: CycleScript, events: nat -> EventScript)
      returns (err: bool, end: End)
      requires Agrees(world, tx, t, evts, 0, Ready, events) && !tx.aborted
      modifies world, tx
      ensures world.Valid() && old(world.trace) <= world.trace && t !in world.s.open
      ensures end == EndOf(evts, events, script.commit) && err == !(end == Settled || end == Silent)
      ensures end == Undone || end == Silent ==> t in world.s.rolledBack
      ensures end == Settled || end == Unconfirmed ==>
                t in world.s.committed && AllFinal(world.s.rows, old(world.s.open[t].start), evts, |evts|, events)
    {
      var stopped;
      stopped, end := HandleBatch(world, tx, t, evts, events);
      if stopped { return end == Undone, end; }
      world.Interfere(t, script.last);
      err, end := FinishCycle(world, tx, t, evts, events, script.commit);
    }

    /**
     processOnce. Whatever others do in between and whatever fails, the execution is a run of the machine, the cycle
     is over when the call returns, and a committed cycle left every row of its batch as the broker's replies demand.
     The claim fails exactly on a broken path or reading; after it, how the cycle ends is determined exactly by what its
     events meet. The result is nil exactly when the cycle settled or, rolled back, stopped silently: the first event to
     stop the loop was parseable, the cycle's context alive, and the publish reported a cancellation all the same.
     */
    method ProcessOnce(world: World, t: TxId, script: CycleScript, events: nat -> EventScript)
      returns (err: bool, end: End, ids: seq<Id>, evts: seq<Event>, start: int)
      requires world.Valid() && t !in world.s.cfgs && t !in world.s.open
      requires Usable(cfg) && cfg.maxRetries == world.s.maxRetries
      modifies world
      ensures world.Valid() && old(world.trace) <= world.trace && t !in world.s.open
      ensures err == !(end == Settled || end == Silent)
      ensures end == NotStarted <==> script.contextDone || !script.begins
      ensures end == NotStarted ==> t !in world.s.cfgs
      ensures end != NotStarted ==>
                (end == Unclaimed <==> Outcome(script.fetch) == Broken || !Reads(script.reading, ids))
      ensures end != NotStarted && end != Unclaimed ==> end == EndOf(evts, events, script.commit) && Ids(evts) == ids
      ensures end == Unclaimed || end == Undone || end == Silent ==> t in world.s.rolledBack
      ensures end == Settled || end == Unconfirmed ==>
                t in world.s.committed && ColumnsFinal(world.s.rows, start, evts, events)
      ensures end != NotStarted && Outcome(script.fetch) != Broken && script.first == [] && script.second == []
              && (script.fetch.primary || script.retry == []) ==>
                Selected(old(world.s).rows, old(world.s).locks, old(world.s).now, cfg.batchSize, script.fetch.primary,
                         ids)
    {
      ids, evts, start := [], [], world.s.now;
      if script.contextDone { return true, NotStarted, ids, evts, start; }
      world.Interfere(t, script.first);
      if !script.begins { return true, NotStarted, ids, evts, start; }
      start := world.s.now;
      world.Take(Begin(t, cfg));
      err, end, ids, evts := RunBegun(world, t, script, events);
    }

    /** Everything after the transaction has begun. */
    method RunBegun(world: World, t: TxId, script: CycleScript, events: nat -> EventScript)
      returns (err: bool, end: End, ids: seq<Id>, evts: seq<Event>)
      requires world.Valid() && Usable(cfg)
      requires t in world.s.open && world.s.open[t] == NewCycle(cfg, world.s.open[t].start)
      modifies world
      ensures world.Valid() && old(world.trace) <= world.trace && t !in world.s.open
      ensures err == !(end == Settled || end == Silent) && end != NotStarted
      ensures end == Unclaimed <==> Outcome(script.fetch) == Broken || !Reads(script.reading, ids)
      ensures end != Unclaimed ==> end == EndOf(evts, events, script.commit) && Ids(evts) == ids
      ensures end == Unclaimed || end == Undone || end == Silent ==> t in world.s.rolledBack
      ensures end == Settled || end == Unconfirmed ==>
                t in world.s.committed && ColumnsFinal(world.s.rows, old(world.s.open[t].start), evts, events)
      ensures Outcome(script.fetch) != Broken && script.second == [] && (script.fetch.primary || script.retry == []) ==>
                Selected(old(world.s.rows), old(world.s.locks), old(world.s.open[t].start), cfg.batchSize,
                         script.fetch.primary, ids)
    {
      var tx;
      tx, ids, evts, err := BeginClaim(world, t, script, events);
      if err { return true, Unclaimed, ids, evts; }
      ghost var start := world.s.open[t].start;
      err, end := RunClaimed(world, tx, t, evts, script, events);
      if end == Settled || end == Unconfirmed { FinalColumns(world.s.rows, start, evts, events); }
    }

    method BeginClaim(world: World, t: TxId, script: CycleScript, ghost events: nat -> EventScript)
      returns (tx: Tx, ids: seq<Id>, evts: seq<Event>, err: bool)
      requires world.Valid() && Usable(cfg)
      requires t in world.s.open && world.s.open[t] == NewCycle(cfg, world.s.open[t].start)
      modifies world
      ensures fresh(tx) && old(world.trace) <= world.trace
      ensures err <==> Outcome(script.fetch) == Broken || !Reads(script.reading, ids)
      ensures !err ==> Agrees(world, tx, t, evts, 0, Ready, events) && !tx.aborted && Ids(evts) == ids
      ensures !err ==> world.s.open[t].start == old(world.s.open[t].start)
      ensures Outcome(script.fetch) != Broken && script.second == [] && (script.fetch.primary || script.retry == []) ==>
                Selected(old(world.s.rows), old(world.s.locks), old(world.s.open[t].start), cfg.batchSize,
                         script.fetch.primary, ids)
      ensures err ==> evts == [] && world.Valid() && t !in world.s.open && t in world.s.rolledBack
    {
      tx := new Tx();
      world.Interfere(t, script.second);
      ids, evts, err := ClaimBatch(world, tx, t, script, events);
    }
  }
}
