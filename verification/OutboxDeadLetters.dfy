/** The publisher's threshold for dead-lettering and the store's threshold for FAILED always agree. */
module OutboxDeadLetters {
  import opened OutboxTypes
  import opened OutboxMachine
  import opened OutboxInvariant
  import opened OutboxDelivery

  /** The cycle has failed, or is about to fail, row `id` for good, and the row has somewhere to go. */
  predicate DlqDue(c: Cycle, id: Id) {
    || (id in c.writes && c.writes[id].status == Failed && WantsDlq(c.cfg, c.writes[id]))
    || (c.pos < |c.batch| && c.batch[c.pos].id == id && c.phase.Rejected?
        && LastTry(c.cfg, c.batch[c.pos].row) && WantsDlq(c.cfg, c.batch[c.pos].row))
  }

  ghost predicate DlqTracked(s: State) {
    && (forall p :: p in s.dlqTries ==> p.0 in s.cfgs && p.1 in s.rows)
    && (forall t, id :: t in s.open && !s.open[t].doomed ==> ((t, id) in s.dlqTries <==> DlqDue(s.open[t], id)))
  }

  ghost predicate DlqSettled(s: State) {
    && (forall p :: p in s.failedBy ==> p.0 in s.committed && p.1 in s.rows)
    && (forall t, id :: t in s.committed && t in s.cfgs && id in s.rows && WantsDlq(s.cfgs[t], s.rows[id]) ==>
          ((t, id) in s.dlqTries <==> (t, id) in s.failedBy))
  }

  lemma MarkKeepsDlq(rows: map<Id, Row>, c: Cycle, how: How, id: Id)
    requires CycleOk(rows, c) && c.pos < |c.batch| && (c.phase.Acknowledged? || c.phase.Rejected?) && how != Broken
    ensures DlqDue(AfterMark(rows, c, c.batch[c.pos], how), id) <==> DlqDue(c, id)
  {
    UnmarkedYet(rows, c);
  }

  lemma SentDlq(s: State, t: TxId, stored: nat, acked: bool)
    requires DlqTracked(s) && CanPublish(s, t)
    ensures DlqTracked(Sent(s, t, stored, acked))
  {
  }

  lemma RefusedDlq(s: State, t: TxId)
    requires DlqTracked(s) && CanReject(s, t)
    ensures DlqTracked(Refused(s, t))
  {
  }

  lemma EscalatedDlq(s: State, t: TxId, stored: nat, acked: bool)
    requires Ledger(s) && DlqTracked(s) && CanDeadLetter(s, t) && CycleOk(s.rows, s.open[t])
    ensures DlqTracked(Escalated(s, t, stored, acked))
  {
    var s', e := Escalated(s, t, stored, acked), Current(s, t);
    assert Held(s.rows, e);
    forall u, id | u in s'.open && !s'.open[u].doomed
      ensures (u, id) in s'.dlqTries <==> DlqDue(s'.open[u], id)
    {
      assert (u, id) in s.dlqTries <==> DlqDue(s.open[u], id);
    }
  }

  lemma MarkedDlq(s: State, t: TxId, how: How)
    requires DlqTracked(s) && CanMark(s, t, how) && CycleOk(s.rows, s.open[t])
    ensures DlqTracked(Marked(s, t, how))
  {
    if how != Broken {
      forall id ensures DlqDue(Marked(s, t, how).open[t], id) <==> DlqDue(s.open[t], id) {
        MarkKeepsDlq(s.rows, s.open[t], how, id);
      }
    }
  }

  lemma BegunDlq(s: State, t: TxId, cfg: Config)
    requires DlqTracked(s) && DlqSettled(s) && Ledger(s) && CanBegin(s, t, cfg)
    ensures DlqTracked(Begun(s, t, cfg)) && DlqSettled(Begun(s, t, cfg))
  {
  }

  lemma ClaimedDlq(s: State, t: TxId, ids: seq<Id>, primary: bool)
    requires CyclesOk(s) && DlqTracked(s) && DlqSettled(s) && CanClaim(s, t, ids, primary)
    ensures DlqTracked(Claimed(s, t, ids, primary)) && DlqSettled(Claimed(s, t, ids, primary))
  {
  }

  lemma InsertedDlq(s: State, added: map<Id, Row>)
    requires DlqTracked(s) && DlqSettled(s) && CanInsert(s, added)
    ensures DlqTracked(Inserted(s, added)) && DlqSettled(Inserted(s, added))
  {
  }

  lemma SweptDlq(s: State, a: string, e: string, full: bool)
    requires DlqTracked(s) && DlqSettled(s)
    ensures DlqTracked(Swept(s, a, e, full)) && DlqSettled(Swept(s, a, e, full))
  {
  }

  lemma RolledBackDlq(s: State, t: TxId)
    requires DlqTracked(s) && DlqSettled(s)
    ensures DlqTracked(RolledBack(s, t)) && DlqSettled(RolledBack(s, t))
  {
  }

  lemma CommittedDlq(s: State, t: TxId)
    requires Ledger(s) && LocksMatch(s) && CyclesOk(s) && DlqTracked(s) && DlqSettled(s) && CanCommit(s, t, true)
    ensures DlqTracked(Committed(s, t)) && DlqSettled(Committed(s, t))
  {
    var s' := Committed(s, t);
    forall id | id in s.open[t].writes ensures id in s.rows && s.open[t].writes[id].facts == s.rows[id].facts {
      CommittedRow(s, t, id);
    }
    forall u, id | u in s'.committed && u in s'.cfgs && id in s'.rows && WantsDlq(s'.cfgs[u], s'.rows[id])
      ensures (u, id) in s'.dlqTries <==> (u, id) in s'.failedBy
    {
      assert id in s.rows && s'.rows[id].facts == s.rows[id].facts;
      if u == t { assert (t, id) in s.dlqTries <==> DlqDue(s.open[t], id); }
    }
  }

  lemma DlqSettledFramed(s: State, s': State)
    requires DlqSettled(s) && s'.committed == s.committed && s'.rows == s.rows && s'.cfgs == s.cfgs
    requires s'.failedBy == s.failedBy
    requires forall p: (TxId, Id) :: p.0 in s.committed ==> (p in s'.dlqTries <==> p in s.dlqTries)
    ensures DlqSettled(s')
  {
  }

  lemma PrivateSettled(s: State, l: Label)
    requires Ledger(s) && DlqSettled(s) && Enabled(s, l) && (l.Reject? || l.Publish? || l.DeadLetter? || l.Mark?)
    ensures DlqSettled(Apply(s, l))
  {
    DlqSettledFramed(s, Apply(s, l));
  }

  lemma PrivateDlq(s: State, l: Label)
    requires Ledger(s) && CyclesOk(s) && DlqTracked(s) && Enabled(s, l)
    requires l.Reject? || l.Publish? || l.DeadLetter? || l.Mark?
    ensures DlqTracked(Apply(s, l))
  {
    match l
    case Reject(t) => RefusedDlq(s, t);
    case Publish(t, stored, acked) => SentDlq(s, t, stored, acked);
    case DeadLetter(t, stored, acked) => EscalatedDlq(s, t, stored, acked);
    case Mark(t, how) => MarkedDlq(s, t, how);
  }

  lemma SharedDlq(s: State, l: Label)
    requires Ledger(s) && DlqTracked(s) && DlqSettled(s) && Enabled(s, l)
    requires l.Tick? || l.Insert? || l.Requeue? || l.Begin? || l.Abort?
    ensures DlqTracked(Apply(s, l)) && DlqSettled(Apply(s, l))
  {
    match l
    case Tick(_) =>
    case Insert(added) => InsertedDlq(s, added);
    case Requeue(a, e, full) => SweptDlq(s, a, e, full);
    case Begin(t, cfg) => BegunDlq(s, t, cfg);
    case Abort(t) => RolledBackDlq(s, t);
  }

  lemma CycleDlq(s: State, l: Label)
    requires Ledger(s) && LocksMatch(s) && CyclesOk(s) && DlqTracked(s) && DlqSettled(s) && Enabled(s, l)
    requires l.Claim? || l.Commit?
    ensures DlqTracked(Apply(s, l)) && DlqSettled(Apply(s, l))
  {
    match l
    case Claim(t, ids, primary) => ClaimedDlq(s, t, ids, primary);
    case Commit(t, applied) => if applied { CommittedDlq(s, t); } else { RolledBackDlq(s, t); }
  }

  lemma DlqKept(s: State, l: Label)
    requires Ledger(s) && LocksMatch(s) && CyclesOk(s) && DlqTracked(s) && DlqSettled(s) && Enabled(s, l)
    ensures DlqTracked(Apply(s, l)) && DlqSettled(Apply(s, l))
  {
    if l.Claim? || l.Commit? {
      CycleDlq(s, l);
    } else if l.Reject? || l.Publish? || l.DeadLetter? || l.Mark? {
      PrivateDlq(s, l);
      PrivateSettled(s, l);
    } else {
      SharedDlq(s, l);
    }
  }

  lemma {:induction false} RunDlq(s: State, ls: seq<Label>)
    requires Inv(s) && DlqTracked(s) && DlqSettled(s) && ValidRun(s, ls)
    ensures DlqTracked(Run(s, ls)) && DlqSettled(Run(s, ls))
    decreases |ls|
  {
    if ls == [] {
    } else {
      InvKept(s, ls[0]);
      DlqKept(s, ls[0]);
      RunDlq(Apply(s, ls[0]), ls[1..]);
    }
  }

  /**
   A committed cycle attempted a dead-letter publish of a parseable row with a dead-letter topic exactly when its
   commit made the row FAILED.
   */
  lemma ThresholdsAgree(maxRetries: int, now: int, ls: seq<Label>, t: TxId, id: Id)
    requires maxRetries >= 1 && ValidRun(Init(maxRetries, now), ls)
    requires var s := Run(Init(maxRetries, now), ls); t in s.committed && id in s.rows
    ensures var s := Run(Init(maxRetries, now), ls);
            && t in s.cfgs
            && (s.rows[id].facts.envelope.Some? && (s.cfgs[t].dlqTopic != "" || s.rows[id].facts.topic != "") ==>
                  ((t, id) in s.dlqTries <==> (t, id) in s.failedBy))
  {
    InitInv(maxRetries, now);
    RunInv(Init(maxRetries, now), ls);
    RunDlq(Init(maxRetries, now), ls);
  }

  /* ---------- Where dead letters go ---------- */

  /** A dead letter is where its cycle's configuration wants it, or else at its row's topic with ".dlq" behind it. */
  ghost predicate WellAddressed(cfgs: map<TxId, Config>, rows: map<Id, Row>, m: Message) {
    m.kind == DeadLettered ==>
      && m.tx in cfgs && m.id in rows
      && m.topic == if cfgs[m.tx].dlqTopic != "" then cfgs[m.tx].dlqTopic else rows[m.id].facts.topic + ".dlq"
  }

  ghost predicate Addressed(s: State) {
    forall k :: 0 <= k < |s.log| ==> WellAddressed(s.cfgs, s.rows, s.log[k])
  }

  lemma AddressedFramed(s: State, s': State, ms: seq<Message>)
    requires Addressed(s) && s'.log == s.log + ms
    requires forall t :: t in s.cfgs ==> t in s'.cfgs && s'.cfgs[t] == s.cfgs[t]
    requires forall id :: id in s.rows ==> id in s'.rows && s'.rows[id].facts == s.rows[id].facts
    requires forall k :: 0 <= k < |ms| ==> WellAddressed(s'.cfgs, s'.rows, ms[k])
    ensures Addressed(s')
  {
    forall k | 0 <= k < |s'.log| ensures WellAddressed(s'.cfgs, s'.rows, s'.log[k]) {
      if k < |s.log| {
        assert WellAddressed(s.cfgs, s.rows, s.log[k]);
      } else {
        assert s'.log[k] == ms[k - |s.log|];
      }
    }
  }

  lemma EscalatedAddressed(s: State, t: TxId, stored: nat, acked: bool)
    requires Ledger(s) && CyclesOk(s) && Addressed(s) && CanDeadLetter(s, t)
    ensures Addressed(Escalated(s, t, stored, acked))
  {
    var c, e := s.open[t], Current(s, t);
    assert CycleOk(s.rows, c) && Held(s.rows, e);
    var ms := Emitted(DeadLettered, t, e, DeadLetterTopic(c.cfg, e.row), stored, acked);
    AddressedFramed(s, Escalated(s, t, stored, acked), ms);
  }

  lemma SentAddressed(s: State, t: TxId, stored: nat, acked: bool)
    requires Addressed(s) && CanPublish(s, t)
    ensures Addressed(Sent(s, t, stored, acked))
  {
    var e := Current(s, t);
    AddressedFramed(s, Sent(s, t, stored, acked), Emitted(Main, t, e, e.row.facts.topic, stored, acked));
  }

  lemma SilentStep(s: State, l: Label)
    requires Enabled(s, l) && !l.Publish? && !l.DeadLetter?
    ensures Apply(s, l).log == s.log + []
    ensures forall t :: t in s.cfgs ==> t in Apply(s, l).cfgs && Apply(s, l).cfgs[t] == s.cfgs[t]
  {
  }

  lemma AddressedKept(s: State, l: Label)
    requires Ledger(s) && LocksMatch(s) && CyclesOk(s) && Addressed(s) && Enabled(s, l)
    ensures Addressed(Apply(s, l))
  {
    if l.Publish? {
      SentAddressed(s, l.t, l.stored, l.acked);
    } else if l.DeadLetter? {
      EscalatedAddressed(s, l.t, l.stored, l.acked);
    } else {
      SilentStep(s, l);
      StepRemembers(s, l);
      AddressedFramed(s, Apply(s, l), []);
    }
  }

  lemma {:induction false} RunAddressed(s: State, ls: seq<Label>)
    requires Inv(s) && Addressed(s) && ValidRun(s, ls)
    ensures Addressed(Run(s, ls))
    decreases |ls|
  {
    if ls == [] {
    } else {
      InvKept(s, ls[0]);
      AddressedKept(s, ls[0]);
      RunAddressed(Apply(s, ls[0]), ls[1..]);
    }
  }

  /**
   In every reachable state a dead letter lies in the topic its publisher is configured with, and if that is empty, in
   its row's topic with ".dlq" appended.
   */
  lemma DeadLettersAddressed(maxRetries: int, now: int, ls: seq<Label>, k: nat)
    requires maxRetries >= 1 && ValidRun(Init(maxRetries, now), ls)
    requires var log := Run(Init(maxRetries, now), ls).log; k < |log| && log[k].kind == DeadLettered
    ensures var s := Run(Init(maxRetries, now), ls);
            var m := s.log[k];
            && m.tx in s.cfgs && m.id in s.rows
            && (s.cfgs[m.tx].dlqTopic != "" ==> m.topic == s.cfgs[m.tx].dlqTopic)
            && (s.cfgs[m.tx].dlqTopic == "" ==> m.topic == s.rows[m.id].facts.topic + ".dlq")
  {
    InitInv(maxRetries, now);
    RunAddressed(Init(maxRetries, now), ls);
    assert WellAddressed(Run(Init(maxRetries, now), ls).cfgs, Run(Init(maxRetries, now), ls).rows,
                         Run(Init(maxRetries, now), ls).log[k]);
  }

  /** The retry ladder: in every reachable state a row is FAILED exactly when its count is the limit. */
  lemma RetryLadder(maxRetries: int, now: int, ls: seq<Label>, id: Id)
    requires maxRetries >= 1 && ValidRun(Init(maxRetries, now), ls) && id in Run(Init(maxRetries, now), ls).rows
    ensures var row := Run(Init(maxRetries, now), ls).rows[id];
            && row.retryCount <= maxRetries && (row.status == Failed <==> row.retryCount == maxRetries)
            && (row.status == Published ==> row.publishedAt.Some?)
  {
    InitInv(maxRetries, now);
    RunInv(Init(maxRetries, now), ls);
    RunKeepsMaxRetries(Init(maxRetries, now), ls);
    assert OnLadder(Run(Init(maxRetries, now), ls).rows[id], maxRetries);
  }

  lemma {:induction false} RunKeepsMaxRetries(s: State, ls: seq<Label>)
    requires ValidRun(s, ls)
    ensures Run(s, ls).maxRetries == s.maxRetries
    decreases |ls|
  {
    if ls == [] {
    } else {
      RunKeepsMaxRetries(Apply(s, ls[0]), ls[1..]);
    }
  }
}
