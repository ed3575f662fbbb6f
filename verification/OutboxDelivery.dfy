/** What the outbox promises over whole runs: acknowledgement accounting, durability, exclusion, exactly-once keys. */
module OutboxDelivery {
  import opened OutboxTypes
  import opened OutboxMachine
  import opened OutboxInvariant
  import OutboxStore

  /** Every Publish call for row `id` that returned without error, whoever made it. */
  ghost function TotalAcks(log: seq<Message>, id: Id): nat {
    if log == [] then 0
    else
      var m := log[|log| - 1];
      TotalAcks(log[..|log| - 1], id) + if m.kind == Main && m.acked && m.id == id then 1 else 0
  }

  lemma {:induction false} TotalIsAcks(log: seq<Message>, id: Id, ts: set<TxId>)
    requires forall k :: 0 <= k < |log| ==> log[k].tx in ts
    ensures TotalAcks(log, id) == Acks(log, id, ts)
  {
    if log == [] {
    } else {
      TotalIsAcks(log[..|log| - 1], id, ts);
    }
  }

  /** Each acknowledgement is accounted for once: by the published status, a rolled-back cycle or an open one. */
  lemma AcknowledgementAccounting(maxRetries: int, now: int, ls: seq<Label>, id: Id)
    requires maxRetries >= 1 && ValidRun(Init(maxRetries, now), ls)
    ensures var s := Run(Init(maxRetries, now), ls);
            TotalAcks(s.log, id)
            == (if id in s.rows && s.rows[id].status == Published then 1 else 0)
               + Acks(s.log, id, s.rolledBack) + Acks(s.log, id, s.open.Keys)
  {
    var s := Run(Init(maxRetries, now), ls);
    InitInv(maxRetries, now);
    RunInv(Init(maxRetries, now), ls);
    TotalIsAcks(s.log, id, s.cfgs.Keys);
    AcksUnion(s.log, id, s.open.Keys + s.committed, s.rolledBack);
    AcksUnion(s.log, id, s.open.Keys, s.committed);
  }

  /** Without crashes and open cycles, published rows were acknowledged once and all others never. */
  lemma QuiescentExactlyOnce(maxRetries: int, now: int, ls: seq<Label>, id: Id)
    requires maxRetries >= 1 && ValidRun(Init(maxRetries, now), ls)
    requires Run(Init(maxRetries, now), ls).rolledBack == {} && Run(Init(maxRetries, now), ls).open == map[]
    ensures var s := Run(Init(maxRetries, now), ls);
            TotalAcks(s.log, id) == if id in s.rows && s.rows[id].status == Published then 1 else 0
  {
    var s := Run(Init(maxRetries, now), ls);
    AcknowledgementAccounting(maxRetries, now, ls, id);
    assert s.open.Keys == {};
    NoAcks(s.log, id, {});
  }

  /* ---------- Durability ---------- */

  /** `s'` remembers everything `s` promised: rows, their facts, the broker log, and published rows verbatim. */
  ghost predicate Remembers(s: State, s': State) {
    && (forall id :: id in s.rows ==> id in s'.rows && s'.rows[id].facts == s.rows[id].facts)
    && (forall id :: id in s.rows && s.rows[id].status == Published ==> s'.rows[id] == s.rows[id])
    && s.log <= s'.log
  }

  lemma OverlayRemembers(rows: map<Id, Row>, writes: map<Id, Row>)
    requires forall id :: id in writes ==>
               id in rows && rows[id].status == Pending && writes[id].facts == rows[id].facts
    ensures forall id :: id in rows ==> id in rows + writes && (rows + writes)[id].facts == rows[id].facts
    ensures forall id :: id in rows && rows[id].status == Published ==> (rows + writes)[id] == rows[id]
  {
  }

  lemma CommitRemembers(s: State, t: TxId)
    requires CyclesOk(s) && t in s.open
    ensures Remembers(s, Committed(s, t))
  {
    var writes := s.open[t].writes;
    forall id | id in writes
      ensures id in s.rows && s.rows[id].status == Pending && writes[id].facts == s.rows[id].facts
    {
      WriteClimbs(s.rows, s.open[t], id);
    }
    OverlayRemembers(s.rows, writes);
    CommitShape(s, t);
  }

  lemma CommitShape(s: State, t: TxId)
    requires t in s.open
    ensures Committed(s, t).rows == s.rows + s.open[t].writes && Committed(s, t).log == s.log
  {
  }

  lemma OtherRemembers(s: State, l: Label)
    requires Enabled(s, l) && !(l.Commit? && l.applied)
    ensures Remembers(s, Apply(s, l))
  {
  }

  lemma StepRemembers(s: State, l: Label)
    requires LocksMatch(s) && CyclesOk(s) && Enabled(s, l)
    ensures Remembers(s, Apply(s, l))
  {
    if l.Commit? && l.applied { CommitRemembers(s, l.t); } else { OtherRemembers(s, l); }
  }

  lemma {:induction false} RunRemembers(s: State, ls: seq<Label>)
    requires Inv(s) && ValidRun(s, ls)
    ensures Remembers(s, Run(s, ls))
    decreases |ls|
  {
    if ls == [] {
    } else {
      var s1 := Apply(s, ls[0]);
      StepRemembers(s, ls[0]);
      InvKept(s, ls[0]);
      RunRemembers(s1, ls[1..]);
    }
  }

  /** A published row was acknowledged at least once, and no continuation of the run changes or drops it. */
  lemma PublishedForever(maxRetries: int, now: int, ls: seq<Label>, ms: seq<Label>, id: Id)
    requires maxRetries >= 1 && ValidRun(Init(maxRetries, now), ls)
    requires ValidRun(Run(Init(maxRetries, now), ls), ms)
    requires var s := Run(Init(maxRetries, now), ls); id in s.rows && s.rows[id].status == Published
    ensures var s := Run(Init(maxRetries, now), ls);
            var s' := Run(s, ms);
            TotalAcks(s.log, id) >= 1 && id in s'.rows && s'.rows[id] == s.rows[id] && s.log <= s'.log
  {
    var s := Run(Init(maxRetries, now), ls);
    AcknowledgementAccounting(maxRetries, now, ls, id);
    InitInv(maxRetries, now);
    RunInv(Init(maxRetries, now), ls);
    RunRemembers(s, ms);
  }

  /** No row vanishes: in every reachable state the three status counts add up to the rows ever inserted. */
  lemma CountsMatchInserts(maxRetries: int, now: int, ls: seq<Label>)
    requires maxRetries >= 1 && ValidRun(Init(maxRetries, now), ls)
    ensures var s := Run(Init(maxRetries, now), ls);
            |OutboxStore.WithStatus(s.rows, Pending)| + |OutboxStore.WithStatus(s.rows, Published)|
            + |OutboxStore.WithStatus(s.rows, Failed)| == s.inserted == RowsInserted(ls)
  {
    InitInv(maxRetries, now);
    RunInv(Init(maxRetries, now), ls);
    OutboxStore.StatusCountsSum(Run(Init(maxRetries, now), ls).rows);
    RunCountsInserts(Init(maxRetries, now), ls);
  }

  /** The rows the inserts of a run bring in. */
  function RowsInserted(ls: seq<Label>): nat {
    if ls == [] then 0 else (if ls[0].Insert? then |ls[0].added| else 0) + RowsInserted(ls[1..])
  }

  lemma {:induction false} RunCountsInserts(s: State, ls: seq<Label>)
    requires ValidRun(s, ls)
    ensures Run(s, ls).inserted == s.inserted + RowsInserted(ls)
    decreases |ls|
  {
    if ls == [] {
    } else {
      RunCountsInserts(Apply(s, ls[0]), ls[1..]);
    }
  }

  /* ---------- Exclusion ---------- */

  /** Distinct open cycles hold disjoint batches of committed pending rows, unchanged since they were read. */
  lemma BatchesExclusive(maxRetries: int, now: int, ls: seq<Label>, t: TxId, i: nat)
    requires maxRetries >= 1 && ValidRun(Init(maxRetries, now), ls)
    requires var s := Run(Init(maxRetries, now), ls); t in s.open && i < |s.open[t].batch|
    ensures var s := Run(Init(maxRetries, now), ls);
            var e := s.open[t].batch[i];
            && e.id in s.rows && s.rows[e.id].status == Pending && s.rows[e.id].retryCount == e.row.retryCount
            && s.rows[e.id] == e.row
            && (forall u :: u in s.open && Holds(s.open[u], e.id) ==> u == t)
            && (forall j :: 0 <= j < |s.open[t].batch| && s.open[t].batch[j].id == e.id ==> j == i)
  {
    var s := Run(Init(maxRetries, now), ls);
    InitInv(maxRetries, now);
    RunInv(Init(maxRetries, now), ls);
    var e := s.open[t].batch[i];
    assert CycleOk(s.rows, s.open[t]) && Held(s.rows, e);
    forall u | u in s.open && Holds(s.open[u], e.id) ensures u == t {
      var j :| 0 <= j < |s.open[u].batch| && s.open[u].batch[j].id == e.id;
      assert s.locks[s.open[u].batch[j].id] == u;
    }
  }

  /* ---------- Idempotency ---------- */

  /** A message's key is the event id its row's payload names, or the row's own id if it names none. */
  ghost predicate KeyOfRow(rows: map<Id, Row>, m: Message) {
    && m.id in rows
    && var named := rows[m.id].facts.envelope;
    m.IdempotencyKey() == if named.Some? && named.value.eventId != "" then named.value.eventId else m.id
  }

  /** Rows whose payloads name no event id have keys of their own. */
  lemma FilledKeysDiffer(maxRetries: int, now: int, ls: seq<Label>, j: nat, k: nat)
    requires maxRetries >= 1 && ValidRun(Init(maxRetries, now), ls)
    requires var s := Run(Init(maxRetries, now), ls);
             && j < |s.log| && k < |s.log| && s.log[j].id != s.log[k].id
             && forall id :: id in s.rows && s.rows[id].facts.envelope.Some? ==>
                  s.rows[id].facts.envelope.value.eventId == ""
    ensures var log := Run(Init(maxRetries, now), ls).log; log[j].IdempotencyKey() != log[k].IdempotencyKey()
  {
    OneKeyPerRow(maxRetries, now, ls, j, j);
    OneKeyPerRow(maxRetries, now, ls, k, k);
  }

  /** Every broker message for a row, over all retries, cycles and instances, carries one idempotency key. */
  lemma OneKeyPerRow(maxRetries: int, now: int, ls: seq<Label>, j: nat, k: nat)
    requires maxRetries >= 1 && ValidRun(Init(maxRetries, now), ls)
    requires var log := Run(Init(maxRetries, now), ls).log; j < |log| && k < |log| && log[j].id == log[k].id
    ensures var log := Run(Init(maxRetries, now), ls).log;
            && log[j].envelope == log[k].envelope && log[j].IdempotencyKey() == log[k].IdempotencyKey()
            && KeyOfRow(Run(Init(maxRetries, now), ls).rows, log[j])
  {
    var s := Run(Init(maxRetries, now), ls);
    InitInv(maxRetries, now);
    RunInv(Init(maxRetries, now), ls);
    assert MessageFits(s.rows, s.log[j]) && MessageFits(s.rows, s.log[k]);
  }

  function RowKey(rows: map<Id, Row>, id: Id): string
    requires id in rows
  {
    Outgoing(id, rows[id].facts).eventId
  }

  /** What a consumer that drops repeated keys from the main topic sees, in order. */
  function Delivered(log: seq<Message>): seq<string> {
    if log == [] then []
    else
      var before := Delivered(log[..|log| - 1]);
      var m := log[|log| - 1];
      if m.kind == Main && m.IdempotencyKey() !in before then before + [m.IdempotencyKey()] else before
  }

  lemma {:induction false} DeliveredOnce(log: seq<Message>)
    ensures forall i, j :: 0 <= i < j < |Delivered(log)| ==> Delivered(log)[i] != Delivered(log)[j]
    ensures forall k :: 0 <= k < |log| && log[k].kind == Main ==> log[k].IdempotencyKey() in Delivered(log)
    ensures forall key :: key in Delivered(log) ==>
              exists k :: 0 <= k < |log| && log[k].kind == Main && log[k].IdempotencyKey() == key
  {
    if log == [] {
    } else {
      var init, m := log[..|log| - 1], log[|log| - 1];
      DeliveredOnce(init);
      forall key | key in Delivered(log)
        ensures exists k :: 0 <= k < |log| && log[k].kind == Main && log[k].IdempotencyKey() == key
      {
        if key in Delivered(init) {
          var k :| 0 <= k < |init| && init[k].kind == Main && init[k].IdempotencyKey() == key;
          assert log[k].IdempotencyKey() == key;
        } else {
          assert log[|log| - 1].IdempotencyKey() == key;
        }
      }
      forall k | 0 <= k < |log| && log[k].kind == Main ensures log[k].IdempotencyKey() in Delivered(log) {
        if k < |init| { assert init[k].IdempotencyKey() in Delivered(init); }
      }
    }
  }

  /** What was delivered is never taken back or reordered. */
  lemma {:induction false} DeliveredGrows(log: seq<Message>, log': seq<Message>)
    requires log <= log'
    ensures Delivered(log) <= Delivered(log')
    decreases |log'|
  {
    if log == log' {
    } else {
      DeliveredGrows(log, log'[..|log'| - 1]);
    }
  }

  lemma {:induction false} AckedIsLogged(log: seq<Message>, id: Id)
    requires TotalAcks(log, id) >= 1
    ensures exists k :: 0 <= k < |log| && log[k].kind == Main && log[k].id == id
  {
    var m := log[|log| - 1];
    if m.kind == Main && m.acked && m.id == id {
      assert log[|log| - 1].id == id;
    } else {
      AckedIsLogged(log[..|log| - 1], id);
      var k :| 0 <= k < |log| - 1 && log[..|log| - 1][k].kind == Main && log[..|log| - 1][k].id == id;
      assert log[k].id == id;
    }
  }

  /**
   Exactly-once for consumers that remember keys: when distinct rows have distinct keys, the delivered sequence
   has no repeats, names only rows of the table, contains every published row (so it is at least as long as there
   are published rows and no longer than the table), and only ever grows.
   */
  lemma ExactlyOnceByKey(maxRetries: int, now: int, ls: seq<Label>, ms: seq<Label>)
    requires maxRetries >= 1 && ValidRun(Init(maxRetries, now), ls)
    requires ValidRun(Run(Init(maxRetries, now), ls), ms)
    requires var rows := Run(Init(maxRetries, now), ls).rows;
             forall a, b :: a in rows && b in rows && RowKey(rows, a) == RowKey(rows, b) ==> a == b
    ensures var s := Run(Init(maxRetries, now), ls);
            var keys := Delivered(s.log);
            && (forall i, j :: 0 <= i < j < |keys| ==> keys[i] != keys[j])
            && (forall key :: key in keys ==> exists id :: id in s.rows && RowKey(s.rows, id) == key)
            && (forall id :: id in s.rows && s.rows[id].status == Published ==> RowKey(s.rows, id) in keys)
            && |set id | id in s.rows && s.rows[id].status == Published| <= |keys| <= |s.rows|
            && keys <= Delivered(Run(s, ms).log)
  {
    var s := Run(Init(maxRetries, now), ls);
    InitInv(maxRetries, now);
    RunInv(Init(maxRetries, now), ls);
    RunRemembers(s, ms);
    DeliveredOnce(s.log);
    DeliveredGrows(s.log, Run(s, ms).log);
    DeliveredAreRows(s.rows, s.log);
    forall id | id in s.rows && s.rows[id].status == Published ensures RowKey(s.rows, id) in Delivered(s.log) {
      AcknowledgementAccounting(maxRetries, now, ls, id);
      AckedIsDelivered(s.rows, s.log, id);
    }
    DeliveryCounts(s.rows, Delivered(s.log));
  }

  lemma DeliveredAreRows(rows: map<Id, Row>, log: seq<Message>)
    requires forall k :: 0 <= k < |log| ==> MessageFits(rows, log[k])
    ensures forall key :: key in Delivered(log) ==> exists id :: id in rows && RowKey(rows, id) == key
  {
    DeliveredOnce(log);
    forall key | key in Delivered(log) ensures exists id :: id in rows && RowKey(rows, id) == key {
      var k :| 0 <= k < |log| && log[k].kind == Main && log[k].IdempotencyKey() == key;
      assert MessageFits(rows, log[k]);
      assert RowKey(rows, log[k].id) == key;
    }
  }

  lemma AckedIsDelivered(rows: map<Id, Row>, log: seq<Message>, id: Id)
    requires forall k :: 0 <= k < |log| ==> MessageFits(rows, log[k])
    requires id in rows && TotalAcks(log, id) >= 1
    ensures RowKey(rows, id) in Delivered(log)
  {
    DeliveredOnce(log);
    AckedIsLogged(log, id);
    var k :| 0 <= k < |log| && log[k].kind == Main && log[k].id == id;
    assert MessageFits(rows, log[k]);
  }

  /** With a key per row, distinct keys count rows. */
  lemma DeliveryCounts(rows: map<Id, Row>, keys: seq<string>)
    requires forall a, b :: a in rows && b in rows && RowKey(rows, a) == RowKey(rows, b) ==> a == b
    requires forall i, j :: 0 <= i < j < |keys| ==> keys[i] != keys[j]
    requires forall key :: key in keys ==> exists id :: id in rows && RowKey(rows, id) == key
    requires forall id :: id in rows && rows[id].status == Published ==> RowKey(rows, id) in keys
    ensures |set id | id in rows && rows[id].status == Published| <= |keys| <= |rows|
  {
    var published := set id | id in rows && rows[id].status == Published;
    var keySet := set key | key in keys;
    DistinctSize(keys, keySet);
    var image := set id | id in published :: RowKey(rows, id);
    ImageSize(rows, published, image);
    SubsetSize(image, keySet);
    var all := set id | id in rows.Keys :: RowKey(rows, id);
    ImageSize(rows, rows.Keys, all);
    SubsetSize(keySet, all);
    assert |rows| == |rows.Keys|;
  }

  lemma {:induction false} DistinctSize(keys: seq<string>, keySet: set<string>)
    requires forall i, j :: 0 <= i < j < |keys| ==> keys[i] != keys[j]
    requires keySet == set key | key in keys
    ensures |keySet| == |keys|
    decreases keys
  {
    if keys == [] {
    } else {
      var rest := set key | key in keys[1..];
      DistinctSize(keys[1..], rest);
      assert keySet == rest + {keys[0]};
    }
  }

  lemma {:induction false} ImageSize(rows: map<Id, Row>, ids: set<Id>, image: set<string>)
    requires ids <= rows.Keys && image == set id | id in ids :: RowKey(rows, id)
    requires forall a, b :: a in rows && b in rows && RowKey(rows, a) == RowKey(rows, b) ==> a == b
    ensures |image| == |ids|
    decreases ids
  {
    if ids == {} {
    } else {
      var id :| id in ids;
      var rest := set x | x in ids - {id} :: RowKey(rows, x);
      ImageSize(rows, ids - {id}, rest);
      assert image == rest + {RowKey(rows, id)};
      assert RowKey(rows, id) !in rest;
    }
  }

  lemma {:induction false} SubsetSize(a: set<string>, b: set<string>)
    requires a <= b
    ensures |a| <= |b|
    decreases a
  {
    if a == {} {
    } else {
      var x :| x in a;
      SubsetSize(a - {x}, b - {x});
    }
  }
}
