/** The producer's Publish: a retry loop around the broker write, and the headers a message carries. */
module KafkaProducer {
  import opened OutboxTypes
  import opened OutboxMachine
  import H = KafkaHeaders

  /** What a Publish call reports; a cancellation error need not mean that the caller's own context ended. */
  datatype Reply = Acked | Refusal | Cancelled(contextDone: bool)

  /**
   One call of the writer: the copies the broker stored without the call learning of it, and its result. A failure
   may itself be a cancellation error although the caller's context is alive.
   */
  datatype Write = Accepted(copies: nat) | Failed(copies: nat, cancellation: bool)

  /** What a Publish call meets: whether the envelope serialises, each write, and when the context is over. */
  datatype Fate = Fate(marshals: bool, writes: nat -> Write, contextDone: nat -> bool)

  /** max(1, MaxRetries) */
  function Tries(maxRetries: int): (n: nat)
    ensures n >= 1 && n >= maxRetries && (n == 1 || n == maxRetries)
  {
    if maxRetries < 1 then 1 else maxRetries
  }

  /** Unacknowledged copies left by the first n writes. */
  function Copies(fate: Fate, n: nat): nat {
    if n == 0 then 0 else Copies(fate, n - 1) + fate.writes(n).copies
  }

  lemma EmittedGrows(kind: Kind, t: TxId, e: Event, topic: string, stored: nat, more: nat, acked: bool)
    ensures Emitted(kind, t, e, topic, stored, false) + Emitted(kind, t, e, topic, more, acked)
         == Emitted(kind, t, e, topic, stored + more, acked)
  {
  }

  /** One call of the writer, after `stored` unacknowledged copies. */
  method WriteMessages(kind: Kind, t: TxId, e: Event, topic: string, write: Write, sent: seq<Message>,
                       ghost stored: nat)
    returns (after: seq<Message>)
    requires sent == Emitted(kind, t, e, topic, stored, false)
    ensures after == Emitted(kind, t, e, topic, stored + write.copies, write.Accepted?)
  {
    EmittedGrows(kind, t, e, topic, stored, write.copies, write.Accepted?);
    after := sent + Emitted(kind, t, e, topic, write.copies, write.Accepted?);
  }

  /** Write number `calls` ended the loop, after only failed writes that left the context alive. */
  ghost predicate EndsAt(tries: nat, fate: Fate, calls: nat) {
    && 1 <= calls <= tries
    && (forall k :: 1 <= k < calls ==> fate.writes(k).Failed? && !fate.contextDone(k))
    && (fate.writes(calls).Accepted? || fate.contextDone(calls) || calls == tries)
  }

  /** What the write that ended the loop makes the call return. */
  function ReplyOf(fate: Fate, calls: nat): Reply {
    if fate.writes(calls).Accepted? then Acked
    else if fate.contextDone(calls) then Cancelled(true)
    else if fate.writes(calls).cancellation then Cancelled(false)
    else Refusal
  }

  /** The write that ends the loop, from the given one on. */
  function Ending(tries: nat, fate: Fate, k: nat): nat
    requires 1 <= k <= tries
    decreases tries - k
  {
    if fate.writes(k).Accepted? || fate.contextDone(k) || k == tries then k else Ending(tries, fate, k + 1)
  }

  /** What a Publish call returns. */
  function Replied(maxRetries: int, fate: Fate): Reply {
    if fate.marshals then ReplyOf(fate, Ending(Tries(maxRetries), fate, 1)) else Refusal
  }

  /** That write is the first that succeeds or finds the context over, or the last there is. */
  lemma {:induction false} EndingEnds(tries: nat, fate: Fate, k: nat)
    requires 1 <= k <= tries && forall j :: 1 <= j < k ==> fate.writes(j).Failed? && !fate.contextDone(j)
    ensures EndsAt(tries, fate, Ending(tries, fate, k))
    decreases tries - k
  {
    if fate.writes(k).Accepted? || fate.contextDone(k) || k == tries {
    } else {
      EndingEnds(tries, fate, k + 1);
    }
  }

  /** Writes before k all failed with the context still alive. */
  ghost predicate FailedUntil(fate: Fate, k: nat) {
    forall j :: 1 <= j < k ==> fate.writes(j).Failed? && !fate.contextDone(j)
  }

  /** What a Publish call returns, in terms of the producer's setting and of what its writes meet. */
  lemma RepliedExactly(maxRetries: int, fate: Fate)
    requires fate.marshals
    ensures Replied(maxRetries, fate) == Acked <==>
              exists k :: 1 <= k && (k == 1 || k <= maxRetries) && FailedUntil(fate, k) && fate.writes(k).Accepted?
    ensures Replied(maxRetries, fate) == Cancelled(true) <==>
              exists k :: 1 <= k && (k == 1 || k <= maxRetries) && FailedUntil(fate, k)
                          && fate.writes(k).Failed? && fate.contextDone(k)
    ensures Replied(maxRetries, fate) in {Cancelled(false), Refusal} <==>
              forall k :: 1 <= k && (k == 1 || k <= maxRetries) ==> fate.writes(k).Failed? && !fate.contextDone(k)
    ensures var last := fate.writes(if maxRetries < 1 then 1 else maxRetries);
            && (Replied(maxRetries, fate) == Cancelled(false) ==> last.Failed? && last.cancellation)
            && (Replied(maxRetries, fate) == Refusal ==> last.Failed? && !last.cancellation)
  {
    var tries := Tries(maxRetries);
    var end := Ending(tries, fate, 1);
    EndingEnds(tries, fate, 1);
    assert FailedUntil(fate, end);
    forall k | 1 <= k <= tries && FailedUntil(fate, k) && (fate.writes(k).Accepted? || fate.contextDone(k))
      ensures k == end
    {
      EndingUnique(tries, fate, k, end);
    }
  }

  /** The loop has one ending. */
  lemma EndingUnique(tries: nat, fate: Fate, a: nat, b: nat)
    requires EndsAt(tries, fate, a) && EndsAt(tries, fate, b)
    ensures a == b
  {
  }

  /**
   Publish: whatever happens, what reached the broker is one step of the outbox machine. The context is consulted
   after every failed write, the last one included.
   */
  method Publish(maxRetries: int, kind: Kind, t: TxId, e: Event, topic: string, fate: Fate)
    returns (reply: Reply, stored: nat, calls: nat, sent: seq<Message>)
    ensures sent == Emitted(kind, t, e, topic, stored, reply == Acked) && stored == Copies(fate, calls)
    ensures reply == Replied(maxRetries, fate)
    ensures calls == if fate.marshals then Ending(Tries(maxRetries), fate, 1) else 0
    ensures calls <= 1 || calls <= maxRetries
    ensures |sent| == Copies(fate, calls) + if reply == Acked then 1 else 0
  {
    sent, stored, calls := [], 0, 0;
    reply := Refusal;
    if !fate.marshals { return; }
    var tries := if maxRetries < 1 then 1 else maxRetries;
    var attempt := 1;
    while attempt <= tries
      invariant 1 <= attempt <= tries + 1 && calls == attempt - 1
      invariant Ending(tries, fate, 1) == if attempt <= tries then Ending(tries, fate, attempt) else tries
      invariant stored == Copies(fate, calls) && sent == Emitted(kind, t, e, topic, stored, false)
      invariant reply != Acked && reply == if calls == 0 then Refusal else ReplyOf(fate, calls)
    {
      var write := fate.writes(attempt);
      calls := attempt;
      sent := WriteMessages(kind, t, e, topic, write, sent, stored);
      stored := stored + write.copies;
      if write.Accepted? { return Acked, stored, calls, sent; }
      if fate.contextDone(attempt) { return Cancelled(true), stored, calls, sent; }
      reply := if write.cancellation then Cancelled(false) else Refusal;
      attempt := attempt + 1;
    }
  }

  /* ---------- On the wire ---------- */

  const EVENT_ID := "event_id"
  const IDEMPOTENCY_KEY := "idempotency_key"

  /** The envelope fields beyond its identifiers that travel as headers. */
  datatype Meta = Meta(eventType: string, source: string, timestamp: string)

  function Wire(m: Message, meta: Meta): H.Message {
    H.Message(m.topic, m.partitionKey, m.envelope.body,
              [H.Header(EVENT_ID, m.envelope.eventId), H.Header(IDEMPOTENCY_KEY, m.envelope.eventId),
               H.Header("event_type", meta.eventType), H.Header("aggregate_id", m.partitionKey),
               H.Header("source", meta.source), H.Header("timestamp", meta.timestamp)])
  }

  /** Where a message goes and what its headers say: a consumer finds the key the machine reasons about. */
  lemma WireCarriesKey(m: Message, meta: Meta)
    ensures var w := Wire(m, meta);
            && w.topic == m.topic && w.key == m.partitionKey && w.value == m.envelope.body
            && H.HeaderValue(w.headers, "event_id") == m.envelope.eventId == m.IdempotencyKey()
            && H.HeaderValue(w.headers, "idempotency_key") == m.envelope.eventId
            && H.HeaderValue(w.headers, "event_type") == meta.eventType
            && H.HeaderValue(w.headers, "aggregate_id") == m.partitionKey
            && H.HeaderValue(w.headers, "source") == meta.source
            && H.HeaderValue(w.headers, "timestamp") == meta.timestamp
  {
    var hs := Wire(m, meta).headers;
    NthHeader(hs, 0);
    NthHeader(hs, 1);
    NthHeader(hs, 2);
    NthHeader(hs, 3);
    NthHeader(hs, 4);
    NthHeader(hs, 5);
  }

  /** With distinct keys, a lookup finds each header. */
  lemma NthHeader(hs: seq<H.Header>, n: nat)
    requires n < |hs| && forall i :: 0 <= i < n ==> hs[i].key != hs[n].key
    ensures H.HeaderValue(hs, hs[n].key) == hs[n].value
  {
    H.LookupFindsFirst(hs, hs[n].key);
    assert H.FirstUnder(hs, hs[n].key, n);
  }
}
