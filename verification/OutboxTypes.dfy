/** Rows, events and configuration of the transactional outbox, and what each SQL statement does to a row. */
module OutboxTypes {
  import opened Options
  import opened Durations
  import opened Seconds

  type Id = string
  type TxId = nat

  datatype Status = Pending | Published | Failed

  /** What parsing a stored payload yields; an empty eventId stands for a payload without one. */
  datatype Envelope = Envelope(eventId: string, aggregateId: string, body: string)

  /** The columns an insert sets and no later statement changes. */
  datatype Facts = Facts(
    aggregateType: string,
    aggregateId: string,
    eventType: string,
    envelope: Option<Envelope>,
    headers: Option<string>,
    topic: string,
    createdAt: int)

  /** A row of outbox_events. Only the newer schema has `headers`, `nextRetryAt` and `updatedAt`. */
  datatype Row = Row(
    facts: Facts,
    status: Status,
    retryCount: nat,
    nextRetryAt: Option<int>,
    updatedAt: Option<int>,
    publishedAt: Option<int>)

  /** The copy of a row a publisher scans when it claims it. */
  datatype Event = Event(id: Id, row: Row)

  datatype Config = Config(
    batchSize: int,
    maxRetries: int,
    baseRetryDelay: int,
    maxRetryDelay: int,
    dlqTopic: string)

  const DEFAULT_CONFIG := Config(50, 5, NANOS_PER_SECOND, 60 * NANOS_PER_SECOND, "")

  predicate Usable(cfg: Config) {
    cfg.batchSize >= 1 && cfg.maxRetries >= 1 && cfg.baseRetryDelay >= 1 && cfg.maxRetryDelay >= 1
  }

  /** NewPublisher's defaulting: every non-positive setting is replaced, every other one is kept. */
  function Normalised(cfg: Config): (r: Config)
    ensures Usable(r) && (Usable(cfg) ==> r == cfg)
    ensures r.batchSize == cfg.batchSize || (cfg.batchSize <= 0 && r.batchSize == 50)
    ensures r.maxRetries == cfg.maxRetries || (cfg.maxRetries <= 0 && r.maxRetries == 5)
    ensures r.baseRetryDelay == cfg.baseRetryDelay || (cfg.baseRetryDelay <= 0 && r.baseRetryDelay == 1_000_000_000)
    ensures r.maxRetryDelay == cfg.maxRetryDelay || (cfg.maxRetryDelay <= 0 && r.maxRetryDelay == 60_000_000_000)
    ensures r.dlqTopic == cfg.dlqTopic
  {
    Config(
      if cfg.batchSize <= 0 then DEFAULT_CONFIG.batchSize else cfg.batchSize,
      if cfg.maxRetries <= 0 then DEFAULT_CONFIG.maxRetries else cfg.maxRetries,
      if cfg.baseRetryDelay <= 0 then DEFAULT_CONFIG.baseRetryDelay else cfg.baseRetryDelay,
      if cfg.maxRetryDelay <= 0 then DEFAULT_CONFIG.maxRetryDelay else cfg.maxRetryDelay,
      cfg.dlqTopic)
  }

  /**
   The row an insert leaves. The fallback statement (`full` false) names no newer columns: a newer table fills them with
   their defaults, an older one has none.
   */
  function InsertedRow(e: Facts, now: int, full: bool, newer: bool): Row {
    var given := if full && e.headers.Some? && e.headers.value != "" then e.headers else Some("{}");
    Row(e.(createdAt := now, headers := if newer then given else None), Pending, 0,
        if newer then Some(now) else None, if newer then Some(now) else None, None)
  }

  function MarkedPublished(row: Row, now: int, full: bool): Row {
    row.(status := Published, publishedAt := Some(now),
         updatedAt := if full then Some(now) else row.updatedAt)
  }

  /** Both statements of a failure mark: the counter, then the status and, on the newer schema, the next try. */
  function MarkedFailed(row: Row, now: int, maxRetries: int, delay: int, full: bool): Row {
    var count := row.retryCount + 1;
    var marked := row.(retryCount := count, status := if count >= maxRetries then Failed else Pending);
    if full then marked.(nextRetryAt := Some(now + RetryGapMicros(delay)), updatedAt := Some(now)) else marked
  }

  function Requeued(row: Row, now: int, full: bool): Row {
    var reset := row.(status := Pending, retryCount := 0);
    if full then reset.(nextRetryAt := Some(now), updatedAt := Some(now)) else reset
  }

  /** Empty filters match every row. */
  predicate Requeueable(row: Row, aggregateType: string, eventType: string) {
    && row.status == Failed
    && (aggregateType == "" || row.facts.aggregateType == aggregateType)
    && (eventType == "" || row.facts.eventType == eventType)
  }

  /** The WHERE clause of a claim; the fallback query ignores the backoff column. */
  predicate Due(row: Row, start: int, primary: bool) {
    row.status == Pending && (primary && row.nextRetryAt.Some? ==> row.nextRetryAt.value <= start)
  }

  /** The envelope a row is published with: missing identifiers are filled in from the row. */
  function Outgoing(id: Id, facts: Facts): (r: Envelope)
    ensures r.eventId == id || (facts.envelope.Some? && r.eventId == facts.envelope.value.eventId != "")
    ensures facts.envelope.Some? && facts.envelope.value.eventId != "" ==> r.eventId == facts.envelope.value.eventId
    ensures facts.envelope.Some? && facts.envelope.value.aggregateId != "" ==>
              r.aggregateId == facts.envelope.value.aggregateId
    ensures r.aggregateId == "" ==> facts.aggregateId == ""
    ensures r.aggregateId != facts.aggregateId ==>
              facts.envelope.Some? && r.aggregateId == facts.envelope.value.aggregateId
    ensures facts.envelope.Some? ==> r.body == facts.envelope.value.body
  {
    var e := if facts.envelope.Some? then facts.envelope.value else Envelope("", "", "");
    e.(eventId := if e.eventId == "" then id else e.eventId,
       aggregateId := if e.aggregateId == "" then facts.aggregateId else e.aggregateId)
  }

  /** The dead-letter topic; one made up from the row's topic is never that topic itself. */
  function DeadLetterTopic(cfg: Config, row: Row): (r: string)
    ensures r == "" <==> cfg.dlqTopic == "" && row.facts.topic == ""
    ensures r != "" && r == row.facts.topic ==> r == cfg.dlqTopic
  {
    if cfg.dlqTopic == "" && row.facts.topic != "" then row.facts.topic + ".dlq" else cfg.dlqTopic
  }

  /** The delay a failure imposes after `tries` earlier ones: none when the payload does not parse. */
  function DelayAfter(cfg: Config, facts: Facts, tries: nat): int {
    if facts.envelope.None? then 0 else Backoff(cfg.baseRetryDelay, cfg.maxRetryDelay, tries)
  }

  function DelayOf(cfg: Config, row: Row): int {
    DelayAfter(cfg, row.facts, row.retryCount)
  }

  function PauseAfter(cfg: Config, facts: Facts, tries: nat): nat {
    RetryGapMicros(DelayAfter(cfg, facts, tries))
  }
}
