/** The consumer: retries, dead letters and offset commits. Every fetched message gets one disposition. */
module KafkaConsumer {
  import opened Durations
  import opened KafkaHeaders

  datatype Config = Config(maxRetries: int, retryInterval: int, dlqSuffix: string)

  /** max(1, MaxRetries) */
  function Tries(cfg: Config): (n: nat)
    ensures n >= 1 && n >= cfg.maxRetries && (n == 1 || n == cfg.maxRetries)
  {
    if cfg.maxRetries < 1 then 1 else cfg.maxRetries
  }

  /** What becomes of a message. The last three lose it: its offset is committed all the same. */
  datatype Disposition = Handled | Buried | CancelledWait | BurialFailed | NoProducer

  /**
   What a message meets: whether it parses, which handler calls succeed, after which failed call the wait is
   cancelled, whether there is a producer and whether its write to the dead-letter topic succeeds.
   */
  datatype Fate = Fate(
    parses: bool, succeeds: nat -> bool, cancelled: nat -> bool, producer: bool, burial: bool, failure: Failure)

  /** Calls made and how they ended, from the given attempt on. */
  datatype Handling = Succeeded(calls: nat) | Interrupted(calls: nat) | Exhausted(calls: nat)

  function Handle(tries: nat, fate: Fate, attempt: nat): Handling
    requires 1 <= attempt <= tries
    decreases tries - attempt
  {
    if fate.succeeds(attempt) then Succeeded(attempt)
    else if attempt == tries then Exhausted(attempt)
    else if fate.cancelled(attempt) then Interrupted(attempt)
    else Handle(tries, fate, attempt + 1)
  }

  function Burial(fate: Fate): Disposition {
    if !fate.producer then NoProducer else if fate.burial then Buried else BurialFailed
  }

  function Dispose(cfg: Config, fate: Fate): Disposition {
    if !fate.parses then Burial(fate)
    else
      match Handle(Tries(cfg), fate, 1)
      case Succeeded(_) => Handled
      case Interrupted(_) => CancelledWait
      case Exhausted(_) => Burial(fate)
  }

  /** The total of the first n waits: interval, then twice that, and so on. */
  function Waits(interval: int, n: nat): int {
    interval * (Pow2(n) - 1)
  }

  /** Every wait that is ever made fits 64 bits. */
  predicate WaitsFit(cfg: Config) {
    cfg.retryInterval >= 0 && (Tries(cfg) >= 2 ==> cfg.retryInterval * Pow2(Tries(cfg) - 2) <= MAX_INT64)
  }

  /** Handlers stop at the first success, run at most Tries times, and never after a cancelled wait. */
  lemma {:induction false} HandlingStops(tries: nat, fate: Fate, attempt: nat)
    requires 1 <= attempt <= tries
    ensures var h := Handle(tries, fate, attempt);
            && attempt <= h.calls <= tries
            && (forall k :: attempt <= k < h.calls ==> !fate.succeeds(k) && !fate.cancelled(k))
            && (h.Succeeded? <==> fate.succeeds(h.calls))
            && (h.Exhausted? <==> h.calls == tries && !fate.succeeds(tries))
            && (h.Interrupted? <==> h.calls < tries && !fate.succeeds(h.calls) && fate.cancelled(h.calls))
    decreases tries - attempt
  {
    if fate.succeeds(attempt) || attempt == tries || fate.cancelled(attempt) {
    } else {
      HandlingStops(tries, fate, attempt + 1);
    }
  }

  /** ExecuteWithRetry: `calls` handler calls, `waited` nanoseconds of waiting, and the message written off, if any. */
  method ExecuteWithRetry(cfg: Config, m: Message, fate: Fate)
    returns (calls: nat, waited: int, outcome: Disposition, buried: seq<Message>)
    requires fate.parses
    ensures 1 <= calls == Handle(Tries(cfg), fate, 1).calls && outcome == Dispose(cfg, fate)
    ensures calls == 1 || calls <= cfg.maxRetries
    ensures (forall k :: 1 <= k <= cfg.maxRetries || k == 1 ==> !fate.succeeds(k) && !fate.cancelled(k)) ==>
              calls == if cfg.maxRetries >= 1 then cfg.maxRetries else 1
    ensures outcome == Handled <==> fate.succeeds(calls)
    ensures outcome in {Buried, BurialFailed, NoProducer} ==>
              (calls == cfg.maxRetries || (cfg.maxRetries < 1 && calls == 1))
              && forall k :: 1 <= k <= calls ==> !fate.succeeds(k)
    ensures WaitsFit(cfg) ==> waited == Waits(cfg.retryInterval, calls - 1)
    ensures buried == if outcome == Buried then [DeadLettered(cfg.maxRetries, cfg.dlqSuffix, m, fate.failure)] else []
  {
    var tries := if cfg.maxRetries < 1 then 1 else cfg.maxRetries;
    HandlingStops(tries, fate, 1);
    var backoff := cfg.retryInterval;
    var attempt := 1;
    calls, waited, buried := 0, 0, [];
    assert Pow2(0) == 1;
    while attempt <= tries
      invariant 1 <= attempt <= tries + 1 && calls == attempt - 1
      invariant attempt <= tries ==> Handle(tries, fate, 1) == Handle(tries, fate, attempt)
      invariant attempt > tries ==> Handle(tries, fate, 1) == Exhausted(tries)
      invariant WaitsFit(cfg) && attempt < tries ==> backoff == cfg.retryInterval * Pow2(attempt - 1)
      invariant WaitsFit(cfg) && attempt <= tries ==> waited == Waits(cfg.retryInterval, attempt - 1)
      invariant WaitsFit(cfg) && attempt > tries ==> waited == Waits(cfg.retryInterval, tries - 1)
    {
      calls := calls + 1;
      if fate.succeeds(attempt) {
        outcome := Handled;
        return;
      }
      if attempt < tries {
        if fate.cancelled(attempt) {
          outcome := CancelledWait;
          return;
        }
        if WaitsFit(cfg) { WaitStep(cfg, attempt); }
        waited := waited + backoff;
        backoff := Wrap64(backoff * 2);
      }
      attempt := attempt + 1;
    }
    outcome, buried := PublishToDLQ(cfg, m, fate);
  }

  lemma WaitStep(cfg: Config, attempt: nat)
    requires WaitsFit(cfg) && 1 <= attempt < Tries(cfg)
    ensures Waits(cfg.retryInterval, attempt)
         == Waits(cfg.retryInterval, attempt - 1) + cfg.retryInterval * Pow2(attempt - 1)
    ensures cfg.retryInterval * Pow2(attempt - 1) * 2 == cfg.retryInterval * Pow2(attempt)
    ensures attempt + 1 < Tries(cfg) ==> 0 <= cfg.retryInterval * Pow2(attempt) <= MAX_INT64
  {
    var x, p := cfg.retryInterval, Pow2(attempt - 1);
    DoubledPower(x, attempt - 1);
    if attempt + 1 < Tries(cfg) { ScaledMonotone(x, attempt, Tries(cfg) - 2); }
    assert Pow2(attempt) == 2 * p;
    WaitSum(x, p);
  }

  lemma WaitSum(x: int, p: int)
    ensures x * (2 * p - 1) == x * (p - 1) + x * p
  {
  }

  /** PublishToDLQ: without a producer nothing is written; otherwise one message is attempted. */
  method PublishToDLQ(cfg: Config, m: Message, fate: Fate) returns (outcome: Disposition, buried: seq<Message>)
    ensures outcome == Burial(fate)
    ensures buried == if outcome == Buried then [DeadLettered(cfg.maxRetries, cfg.dlqSuffix, m, fate.failure)] else []
  {
    if !fate.producer { return NoProducer, []; }
    var d := BuildDeadLetter(cfg.maxRetries, cfg.dlqSuffix, m, fate.failure);
    if fate.burial { return Buried, [d]; }
    return BurialFailed, [];
  }

  /** One turn of the fetch loop: what the fetch yields, and whether the commit is cancelled. */
  datatype Fetch = Got(m: Message, fate: Fate, commitCancelled: bool) | Transient | FetchCancelled

  datatype Turn = Turn(contextDone: bool, fetch: Fetch)

  /** The messages of the turns up to the one that ends the loop. */
  function Fetched(turns: seq<Turn>): seq<Fetch> {
    if turns == [] || turns[0].contextDone || turns[0].fetch.FetchCancelled? then []
    else if turns[0].fetch.Transient? then Fetched(turns[1..])
    else if turns[0].fetch.commitCancelled then [turns[0].fetch]
    else [turns[0].fetch] + Fetched(turns[1..])
  }

  /** The turn ends the loop. */
  predicate Ends(turn: Turn) {
    turn.contextDone || turn.fetch.FetchCancelled? || (turn.fetch.Got? && turn.fetch.commitCancelled)
  }

  /** All messages among the fetches of some turns, in order. */
  function Gots(turns: seq<Turn>): seq<Fetch> {
    if turns == [] then [] else (if turns[0].fetch.Got? then [turns[0].fetch] else []) + Gots(turns[1..])
  }

  /**
   The messages handled are those fetched before the first turn that ends the loop, and that turn's own if the loop ends
   only with the commit of its offset.
   */
  lemma {:induction false} FetchedExactly(turns: seq<Turn>, n: nat)
    requires n <= |turns| && (n < |turns| ==> Ends(turns[n])) && forall i :: 0 <= i < n ==> !Ends(turns[i])
    ensures Fetched(turns)
         == Gots(turns[..n])
            + if n < |turns| && !turns[n].contextDone && turns[n].fetch.Got? then [turns[n].fetch] else []
    decreases n
  {
    if n == 0 {
      assert turns[..0] == [];
    } else {
      FetchedExactly(turns[1..], n - 1);
      assert turns[..n][1..] == turns[1..][..n - 1];
    }
  }

  lemma {:induction false} FetchedAreMessages(turns: seq<Turn>)
    ensures forall f :: f in Fetched(turns) ==> f.Got?
  {
    if turns == [] {
    } else {
      FetchedAreMessages(turns[1..]);
    }
  }

  /** What the loop does, in order: acknowledged dead letters, dispositions, and offsets submitted for commit. */
  datatype Deed = Wrote(letter: Message) | Disposed(m: Message, how: Disposition) | Submitted(m: Message)

  function DeedsOn(cfg: Config, m: Message, fate: Fate): seq<Deed> {
    var how := Dispose(cfg, fate);
    (if how == Buried then [Wrote(DeadLettered(cfg.maxRetries, cfg.dlqSuffix, m, fate.failure))] else [])
    + [Disposed(m, how), Submitted(m)]
  }

  function Deeds(cfg: Config, fs: seq<Fetch>): seq<Deed>
    requires forall f :: f in fs ==> f.Got?
  {
    if fs == [] then [] else DeedsOn(cfg, fs[0].m, fs[0].fate) + Deeds(cfg, fs[1..])
  }

  lemma DeedsCons(cfg: Config, f: Fetch, fs: seq<Fetch>)
    requires f.Got? && forall g :: g in fs ==> g.Got?
    ensures Deeds(cfg, [f] + fs) == DeedsOn(cfg, f.m, f.fate) + Deeds(cfg, fs)
  {
  }

  /** The deeds still to come at turn i. */
  ghost function ToCome(cfg: Config, turns: seq<Turn>, i: nat): seq<Deed>
    requires i <= |turns|
  {
    FetchedAreMessages(turns[i..]);
    Deeds(cfg, Fetched(turns[i..]))
  }

  lemma ToComeNext(cfg: Config, turns: seq<Turn>, i: nat)
    requires i < |turns|
    ensures var t := turns[i];
            if t.contextDone || t.fetch.FetchCancelled? then ToCome(cfg, turns, i) == []
            else if t.fetch.Transient? then ToCome(cfg, turns, i) == ToCome(cfg, turns, i + 1)
            else ToCome(cfg, turns, i) == DeedsOn(cfg, t.fetch.m, t.fetch.fate)
                                          + if t.fetch.commitCancelled then [] else ToCome(cfg, turns, i + 1)
  {
    FetchedAreMessages(turns[i + 1..]);
    assert turns[i..][0] == turns[i] && turns[i..][1..] == turns[i + 1..];
    var t := turns[i];
    if !t.contextDone && t.fetch.Got? {
      var later := if t.fetch.commitCancelled then [] else Fetched(turns[i + 1..]);
      assert Fetched(turns[i..]) == [t.fetch] + later;
      DeedsCons(cfg, t.fetch, later);
    }
  }

  class Consumer {
    const cfg: Config
    var running: bool
    var done: seq<Deed>

    constructor (cfg: Config)
      ensures this.cfg == cfg && !running && done == []
    {
      this.cfg, running, done := cfg, false, [];
    }

    /** processMessage, followed by the offset commit. */
    method ProcessMessage(m: Message, fate: Fate)
      modifies this`done
      ensures done == old(done) + DeedsOn(cfg, m, fate)
    {
      var outcome, buried;
      if !fate.parses {
        outcome, buried := PublishToDLQ(cfg, m, fate);
      } else {
        var calls, waited;
        calls, waited, outcome, buried := ExecuteWithRetry(cfg, m, fate);
      }
      if buried != [] { done := done + [Wrote(buried[0])]; }
      done := done + [Disposed(m, outcome)];
      done := done + [Submitted(m)];
    }

    /** Start: one pass over the fetched messages. A second Start while one runs changes nothing. */
    method Start(turns: seq<Turn>) returns (alreadyRunning: bool)
      modifies this
      ensures alreadyRunning == old(running)
      ensures alreadyRunning ==> unchanged(this)
      ensures forall f :: f in Fetched(turns) ==> f.Got?
      ensures !alreadyRunning ==> !running && done == old(done) + Deeds(cfg, Fetched(turns))
    {
      FetchedAreMessages(turns);
      if running { return true; }
      alreadyRunning, running := false, true;
      var i := 0;
      assert turns[0..] == turns;
      ghost var end := done + ToCome(cfg, turns, 0);
      while i < |turns|
        invariant 0 <= i <= |turns| && running
        invariant done + ToCome(cfg, turns, i) == end
      {
        var turn := turns[i];
        ToComeNext(cfg, turns, i);
        if turn.contextDone || turn.fetch.FetchCancelled? {
          running := false;
          return;
        }
        if turn.fetch.Got? {
          ProcessMessage(turn.fetch.m, turn.fetch.fate);
          if turn.fetch.commitCancelled {
            running := false;
            return;
          }
        }
        i := i + 1;
      }
      running := false;
    }
  }

  /* ---------- Conservation ---------- */

  function Disposals(log: seq<Deed>): seq<Deed> {
    if log == [] then [] else (if log[0].Disposed? then [log[0]] else []) + Disposals(log[1..])
  }

  function Submissions(log: seq<Deed>): seq<Message> {
    if log == [] then [] else (if log[0].Submitted? then [log[0].m] else []) + Submissions(log[1..])
  }

  function Letters(log: seq<Deed>): nat {
    if log == [] then 0 else (if log[0].Wrote? then 1 else 0) + Letters(log[1..])
  }

  function BuriedCount(log: seq<Deed>): nat {
    if log == [] then 0 else (if log[0].Disposed? && log[0].how == Buried then 1 else 0) + BuriedCount(log[1..])
  }

  lemma DeedCons(d: Deed, log: seq<Deed>)
    ensures Disposals([d] + log) == (if d.Disposed? then [d] else []) + Disposals(log)
    ensures Submissions([d] + log) == (if d.Submitted? then [d.m] else []) + Submissions(log)
    ensures Letters([d] + log) == (if d.Wrote? then 1 else 0) + Letters(log)
    ensures BuriedCount([d] + log) == (if d.Disposed? && d.how == Buried then 1 else 0) + BuriedCount(log)
  {
  }

  /** One message adds one disposition, one submission, and a letter exactly when it was buried. */
  lemma OneMessage(cfg: Config, m: Message, fate: Fate, log: seq<Deed>)
    ensures var how, all := Dispose(cfg, fate), DeedsOn(cfg, m, fate) + log;
            && Disposals(all) == [Disposed(m, how)] + Disposals(log) && Submissions(all) == [m] + Submissions(log)
            && Letters(all) == (if how == Buried then 1 else 0) + Letters(log)
            && BuriedCount(all) == (if how == Buried then 1 else 0) + BuriedCount(log)
  {
    var how := Dispose(cfg, fate);
    var tail := [Disposed(m, how)] + ([Submitted(m)] + log);
    DeedCons(Submitted(m), log);
    DeedCons(Disposed(m, how), [Submitted(m)] + log);
    if how == Buried {
      var letter := Wrote(DeadLettered(cfg.maxRetries, cfg.dlqSuffix, m, fate.failure));
      DeedCons(letter, tail);
      assert DeedsOn(cfg, m, fate) + log == [letter] + tail;
    } else {
      assert DeedsOn(cfg, m, fate) + log == tail;
    }
  }

  /** The handler failed and its wait ran its course, every time before call k. */
  ghost predicate FailsUntil(fate: Fate, k: nat) {
    forall j :: 1 <= j < k ==> !fate.succeeds(j) && !fate.cancelled(j)
  }

  ghost predicate FirstSuccess(tries: nat, fate: Fate, k: nat) {
    1 <= k <= tries && FailsUntil(fate, k) && fate.succeeds(k)
  }

  ghost predicate FirstCancelled(tries: nat, fate: Fate, k: nat) {
    1 <= k < tries && FailsUntil(fate, k) && !fate.succeeds(k) && fate.cancelled(k)
  }

  /** No call succeeds, and no wait between them is cancelled. */
  ghost predicate RunsOut(tries: nat, fate: Fate) {
    1 <= tries && FailsUntil(fate, tries) && !fate.succeeds(tries)
  }

  /** What a message meets when it ends in the given way. */
  ghost predicate Justified(cfg: Config, fate: Fate, how: Disposition) {
    match how
    case Handled => fate.parses && exists k :: FirstSuccess(Tries(cfg), fate, k)
    case CancelledWait => fate.parses && exists k :: FirstCancelled(Tries(cfg), fate, k)
    case Buried => (fate.parses ==> RunsOut(Tries(cfg), fate)) && fate.producer && fate.burial
    case BurialFailed => (fate.parses ==> RunsOut(Tries(cfg), fate)) && fate.producer && !fate.burial
    case NoProducer => (fate.parses ==> RunsOut(Tries(cfg), fate)) && !fate.producer
  }

  /** Exactly one of the three ways a parseable message's calls can go is what the loop finds. */
  lemma HandlingExactly(tries: nat, fate: Fate)
    requires 1 <= tries
    ensures Handle(tries, fate, 1).Succeeded? <==> exists k :: FirstSuccess(tries, fate, k)
    ensures Handle(tries, fate, 1).Interrupted? <==> exists k :: FirstCancelled(tries, fate, k)
    ensures Handle(tries, fate, 1).Exhausted? <==> RunsOut(tries, fate)
  {
    HandlingStops(tries, fate, 1);
    var h := Handle(tries, fate, 1);
    assert FailsUntil(fate, h.calls);
    assert h.Succeeded? ==> FirstSuccess(tries, fate, h.calls);
    assert h.Interrupted? ==> FirstCancelled(tries, fate, h.calls);
  }

  /** A message ends in a given way if and only if it meets what justifies that. */
  lemma DispositionExactly(cfg: Config, fate: Fate, how: Disposition)
    ensures Dispose(cfg, fate) == how <==> Justified(cfg, fate, how)
  {
    HandlingExactly(Tries(cfg), fate);
  }

  /** The exact condition for a message to be handled or dead-lettered by the time its offset is submitted. */
  lemma SafeExactly(cfg: Config, fate: Fate)
    ensures Dispose(cfg, fate) in {Handled, Buried} <==>
              || (fate.parses && exists k :: FirstSuccess(Tries(cfg), fate, k))
              || ((fate.parses ==> RunsOut(Tries(cfg), fate)) && fate.producer && fate.burial)
  {
    DispositionExactly(cfg, fate, Handled);
    DispositionExactly(cfg, fate, Buried);
  }

  /** A handler that always fails, waits cancelled or not, and a dead-letter topic that can be written or not. */
  function Failing(cancelled: bool, producer: bool, burial: bool): Fate {
    Fate(true, (_: nat) => false, (_: nat) => cancelled, producer, burial, Failure("", ""))
  }

  /**
   Lost messages: for every configuration and message there are runs that submit the offset of a message that was
   neither handled nor dead-lettered: without a producer, with a refused dead letter and, given a second try, after a
   cancelled wait.
   */
  lemma MessagesGetLost(cfg: Config, m: Message)
    ensures Deeds(cfg, [Got(m, Failing(false, false, false), false)]) == [Disposed(m, NoProducer), Submitted(m)]
    ensures Deeds(cfg, [Got(m, Failing(false, true, false), false)]) == [Disposed(m, BurialFailed), Submitted(m)]
    ensures Tries(cfg) >= 2 ==>
              Deeds(cfg, [Got(m, Failing(true, true, true), false)]) == [Disposed(m, CancelledWait), Submitted(m)]
  {
    DispositionExactly(cfg, Failing(false, false, false), NoProducer);
    DispositionExactly(cfg, Failing(false, true, false), BurialFailed);
    OneDeed(cfg, m, Failing(false, false, false));
    OneDeed(cfg, m, Failing(false, true, false));
    OneDeed(cfg, m, Failing(true, true, true));
  }

  lemma OneDeed(cfg: Config, m: Message, fate: Fate)
    ensures Deeds(cfg, [Got(m, fate, false)]) == DeedsOn(cfg, m, fate)
  {
    assert [Got(m, fate, false)] == [Got(m, fate, false)] + [];
    DeedsCons(cfg, Got(m, fate, false), []);
  }

  /** Each submission directly follows the disposition of the same message. */
  ghost predicate DisposedFirst(log: seq<Deed>) {
    forall p :: 0 <= p < |log| && log[p].Submitted? ==> p > 0 && log[p - 1].Disposed? && log[p - 1].m == log[p].m
  }

  lemma PrependDisposedFirst(cfg: Config, m: Message, fate: Fate, log: seq<Deed>)
    requires DisposedFirst(log)
    ensures DisposedFirst(DeedsOn(cfg, m, fate) + log)
  {
  }

  /** One justified disposition and one submission per message, in order. */
  ghost predicate Settled(cfg: Config, fs: seq<Fetch>, ds: seq<Deed>, ms: seq<Message>)
    requires forall f :: f in fs ==> f.Got?
  {
    && |ds| == |ms| == |fs|
    && forall i :: 0 <= i < |fs| ==>
         ms[i] == fs[i].m && ds[i].Disposed? && ds[i].m == fs[i].m && Justified(cfg, fs[i].fate, ds[i].how)
  }

  lemma SettledCons(cfg: Config, f: Fetch, fs: seq<Fetch>, d: Deed, ds: seq<Deed>, ms: seq<Message>)
    requires f.Got? && (forall g :: g in fs ==> g.Got?) && Settled(cfg, fs, ds, ms)
    requires d.Disposed? && d.m == f.m && Justified(cfg, f.fate, d.how)
    ensures Settled(cfg, [f] + fs, [d] + ds, [f.m] + ms)
  {
  }

  /**
   Conservation over a run: each fetched message gets exactly one justified disposition and exactly one offset
   submission, both in fetch order and the disposition first; and there is one acknowledged dead letter per burial.
   */
  lemma {:induction false} Conservation(cfg: Config, fs: seq<Fetch>)
    requires forall f :: f in fs ==> f.Got?
    ensures var log := Deeds(cfg, fs);
            && Settled(cfg, fs, Disposals(log), Submissions(log))
            && Letters(log) == BuriedCount(log) && DisposedFirst(log)
  {
    if fs == [] {
    } else {
      var f, rest := fs[0], Deeds(cfg, fs[1..]);
      Conservation(cfg, fs[1..]);
      OneMessage(cfg, f.m, f.fate, rest);
      DispositionExactly(cfg, f.fate, Dispose(cfg, f.fate));
      SettledCons(cfg, f, fs[1..], Disposed(f.m, Dispose(cfg, f.fate)), Disposals(rest), Submissions(rest));
      assert fs == [f] + fs[1..];
      PrependDisposedFirst(cfg, f.m, f.fate, rest);
    }
  }
}
