/** The fixed-window rate limiter. Times are in nanoseconds, in the order the mutex serialises requests. */
module RateLimiter {
  import opened Options
  import opened Durations

  datatype Record = Record(count: nat, resetTime: int)

  /** A request as the middleware sees it; `later` is the clock when a refusal computes its Retry-After. */
  datatype Request = Request(path: string, key: string, now: int, later: int)

  datatype Decision = Exempt | Admitted | Rejected(retryAfter: int)

  datatype Limits = Limits(maxRequests: int, window: int)

  predicate Usable(limits: Limits) {
    limits.maxRequests >= 1 && limits.window >= 1
  }

  /** NewRateLimiter's defaults: a hundred requests a minute. */
  function Normalised(limits: Limits): (r: Limits)
    ensures Usable(r) && (Usable(limits) ==> r == limits)
    ensures r.maxRequests == limits.maxRequests || (limits.maxRequests <= 0 && r.maxRequests == 100)
    ensures r.window == limits.window || (limits.window <= 0 && r.window == 60_000_000_000)
  {
    Limits(if limits.maxRequests <= 0 then 100 else limits.maxRequests,
           if limits.window <= 0 then 60 * NANOS_PER_SECOND else limits.window)
  }

  predicate IsExempt(path: string) {
    path == "/health" || path == "/ready" || path == "/metrics"
  }

  /** Go's conversion of a duration to whole seconds truncates toward zero. */
  function TruncatedSeconds(d: int): int {
    if d >= 0 then d / NANOS_PER_SECOND else -((-d) / NANOS_PER_SECOND)
  }

  /** What a request does to its key's record. */
  function Turn(limits: Limits, rec: Option<Record>, r: Request): (Decision, Option<Record>) {
    if IsExempt(r.path) then (Exempt, rec)
    else if rec.None? || r.now > rec.value.resetTime then (Admitted, Some(Record(1, r.now + limits.window)))
    else if rec.value.count >= limits.maxRequests then
      (Rejected(TruncatedSeconds(rec.value.resetTime - r.later) + 1), rec)
    else (Admitted, Some(Record(rec.value.count + 1, rec.value.resetTime)))
  }

  function Lookup(records: map<string, Record>, key: string): Option<Record> {
    if key in records then Some(records[key]) else None
  }

  function Updated(records: map<string, Record>, key: string, rec: Option<Record>): map<string, Record> {
    if rec.Some? then records[key := rec.value] else records
  }

  class Limiter {
    const limits: Limits
    var records: map<string, Record>

    constructor (raw: Limits)
      ensures limits == Normalised(raw) && records == map[]
    {
      limits := Normalised(raw);
      records := map[];
    }

    /** The middleware's critical section. */
    method Handle(r: Request) returns (d: Decision)
      modifies this
      ensures var turn := Turn(limits, Lookup(old(records), r.key), r);
              d == turn.0 && records == Updated(old(records), r.key, turn.1)
    {
      if r.path == "/health" || r.path == "/ready" || r.path == "/metrics" {
        assert Updated(records, r.key, Lookup(records, r.key)) == records;
        return Exempt;
      }
      if r.key !in records || r.now > records[r.key].resetTime {
        records := records[r.key := Record(1, r.now + limits.window)];
        return Admitted;
      }
      var rec := records[r.key];
      if rec.count >= limits.maxRequests {
        assert records[r.key := rec] == records;
        return Rejected(TruncatedSeconds(rec.resetTime - r.later) + 1);
      }
      records := records[r.key := rec.(count := rec.count + 1)];
      return Admitted;
    }

    /** A whole trace of requests gets the decisions the specification gives it. */
    method HandleAll(trace: seq<Request>) returns (ds: seq<Decision>)
      modifies this
      ensures ds == Decisions(limits, old(records), trace)
    {
      ds := [];
      var i := 0;
      assert trace[..0] == [];
      while i < |trace|
        invariant 0 <= i <= |trace| && ds == Decisions(limits, old(records), trace[..i])
        invariant records == After(limits, old(records), trace[..i])
      {
        assert trace[..i + 1][..i] == trace[..i] && trace[..i + 1][i] == trace[i];
        var d := Handle(trace[i]);
        ds := ds + [d];
        i := i + 1;
      }
      assert trace[..i] == trace;
    }
  }

  /** The records after a trace. */
  function After(limits: Limits, start: map<string, Record>, trace: seq<Request>): map<string, Record> {
    if trace == [] then start
    else
      var before, r := After(limits, start, trace[..|trace| - 1]), trace[|trace| - 1];
      Updated(before, r.key, Turn(limits, Lookup(before, r.key), r).1)
  }

  function Decisions(limits: Limits, start: map<string, Record>, trace: seq<Request>): seq<Decision> {
    if trace == [] then []
    else
      var before, r := After(limits, start, trace[..|trace| - 1]), trace[|trace| - 1];
      Decisions(limits, start, trace[..|trace| - 1]) + [Turn(limits, Lookup(before, r.key), r).0]
  }

  lemma {:induction false} DecisionsLength(limits: Limits, start: map<string, Record>, trace: seq<Request>)
    ensures |Decisions(limits, start, trace)| == |trace|
  {
    if trace == [] {
    } else {
      DecisionsLength(limits, start, trace[..|trace| - 1]);
    }
  }

  ghost predicate Monotone(trace: seq<Request>) {
    forall i, j :: 0 <= i < j < |trace| ==> trace[i].now <= trace[j].now
  }

  /** Admissions of `key` from time `lo` to time `hi`, both included. */
  ghost function Admissions(limits: Limits, trace: seq<Request>, key: string, lo: int, hi: int): nat {
    if trace == [] then 0
    else
      var before, r := After(limits, map[], trace[..|trace| - 1]), trace[|trace| - 1];
      Admissions(limits, trace[..|trace| - 1], key, lo, hi)
      + if r.key == key && lo <= r.now <= hi && Turn(limits, Lookup(before, key), r).0 == Admitted then 1 else 0
  }

  /** Of those, the ones made in the window whose record is current at the end. */
  ghost function Current(limits: Limits, trace: seq<Request>, key: string, lo: int, hi: int): nat {
    if trace == [] then 0
    else
      var before, r := After(limits, map[], trace[..|trace| - 1]), trace[|trace| - 1];
      var rec := Lookup(before, key);
      var earlier := Current(limits, trace[..|trace| - 1], key, lo, hi);
      if r.key != key || IsExempt(r.path) then earlier
      else
        CurrentAfter(limits, rec, r, earlier, if lo <= r.now <= hi then 1 else 0)
  }

  /**
   What holds of one key after any prefix whose last request was at `last`: the current window has admitted exactly
   its count; older admissions lie before it began; and a window that begins within the interval leaves behind it at
   most one window of the interval, whose first admission lies outside.
   */
  ghost predicate LedgerOk(limits: Limits, rec: Option<Record>, total: nat, cur: nat, lo: int, last: Option<int>) {
    && total <= 2 * limits.maxRequests - 1 && cur <= total
    && (rec.None? ==> total == 0)
    && (last.None? ==> rec.None?)
    && (last.Some? && last.value < lo ==> total == 0)
    && (rec.Some? ==>
          var begun := rec.value.resetTime - limits.window;
          && 1 <= rec.value.count <= limits.maxRequests && cur <= rec.value.count
          && begun <= last.value
          && (begun == lo ==> cur == rec.value.count)
          && (begun < lo ==> total == cur < rec.value.count)
          && (begun <= lo + limits.window ==> total - cur < limits.maxRequests))
  }

  /** Admissions in the current window after a request, given those before it. */
  function CurrentAfter(limits: Limits, rec: Option<Record>, r: Request, cur: nat, here: nat): nat {
    if rec.None? || r.now > rec.value.resetTime then here
    else if rec.value.count >= limits.maxRequests then cur
    else cur + here
  }

  lemma LedgerAdmits(limits: Limits, rec: Option<Record>, total: nat, cur: nat, lo: int, last: Option<int>, r: Request)
    requires Usable(limits) && LedgerOk(limits, rec, total, cur, lo, last) && (last.Some? ==> last.value <= r.now)
    requires !IsExempt(r.path)
    ensures var here := if lo <= r.now <= lo + limits.window then 1 else 0;
            var turn := Turn(limits, rec, r);
            LedgerOk(limits, turn.1, total + if turn.0 == Admitted then here else 0,
                     CurrentAfter(limits, rec, r, cur, here), lo, Some(r.now))
  {
  }

  lemma LedgerSkips(limits: Limits, rec: Option<Record>, total: nat, cur: nat, lo: int, last: Option<int>, now: int)
    requires LedgerOk(limits, rec, total, cur, lo, last) && (last.Some? ==> last.value <= now)
    ensures LedgerOk(limits, rec, total, cur, lo, Some(now))
  {
  }

  /** A request of another key, or of an exempt path, leaves a key's record and counts alone. */
  lemma OtherRequest(limits: Limits, trace: seq<Request>, key: string, lo: int, hi: int)
    requires trace != []
    requires trace[|trace| - 1].key != key || IsExempt(trace[|trace| - 1].path)
    ensures var init := trace[..|trace| - 1];
            && Lookup(After(limits, map[], trace), key) == Lookup(After(limits, map[], init), key)
            && Admissions(limits, trace, key, lo, hi) == Admissions(limits, init, key, lo, hi)
            && Current(limits, trace, key, lo, hi) == Current(limits, init, key, lo, hi)
  {
  }

  /** A request of the key takes its turn. */
  lemma OwnRequest(limits: Limits, trace: seq<Request>, key: string, lo: int, hi: int)
    requires trace != [] && trace[|trace| - 1].key == key && !IsExempt(trace[|trace| - 1].path)
    ensures var init, r := trace[..|trace| - 1], trace[|trace| - 1];
            var rec, here := Lookup(After(limits, map[], init), key), if lo <= r.now <= hi then 1 else 0;
            var turn := Turn(limits, rec, r);
            && Lookup(After(limits, map[], trace), key) == turn.1
            && Admissions(limits, trace, key, lo, hi)
               == Admissions(limits, init, key, lo, hi) + (if turn.0 == Admitted then here else 0)
            && Current(limits, trace, key, lo, hi)
               == CurrentAfter(limits, rec, r, Current(limits, init, key, lo, hi), here)
  {
  }

  ghost predicate LedgerAt(limits: Limits, trace: seq<Request>, key: string, lo: int) {
    LedgerOk(limits, Lookup(After(limits, map[], trace), key),
             Admissions(limits, trace, key, lo, lo + limits.window),
             Current(limits, trace, key, lo, lo + limits.window), lo, LastTime(trace))
  }

  lemma LedgerStep(limits: Limits, trace: seq<Request>, key: string, lo: int)
    requires Usable(limits) && Monotone(trace) && trace != [] && LedgerAt(limits, trace[..|trace| - 1], key, lo)
    ensures LedgerAt(limits, trace, key, lo)
  {
    var init, r, hi := trace[..|trace| - 1], trace[|trace| - 1], lo + limits.window;
    MonotonePrefix(trace);
    var rec := Lookup(After(limits, map[], init), key);
    var total, cur := Admissions(limits, init, key, lo, hi), Current(limits, init, key, lo, hi);
    if r.key == key && !IsExempt(r.path) {
      OwnRequest(limits, trace, key, lo, hi);
      LedgerAdmits(limits, rec, total, cur, lo, LastTime(init), r);
    } else {
      OtherRequest(limits, trace, key, lo, hi);
      LedgerSkips(limits, rec, total, cur, lo, LastTime(init), r.now);
    }
  }

  /** The ledger holds of every key and interval after every trace. */
  lemma {:induction false} WindowLedger(limits: Limits, trace: seq<Request>, key: string, lo: int)
    requires Usable(limits) && Monotone(trace)
    ensures LedgerAt(limits, trace, key, lo)
  {
    if trace == [] {
    } else {
      MonotonePrefix(trace);
      WindowLedger(limits, trace[..|trace| - 1], key, lo);
      LedgerStep(limits, trace, key, lo);
    }
  }

  function LastTime(trace: seq<Request>): Option<int> {
    if trace == [] then None else Some(trace[|trace| - 1].now)
  }

  lemma MonotonePrefix(trace: seq<Request>)
    requires trace != [] && Monotone(trace)
    ensures var init, r := trace[..|trace| - 1], trace[|trace| - 1];
            Monotone(init) && (LastTime(init).Some? ==> LastTime(init).value <= r.now)
  {
  }

  /** Over any requests in time order, every closed interval of one window's length admits less than twice the limit. */
  lemma LessThanTwiceTheLimit(limits: Limits, trace: seq<Request>, key: string, lo: int)
    requires Usable(limits) && Monotone(trace)
    ensures Admissions(limits, trace, key, lo, lo + limits.window) <= 2 * limits.maxRequests - 1
  {
    WindowLedger(limits, trace, key, lo);
  }

  /** The window current after any prefix has admitted exactly its count, and never more than the limit. */
  lemma WindowsKeepTheLimit(limits: Limits, trace: seq<Request>, key: string, rec: Record, begun: int)
    requires Usable(limits) && Monotone(trace) && Lookup(After(limits, map[], trace), key) == Some(rec)
    requires rec.resetTime == begun + limits.window
    ensures Current(limits, trace, key, begun, begun + limits.window) == rec.count <= limits.maxRequests
  {
    WindowLedger(limits, trace, key, begun);
  }

  /** n requests of a key at one time. */
  function Burst(key: string, now: int, n: nat): seq<Request> {
    if n == 0 then [] else Burst(key, now, n - 1) + [Plain(key, now)]
  }

  /** Where a trace leaves a key: its record, and its admissions in an interval. */
  ghost predicate Stands(limits: Limits, trace: seq<Request>, key: string, rec: Record, n: nat, lo: int, hi: int) {
    Lookup(After(limits, map[], trace), key) == Some(rec) && Admissions(limits, trace, key, lo, hi) == n
  }

  /** A request that finds room in the current window is admitted. */
  lemma RoomAdmits(limits: Limits, trace: seq<Request>, r: Request, rec: Record, n: nat, lo: int, hi: int)
    requires !IsExempt(r.path) && Stands(limits, trace, r.key, rec, n, lo, hi)
    requires r.now <= rec.resetTime && rec.count < limits.maxRequests && lo <= r.now <= hi
    ensures Stands(limits, trace + [r], r.key, Record(rec.count + 1, rec.resetTime), n + 1, lo, hi)
  {
    assert (trace + [r])[..|trace|] == trace && (trace + [r])[|trace|] == r;
    OwnRequest(limits, trace + [r], r.key, lo, hi);
  }

  /** A request that finds its window over, or none, starts one and is admitted. */
  lemma LateAdmits(limits: Limits, trace: seq<Request>, r: Request, n: nat, lo: int, hi: int)
    requires !IsExempt(r.path) && Admissions(limits, trace, r.key, lo, hi) == n
    requires var rec := Lookup(After(limits, map[], trace), r.key); rec.None? || r.now > rec.value.resetTime
    ensures Stands(limits, trace + [r], r.key, Record(1, r.now + limits.window),
                   n + if lo <= r.now <= hi then 1 else 0, lo, hi)
  {
    assert (trace + [r])[..|trace|] == trace && (trace + [r])[|trace|] == r;
    OwnRequest(limits, trace + [r], r.key, lo, hi);
  }

  function Plain(key: string, now: int): (r: Request)
    ensures !IsExempt(r.path) && r.key == key && r.now == now
  {
    Request("", key, now, now)
  }

  lemma BurstGrows(trace: seq<Request>, key: string, now: int, k: nat)
    requires k > 0
    ensures trace + Burst(key, now, k) == trace + Burst(key, now, k - 1) + [Plain(key, now)]
  {
  }

  lemma BurstAdmitsOne(limits: Limits, trace: seq<Request>, key: string, now: int, k: nat, rec: Record, n: nat,
                       lo: int, hi: int)
    requires k > 0 && Stands(limits, trace + Burst(key, now, k - 1), key, rec, n, lo, hi)
    requires lo <= now <= hi && now <= rec.resetTime && rec.count < limits.maxRequests
    ensures Stands(limits, trace + Burst(key, now, k), key, Record(rec.count + 1, rec.resetTime), n + 1, lo, hi)
  {
    BurstGrows(trace, key, now, k);
    RoomAdmits(limits, trace + Burst(key, now, k - 1), Plain(key, now), rec, n, lo, hi);
  }

  /** A burst that finds room in the current window is admitted as a whole. */
  lemma {:induction false} BurstAdmitted(limits: Limits, trace: seq<Request>, key: string, now: int, k: nat,
                                         rec: Record, n: nat, lo: int, hi: int)
    requires Stands(limits, trace, key, rec, n, lo, hi)
    requires lo <= now <= hi && now <= rec.resetTime && rec.count + k <= limits.maxRequests
    ensures Stands(limits, trace + Burst(key, now, k), key, Record(rec.count + k, rec.resetTime), n + k, lo, hi)
  {
    if k == 0 {
      assert trace + Burst(key, now, 0) == trace;
    } else {
      BurstAdmitted(limits, trace, key, now, k - 1, rec, n, lo, hi);
      BurstAdmitsOne(limits, trace, key, now, k, Record(rec.count + k - 1, rec.resetTime), n + k - 1, lo, hi);
    }
  }

  /** One request at time 0, the rest of its window's allowance at its very end, and a whole allowance right after. */
  function Worst(limits: Limits, key: string): seq<Request>
    requires Usable(limits)
  {
    FirstWindow(limits, key) + [Plain(key, limits.window + 1)] + Burst(key, limits.window + 1, limits.maxRequests - 1)
  }

  function FirstWindow(limits: Limits, key: string): seq<Request>
    requires Usable(limits)
  {
    [Plain(key, 0)] + Burst(key, limits.window, limits.maxRequests - 1)
  }

  lemma {:induction false} BurstTimes(key: string, now: int, n: nat)
    ensures |Burst(key, now, n)| == n && forall i :: 0 <= i < n ==> Burst(key, now, n)[i].now == now
  {
    if n == 0 {
    } else {
      BurstTimes(key, now, n - 1);
    }
  }

  lemma WorstIsMonotone(limits: Limits, key: string)
    requires Usable(limits)
    ensures Monotone(Worst(limits, key))
  {
    BurstTimes(key, limits.window, limits.maxRequests - 1);
    BurstTimes(key, limits.window + 1, limits.maxRequests - 1);
  }

  lemma FirstWindowFilled(limits: Limits, key: string)
    requires Usable(limits)
    ensures Stands(limits, FirstWindow(limits, key), key, Record(limits.maxRequests, limits.window),
                   limits.maxRequests - 1, limits.window, 2 * limits.window)
  {
    var w := limits.window;
    LateAdmits(limits, [], Plain(key, 0), 0, w, 2 * w);
    assert [] + [Plain(key, 0)] == [Plain(key, 0)];
    BurstAdmitted(limits, [Plain(key, 0)], key, w, limits.maxRequests - 1, Record(1, w), 0, w, 2 * w);
  }

  /** The bound is tight for all limits: there is always an interval of one window's length that reaches it. */
  lemma BoundIsReached(limits: Limits, key: string)
    requires Usable(limits)
    ensures Monotone(Worst(limits, key))
    ensures Admissions(limits, Worst(limits, key), key, limits.window, 2 * limits.window) == 2 * limits.maxRequests - 1
  {
    var w, m := limits.window, limits.maxRequests;
    WorstIsMonotone(limits, key);
    FirstWindowFilled(limits, key);
    LateAdmits(limits, FirstWindow(limits, key), Plain(key, w + 1), m - 1, w, 2 * w);
    var trace := FirstWindow(limits, key) + [Plain(key, w + 1)];
    BurstAdmitted(limits, trace, key, w + 1, m - 1, Record(1, 2 * w + 1), m, w, 2 * w);
  }

  /* ---------- Non-interference ---------- */

  /** The requests of one key. */
  function Of(trace: seq<Request>, key: string): seq<Request> {
    if trace == [] then []
    else
      var r := trace[|trace| - 1];
      Of(trace[..|trace| - 1], key) + if r.key == key then [r] else []
  }

  /** The decisions on them. */
  function DecisionsOn(trace: seq<Request>, ds: seq<Decision>, key: string): seq<Decision>
    requires |ds| == |trace|
  {
    if trace == [] then []
    else
      var n := |trace| - 1;
      DecisionsOn(trace[..n], ds[..n], key) + if trace[n].key == key then [ds[n]] else []
  }

  /** A key's record and decisions are those of a limiter that sees its requests alone. */
  lemma {:induction false} KeysDoNotInterfere(limits: Limits, start: map<string, Record>, trace: seq<Request>,
                                              key: string)
    ensures |Decisions(limits, start, trace)| == |trace|
    ensures DecisionsOn(trace, Decisions(limits, start, trace), key) == Decisions(limits, start, Of(trace, key))
    ensures Lookup(After(limits, start, trace), key) == Lookup(After(limits, start, Of(trace, key)), key)
  {
    DecisionsLength(limits, start, trace);
    if trace == [] {
    } else {
      var n := |trace| - 1;
      var init, r := trace[..n], trace[n];
      KeysDoNotInterfere(limits, start, init, key);
      var ds := Decisions(limits, start, trace);
      DecisionsLength(limits, start, init);
      assert ds[..n] == Decisions(limits, start, init);
      if r.key == key {
        var alone := Of(trace, key);
        assert alone[..|alone| - 1] == Of(init, key);
      } else {
        assert Of(trace, key) == Of(init, key);
      }
    }
  }

  /** Exempt paths are let through and leave no trace. */
  lemma ExemptChangesNothing(limits: Limits, records: map<string, Record>, r: Request)
    ensures var turn := Turn(limits, Lookup(records, r.key), r);
            && (turn.0 == Exempt <==> r.path in {"/health", "/ready", "/metrics"})
            && (turn.0 == Exempt ==> Updated(records, r.key, turn.1) == records)
  {
  }

  /* ---------- Retry-After ---------- */

  /**
   A refused client that waits the seconds it was told finds the refusing window over and is admitted. The header is
   a valid non-negative number of seconds exactly when it is computed within two seconds of the window's end.
   */
  lemma RetryAfterSuffices(limits: Limits, rec: Record, r: Request, again: Request)
    requires Turn(limits, Some(rec), r).0.Rejected?
    requires again.now >= r.later + Turn(limits, Some(rec), r).0.retryAfter * NANOS_PER_SECOND && !IsExempt(again.path)
    ensures again.now > rec.resetTime && Turn(limits, Some(rec), again).0 == Admitted
    ensures Turn(limits, Some(rec), r).0.retryAfter >= 0 <==> r.later < rec.resetTime + 2 * NANOS_PER_SECOND
  {
  }

  /** While the window is open the header is at least a second and at most one second longer than needed. */
  lemma RetryAfterTight(limits: Limits, rec: Record, r: Request)
    requires Turn(limits, Some(rec), r).0.Rejected? && r.later <= rec.resetTime
    ensures var wait := Turn(limits, Some(rec), r).0.retryAfter;
            wait >= 1 && (wait - 1) * NANOS_PER_SECOND <= rec.resetTime - r.later < wait * NANOS_PER_SECOND
  {
  }
}
