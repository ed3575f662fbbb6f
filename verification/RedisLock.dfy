/** The Redis lock and the expiring counter, as their scripts behave under any interleaving of clients. */
module RedisLock {
  import opened Options
  import opened Durations
  import opened KafkaHeaders

  /** A key's value and the millisecond it expires at, if it does. */
  datatype Entry = Entry(value: string, expires: Option<int>)

  datatype State = State(store: map<string, Entry>, now: int)

  datatype Label =
    | Tick(elapsed: nat)
    | SetNX(key: string, token: string, ttl: nat)
    | Release(key: string, token: string)
    | Incr(key: string, millis: int)

  /** A key past its expiry is as good as gone. */
  predicate Live(s: State, key: string) {
    key in s.store && (s.store[key].expires.Some? ==> s.now < s.store[key].expires.value)
  }

  /** A time to live of zero sets no expiry. */
  function Lease(s: State, ttl: nat): Option<int> {
    if ttl == 0 then None else Some(s.now + ttl)
  }

  function LeaseMillis(ttlNanos: int): (ttl: nat)
    ensures ttl == 0 <==> ttlNanos <= 0
  {
    if ttlNanos <= 0 then 0 else if ttlNanos < 1_000_000 then 1 else ttlNanos / 1_000_000
  }

  /** Whether a SetNX takes the lock, or a Release gives it up. */
  predicate Succeeds(s: State, l: Label) {
    match l
    case SetNX(key, _, _) => !Live(s, key)
    case Release(key, token) => Live(s, key) && s.store[key].value == token
    case _ => true
  }

  /** INCR reads only the canonical form of a 64-bit integer: no plus sign, no leading zeros. */
  function Canonical(value: string): Option<int> {
    match Atoi(value)
    case Some(n) => if Itoa(n) == value then Some(n) else None
    case None => None
  }

  /** INCR treats a missing key as 0 and fails on a value that is not a number with room to grow. */
  function Counted(s: State, key: string): Option<int> {
    if !Live(s, key) then Some(1)
    else
      match Canonical(s.store[key].value)
      case Some(n) => if n < MAX_INT64 then Some(n + 1) else None
      case None => None
  }

  function AfterIncr(s: State, key: string, ttl: int): State {
    match Counted(s, key)
    case None => s
    case Some(n) =>
      var expires := if Live(s, key) then s.store[key].expires else None;
      if n != 1 then s.(store := s.store[key := Entry(Itoa(n), expires)])
      else if ttl <= 0 then s.(store := s.store - {key})
      else s.(store := s.store[key := Entry(Itoa(n), Some(s.now + ttl))])
  }

  function Step(s: State, l: Label): State {
    match l
    case Tick(elapsed) => s.(now := s.now + elapsed)
    case SetNX(key, token, ttl) => if Live(s, key) then s else s.(store := s.store[key := Entry(token, Lease(s, ttl))])
    case Release(key, token) => if Succeeds(s, l) then s.(store := s.store - {key}) else s
    case Incr(key, ttl) => AfterIncr(s, key, ttl)
  }

  /** The server with the client's operations on it; each script runs as one step. */
  class Server {
    var s: State

    constructor ()
      ensures s == State(map[], 0)
    {
      s := State(map[], 0);
    }

    method Get(key: string) returns (value: Option<string>)
      ensures value == if Live(s, key) then Some(s.store[key].value) else None
    {
      value := if Live(s, key) then Some(s.store[key].value) else None;
    }

    /**
     SetNX with a duration in nanoseconds: 0 and the client's "keep" value -1 set no expiry, a positive one is cut to
     whole milliseconds but at least one, and the server refuses any other.
     */
    method SetNX(key: string, token: string, ttlNanos: int) returns (taken: bool, err: bool)
      modifies this
      ensures err == (ttlNanos < -1)
      ensures err ==> !taken && s == old(s)
      ensures !err ==> taken == Succeeds(old(s), Label.SetNX(key, token, LeaseMillis(ttlNanos)))
      ensures !err ==> s == Step(old(s), Label.SetNX(key, token, LeaseMillis(ttlNanos)))
      ensures taken ==> key in s.store && s.store[key].value == token && (s.store[key].expires.None? <==> ttlNanos <= 0)
      ensures taken && ttlNanos > 0 ==>
                var lease := s.store[key].expires.value - s.now;
                lease >= 1 && -1_000_000 < lease * 1_000_000 - ttlNanos < 1_000_000
                && (ttlNanos >= 1_000_000 ==> lease * 1_000_000 <= ttlNanos)
    {
      if ttlNanos < -1 { return false, true; }
      taken, err := !Live(s, key), false;
      if taken { s := s.(store := s.store[key := Entry(token, Lease(s, LeaseMillis(ttlNanos)))]); }
    }

    /** The release script: delete the key only while it still holds the caller's token. */
    method ReleaseLock(key: string, token: string) returns (released: bool)
      modifies this
      ensures released == Succeeds(old(s), Release(key, token)) && s == Step(old(s), Release(key, token))
    {
      var value := Get(key);
      if value == Some(token) {
        s := s.(store := s.store - {key});
        return true;
      }
      return false;
    }

    /** The counter script; the time to live arrives in nanoseconds and is cut to whole milliseconds. */
    method IncrWithExpiry(key: string, ttlNanos: int) returns (count: int, err: bool)
      modifies this
      ensures var ttl := if ttlNanos >= 0 then ttlNanos / 1_000_000 else -((-ttlNanos) / 1_000_000);
              && s == Step(old(s), Incr(key, ttl)) && err == Counted(old(s), key).None?
              && count == if err then 0 else Counted(old(s), key).value
      ensures !err && count == 1 && ttlNanos >= 1_000_000 ==>
                && key in s.store && s.store[key].expires.Some?
                && 0 <= ttlNanos - (s.store[key].expires.value - s.now) * 1_000_000 < 1_000_000
      ensures !err && count == 1 && ttlNanos < 1_000_000 ==> key !in s.store
      ensures !err && count != 1 ==>
                key in s.store && key in old(s).store && s.store[key].expires == old(s).store[key].expires
    {
      var ttl := if ttlNanos >= 0 then ttlNanos / 1_000_000 else -((-ttlNanos) / 1_000_000);
      var current := Counted(s, key);
      if current.None? { return 0, true; }
      var expires := if Live(s, key) then s.store[key].expires else None;
      ghost var before := s;
      s := s.(store := s.store[key := Entry(Itoa(current.value), expires)]);
      if current.value == 1 {
        if ttl <= 0 {
          s := s.(store := s.store - {key});
          assert s.store == before.store - {key};
        } else {
          s := s.(store := s.store[key := s.store[key].(expires := Some(s.now + ttl))]);
          assert s.store == before.store[key := Entry(Itoa(1), Some(s.now + ttl))];
        }
      }
      return current.value, false;
    }
  }

  /* ---------- Traces ---------- */

  /** The state before step n of a trace on an empty server. */
  function At(trace: seq<Label>, n: nat): State
    requires n <= |trace|
  {
    if n == 0 then State(map[], 0) else Step(At(trace, n - 1), trace[n - 1])
  }

  /** Step i grants the lock on `key`. */
  ghost predicate Grants(trace: seq<Label>, key: string, i: nat) {
    i < |trace| && trace[i].SetNX? && trace[i].key == key && Succeeds(At(trace, i), trace[i])
  }

  /** Step i gives the lock on `key` up. */
  ghost predicate Releases(trace: seq<Label>, key: string, i: nat) {
    i < |trace| && trace[i].Release? && trace[i].key == key && Succeeds(At(trace, i), trace[i])
  }

  /** The key is used as a lock only. */
  ghost predicate LockOnly(trace: seq<Label>, key: string) {
    forall i :: 0 <= i < |trace| && trace[i].Incr? ==> trace[i].key != key
  }

  /** A live lock is exactly the latest grant: its token, its lease, nothing granted or released since. */
  ghost predicate HeldSince(trace: seq<Label>, key: string, i: nat, n: nat)
    requires n <= |trace|
  {
    && i < n && Grants(trace, key, i) && key in At(trace, n).store
    && At(trace, n).store[key] == Entry(trace[i].token, Lease(At(trace, i), trace[i].ttl))
    && (forall m :: i < m < n ==> !Grants(trace, key, m) && !Releases(trace, key, m))
  }

  lemma {:induction false} LiveIsLatestGrant(trace: seq<Label>, key: string, n: nat)
    requires n <= |trace| && LockOnly(trace, key) && key in At(trace, n).store
    ensures exists i :: 0 <= i < n && HeldSince(trace, key, i, n)
  {
    var s, l := At(trace, n - 1), trace[n - 1];
    if Grants(trace, key, n - 1) {
      assert HeldSince(trace, key, n - 1, n);
    } else {
      assert key in s.store && At(trace, n).store[key] == s.store[key];
      LiveIsLatestGrant(trace, key, n - 1);
      var i :| 0 <= i < n - 1 && HeldSince(trace, key, i, n - 1);
      assert !Releases(trace, key, n - 1);
      assert HeldSince(trace, key, i, n);
    }
  }

  /**
   A release that succeeds gives up the caller's own unexpired grant; nobody was granted the lock in between. So a
   client whose lease lapsed and whose lock went to a successor cannot take it away.
   */
  lemma ReleaseIsOwn(trace: seq<Label>, key: string, j: nat)
    requires LockOnly(trace, key) && Releases(trace, key, j)
    ensures exists i :: 0 <= i < j && Grants(trace, key, i) && trace[i].token == trace[j].token
              && (trace[i].ttl > 0 ==> At(trace, j).now < At(trace, i).now + trace[i].ttl)
              && forall m :: i < m < j ==> !Grants(trace, key, m)
  {
    LiveIsLatestGrant(trace, key, j);
    var i :| 0 <= i < j && HeldSince(trace, key, i, j);
    assert Grants(trace, key, i) && trace[i].token == trace[j].token;
  }

  /** Once the lock has been granted to others and not to the caller since, its release fails. */
  lemma LateReleaseFails(trace: seq<Label>, key: string, m: nat, j: nat)
    requires LockOnly(trace, key) && m < j < |trace| && Grants(trace, key, m)
    requires trace[j].Release? && trace[j].key == key
    requires forall k :: m <= k < j && Grants(trace, key, k) ==> trace[k].token != trace[j].token
    ensures !Releases(trace, key, j) && At(trace, j + 1) == At(trace, j)
  {
    if Releases(trace, key, j) { ReleaseIsOwn(trace, key, j); }
  }

  /** As long as nobody releases it and its lease has not run out, a grant stays in place. */
  lemma {:induction false} GrantLasts(trace: seq<Label>, key: string, i: nat, n: nat)
    requires LockOnly(trace, key) && Grants(trace, key, i) && i < n <= |trace|
    requires forall m :: i < m < n ==> !Releases(trace, key, m)
    requires trace[i].ttl > 0 ==> At(trace, n).now < At(trace, i).now + trace[i].ttl
    ensures Live(At(trace, n), key)
    ensures At(trace, n).store[key] == Entry(trace[i].token, Lease(At(trace, i), trace[i].ttl))
    decreases n
  {
    if n == i + 1 {
    } else {
      assert At(trace, n - 1).now <= At(trace, n).now;
      GrantLasts(trace, key, i, n - 1);
      assert !Releases(trace, key, n - 1);
    }
  }

  /** Mutual exclusion: between two grants of a lock, the first was released or its lease ran out. */
  lemma GrantsExclude(trace: seq<Label>, key: string, i: nat, j: nat)
    requires LockOnly(trace, key) && i < j && Grants(trace, key, i) && Grants(trace, key, j)
    ensures (exists m :: i < m < j && Releases(trace, key, m))
         || (trace[i].ttl > 0 && At(trace, j).now >= At(trace, i).now + trace[i].ttl)
  {
    if forall m :: i < m < j ==> !Releases(trace, key, m) {
      if trace[i].ttl == 0 || At(trace, j).now < At(trace, i).now + trace[i].ttl {
        GrantLasts(trace, key, i, j);
        assert false;
      }
    }
  }

  /* ---------- The counter ---------- */

  ghost predicate CounterOnly(trace: seq<Label>, key: string) {
    forall i :: 0 <= i < |trace| ==>
      (trace[i].Incr? && trace[i].key == key ==> trace[i].millis >= 1)
      && (trace[i].SetNX? || trace[i].Release? ==> trace[i].key != key)
  }

  /** Calls counting up `key` from step w up to step n. */
  ghost function Calls(trace: seq<Label>, key: string, w: nat, n: nat): nat
    requires n <= |trace|
  {
    if n <= w then 0 else Calls(trace, key, w, n - 1) + if trace[n - 1].Incr? && trace[n - 1].key == key then 1 else 0
  }

  /** Step w opened the window the counter is in: it found no counter, and set the expiry. */
  ghost predicate WindowSince(trace: seq<Label>, key: string, w: nat, n: nat)
    requires n <= |trace|
  {
    && w < n && trace[w].Incr? && trace[w].key == key && !Live(At(trace, w), key)
    && key in At(trace, n).store
    && At(trace, n).store[key]
       == Entry(Itoa(Ceiling(Calls(trace, key, w, n))), Some(At(trace, w).now + trace[w].millis))
    && Calls(trace, key, w, n) >= 1
  }

  /** INCR refuses to pass the largest 64-bit integer, so a counter that gets there stays there. */
  function Ceiling(n: nat): nat {
    if n <= MAX_INT64 then n else MAX_INT64
  }

  /** A counter below the ceiling counts on. */
  lemma CountedNext(s: State, key: string, k: nat)
    requires Live(s, key) && s.store[key].value == Itoa(k) && k < MAX_INT64
    ensures Counted(s, key) == Some(k + 1)
  {
    AtoiItoa(k);
  }

  lemma CountedFull(s: State, key: string, k: nat)
    requires Live(s, key) && s.store[key].value == Itoa(k) && k == MAX_INT64
    ensures Counted(s, key) == None
  {
    AtoiItoa(k);
  }

  lemma StoredNext(s: State, key: string, millis: int, n: int)
    requires Live(s, key) && Counted(s, key) == Some(n) && n != 1
    ensures AfterIncr(s, key, millis) == s.(store := s.store[key := Entry(Itoa(n), s.store[key].expires)])
  {
  }

  lemma StoredAgain(s: State, key: string, k: nat)
    requires Live(s, key) && s.store[key].value == Itoa(k)
    ensures s == s.(store := s.store[key := Entry(Itoa(k), s.store[key].expires)])
  {
    assert s.store == s.store[key := Entry(Itoa(k), s.store[key].expires)];
  }

  /** A live counter goes up by one, short of the ceiling, and keeps its expiry. */
  lemma CountsOn(s: State, key: string, millis: int, k: nat)
    requires Live(s, key) && s.store[key].value == Itoa(Ceiling(k)) && 1 <= k
    ensures AfterIncr(s, key, millis) == s.(store := s.store[key := Entry(Itoa(Ceiling(k + 1)), s.store[key].expires)])
  {
    if k < MAX_INT64 {
      CountedNext(s, key, k);
      StoredNext(s, key, millis, k + 1);
    } else {
      CountedFull(s, key, Ceiling(k));
      StoredAgain(s, key, Ceiling(k));
    }
  }

  /** Other keys' steps and the clock leave the counter's entry alone. */
  lemma CounterUntouched(s: State, l: Label, key: string)
    requires l.Tick? || l.key != key
    ensures key in Step(s, l).store <==> key in s.store
    ensures key in s.store ==> Step(s, l).store[key] == s.store[key]
  {
  }

  lemma WindowGoesOn(trace: seq<Label>, key: string, w: nat, n: nat)
    requires 0 < n <= |trace| && WindowSince(trace, key, w, n - 1)
    requires trace[n - 1].Incr? && trace[n - 1].key == key && Live(At(trace, n - 1), key)
    ensures WindowSince(trace, key, w, n)
  {
    CountsOn(At(trace, n - 1), key, trace[n - 1].millis, Calls(trace, key, w, n - 1));
  }

  lemma WindowOpens(trace: seq<Label>, key: string, n: nat)
    requires 0 < n <= |trace| && CounterOnly(trace, key)
    requires trace[n - 1].Incr? && trace[n - 1].key == key && !Live(At(trace, n - 1), key)
    ensures WindowSince(trace, key, n - 1, n)
  {
  }

  /**
   A counter touched only by IncrWithExpiry with a time to live of at least a millisecond always has an expiry, and
   holds exactly the number of calls since its window began, up to the largest 64-bit integer.
   */
  lemma {:induction false} CounterCounts(trace: seq<Label>, key: string, n: nat)
    requires n <= |trace| && CounterOnly(trace, key) && key in At(trace, n).store
    ensures exists w :: 0 <= w < n && WindowSince(trace, key, w, n)
  {
    var s, l := At(trace, n - 1), trace[n - 1];
    if l.Incr? && l.key == key {
      if !Live(s, key) {
        WindowOpens(trace, key, n);
      } else {
        CounterCounts(trace, key, n - 1);
        var w :| 0 <= w < n - 1 && WindowSince(trace, key, w, n - 1);
        WindowGoesOn(trace, key, w, n);
      }
    } else {
      CounterUntouched(s, l, key);
      CounterCounts(trace, key, n - 1);
      var w :| 0 <= w < n - 1 && WindowSince(trace, key, w, n - 1);
      assert Calls(trace, key, w, n) == Calls(trace, key, w, n - 1);
      assert WindowSince(trace, key, w, n);
    }
  }

  /** A time to live under a millisecond, cut to zero, leaves no counter behind: every such call answers 1. */
  lemma ShortTtlNeverCounts(s: State, key: string, ttl: int)
    requires !Live(s, key)
    ensures Counted(s, key) == Some(1)
    ensures Live(AfterIncr(s, key, ttl), key) <==> ttl >= 1
    ensures ttl >= 1 ==> AfterIncr(s, key, ttl).store[key].expires == Some(s.now + ttl)
  {
  }
}
