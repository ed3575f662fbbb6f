/** Message headers, decimal counters, and what repeated dead-lettering does to a message. */
module KafkaHeaders {
  import opened Options
  import opened Durations

  datatype Header = Header(key: string, value: string)

  datatype Message = Message(topic: string, key: string, value: string, headers: seq<Header>)

  /* ---------- Decimal numbers ---------- */

  const DIGITS := "0123456789"

  function Decimal(n: nat): (s: string)
    ensures s != []
  {
    if n < 10 then [DIGITS[n]] else Decimal(n / 10) + [DIGITS[n % 10]]
  }

  /** strconv.Itoa. */
  function Itoa(n: int): string {
    if n < 0 then "-" + Decimal(-n) else Decimal(n)
  }

  predicate AllDigits(s: string) {
    forall i :: 0 <= i < |s| ==> '0' <= s[i] <= '9'
  }

  function Value(s: string): nat
    requires AllDigits(s)
  {
    if s == [] then 0 else 10 * Value(s[..|s| - 1]) + (s[|s| - 1] as int - '0' as int)
  }

  /** strconv.Atoi: an optional sign, digits, and a value that fits 64 bits. */
  function Atoi(s: string): Option<int> {
    var negative := s != [] && s[0] == '-';
    var digits := if s != [] && (s[0] == '+' || s[0] == '-') then s[1..] else s;
    if digits == [] || !AllDigits(digits) then None
    else
      var n: int := if negative then 0 - Value(digits) else Value(digits);
      if -MAX_INT64 - 1 <= n <= MAX_INT64 then Some(n) else None
  }

  lemma {:induction false} DecimalValue(n: nat)
    ensures AllDigits(Decimal(n)) && Value(Decimal(n)) == n
  {
    if n >= 10 {
      DecimalValue(n / 10);
      var s := Decimal(n);
      assert s[..|s| - 1] == Decimal(n / 10);
      assert s[|s| - 1] as int - '0' as int == n % 10;
    } else {
      var s := Decimal(n);
      assert s[..0] == [];
      assert s[0] as int - '0' as int == n;
    }
  }

  /** Decimal notation, digit by digit. */
  lemma DecimalDigits(n: nat)
    ensures n < 10 ==> |Decimal(n)| == 1
    ensures n >= 10 ==> Decimal(n) == Decimal(n / 10) + Decimal(n % 10)
    ensures Decimal(0) == "0" && Decimal(1) == "1" && Decimal(5) == "5" && Decimal(9) == "9"
  {
  }

  lemma AtoiDigits(d: string)
    requires d != [] && AllDigits(d)
    ensures Value(d) <= MAX_INT64 ==> Atoi(d) == Some(Value(d))
    ensures Value(d) <= MAX_INT64 + 1 ==> Atoi(['-'] + d) == Some(0 - Value(d))
  {
  }

  lemma AtoiItoa(n: int)
    requires -MAX_INT64 - 1 <= n <= MAX_INT64
    ensures Atoi(Itoa(n)) == Some(n)
  {
    var d := Decimal(if n < 0 then -n else n);
    DecimalValue(if n < 0 then -n else n);
    AtoiDigits(d);
    assert "-" == ['-'];
  }

  /* ---------- Lookups ---------- */

  /** The first value under a key, or the empty string. */
  function HeaderValue(headers: seq<Header>, key: string): string {
    if headers == [] then "" else if headers[0].key == key then headers[0].value else HeaderValue(headers[1..], key)
  }

  ghost predicate FirstUnder(headers: seq<Header>, key: string, i: nat) {
    i < |headers| && headers[i].key == key && forall j :: 0 <= j < i ==> headers[j].key != key
  }

  /** A lookup finds the first header under the key, and the empty string when there is none. */
  lemma {:induction false} LookupFindsFirst(headers: seq<Header>, key: string)
    ensures (forall i :: 0 <= i < |headers| ==> headers[i].key != key) ==> HeaderValue(headers, key) == ""
    ensures forall i :: 0 <= i < |headers| && FirstUnder(headers, key, i) ==>
              HeaderValue(headers, key) == headers[i].value
  {
    if headers == [] || headers[0].key == key {
    } else {
      LookupFindsFirst(headers[1..], key);
      forall i | 0 <= i < |headers| && FirstUnder(headers, key, i)
        ensures HeaderValue(headers, key) == headers[i].value
      {
        assert headers[i] == headers[1..][i - 1];
        assert FirstUnder(headers[1..], key, i - 1);
      }
    }
  }

  function IntHeaderValue(headers: seq<Header>, key: string, default: int): int {
    var val := HeaderValue(headers, key);
    if val == "" then default
    else
      match Atoi(val)
      case Some(n) => n
      case None => default
  }

  /* ---------- Dead-lettering ---------- */

  const ORIGINAL_TOPIC := "x-original-topic"
  const ERROR_MESSAGE := "x-error-message"
  const FAILURE_TIMESTAMP := "x-failure-timestamp"
  const ATTEMPT_COUNT := "x-attempt-count"

  /** The headers a new dead-lettering replaces. */
  predicate IsFailureKey(key: string) {
    key == ERROR_MESSAGE || key == FAILURE_TIMESTAMP || key == ATTEMPT_COUNT
  }

  function Kept(headers: seq<Header>): seq<Header> {
    if headers == [] then []
    else if IsFailureKey(headers[0].key) then Kept(headers[1..])
    else [headers[0]] + Kept(headers[1..])
  }

  datatype Failure = Failure(error: string, stamp: string)

  function FailureHeaders(maxRetries: int, m: Message, f: Failure): seq<Header> {
    [Header(ORIGINAL_TOPIC, m.topic), Header(ERROR_MESSAGE, f.error), Header(FAILURE_TIMESTAMP, f.stamp),
     Header(ATTEMPT_COUNT, Itoa(Wrap64(IntHeaderValue(m.headers, ATTEMPT_COUNT, maxRetries) + 1)))]
  }

  function DeadLettered(maxRetries: int, suffix: string, m: Message, f: Failure): Message {
    m.(topic := m.topic + suffix, headers := FailureHeaders(maxRetries, m, f) + Kept(m.headers))
  }

  lemma KeptNext(headers: seq<Header>, i: nat, done: seq<Header>)
    requires i < |headers|
    ensures done + Kept(headers[i..])
         == (if IsFailureKey(headers[i].key) then done else done + [headers[i]]) + Kept(headers[i + 1..])
  {
  }

  /** The message PublishToDLQ builds, header by header. */
  method BuildDeadLetter(maxRetries: int, suffix: string, m: Message, f: Failure) returns (d: Message)
    ensures d == DeadLettered(maxRetries, suffix, m, f)
  {
    var attemptCount := Wrap64(IntHeaderValue(m.headers, ATTEMPT_COUNT, maxRetries) + 1);
    var headers := [Header(ORIGINAL_TOPIC, m.topic), Header(ERROR_MESSAGE, f.error),
                    Header(FAILURE_TIMESTAMP, f.stamp), Header(ATTEMPT_COUNT, Itoa(attemptCount))];
    ghost var whole := headers + Kept(m.headers);
    var i := 0;
    assert m.headers[0..] == m.headers;
    while i < |m.headers|
      invariant 0 <= i <= |m.headers|
      invariant headers + Kept(m.headers[i..]) == whole
    {
      var h := m.headers[i];
      KeptNext(m.headers, i, headers);
      if h.key != ERROR_MESSAGE && h.key != FAILURE_TIMESTAMP && h.key != ATTEMPT_COUNT {
        headers := headers + [h];
      }
      i := i + 1;
    }
    assert headers + [] == headers;
    d := Message(m.topic + suffix, m.key, m.value, headers);
  }

  /** The message after failing `fs` times in a row, each copy being dead-lettered again. */
  function DeadLetteredAll(maxRetries: int, suffix: string, m: Message, fs: seq<Failure>): Message {
    if fs == [] then m
    else DeadLettered(maxRetries, suffix, DeadLetteredAll(maxRetries, suffix, m, fs[..|fs| - 1]), fs[|fs| - 1])
  }

  function TopicAfter(topic: string, suffix: string, n: nat): string {
    if n == 0 then topic else TopicAfter(topic, suffix, n - 1) + suffix
  }

  /** The x-original-topic headers of an n-times failed message: the topics it came through, newest first. */
  function PathHeaders(topic: string, suffix: string, n: nat): seq<Header> {
    if n == 0 then []
    else [Header(ORIGINAL_TOPIC, TopicAfter(topic, suffix, n - 1))] + PathHeaders(topic, suffix, n - 1)
  }

  lemma Regroup(h: Header, b: seq<Header>, c: seq<Header>)
    ensures [h] + b + c == [h] + (b + c)
  {
  }

  lemma KeptCons(h: Header, hs: seq<Header>)
    ensures Kept([h] + hs) == if IsFailureKey(h.key) then Kept(hs) else [h] + Kept(hs)
  {
    assert ([h] + hs)[1..] == hs;
  }

  lemma {:induction false} KeptConcat(a: seq<Header>, b: seq<Header>)
    ensures Kept(a + b) == Kept(a) + Kept(b)
  {
    if a == [] {
      assert a + b == b;
    } else {
      KeptConcat(a[1..], b);
      KeptCons(a[0], a[1..] + b);
      assert a + b == [a[0]] + (a[1..] + b);
      Regroup(a[0], Kept(a[1..]), Kept(b));
    }
  }

  lemma {:induction false} KeptIdempotent(a: seq<Header>)
    ensures Kept(Kept(a)) == Kept(a)
  {
    if a == [] {
    } else {
      KeptIdempotent(a[1..]);
      KeptCons(a[0], Kept(a[1..]));
    }
  }

  /** Lookups of a key that is kept do not see the dropped headers. */
  lemma {:induction false} KeptValues(a: seq<Header>, key: string)
    requires !IsFailureKey(key)
    ensures HeaderValue(Kept(a), key) == HeaderValue(a, key)
  {
    if a == [] {
    } else {
      KeptValues(a[1..], key);
      if IsFailureKey(a[0].key) {
        assert Kept(a) == Kept(a[1..]);
      } else {
        assert Kept(a)[1..] == Kept(a[1..]);
      }
    }
  }

  lemma KeysDiffer()
    ensures !IsFailureKey(ORIGINAL_TOPIC) && ATTEMPT_COUNT != ERROR_MESSAGE && ATTEMPT_COUNT != FAILURE_TIMESTAMP
    ensures ORIGINAL_TOPIC != ERROR_MESSAGE && ORIGINAL_TOPIC != FAILURE_TIMESTAMP && ERROR_MESSAGE != FAILURE_TIMESTAMP
  {
  }

  lemma KeptOfFour(a: Header, b: Header, c: Header, d: Header)
    requires !IsFailureKey(a.key) && IsFailureKey(b.key) && IsFailureKey(c.key) && IsFailureKey(d.key)
    ensures Kept([a, b, c, d]) == [a]
  {
    assert [a, b, c, d][1..] == [b, c, d] && [b, c, d][1..] == [c, d] && [c, d][1..] == [d] && [d][1..] == [];
    assert Kept([d]) == [];
    assert Kept([c, d]) == [];
    assert Kept([b, c, d]) == [];
  }

  lemma ValueOfFourth(a: Header, b: Header, c: Header, d: Header, rest: seq<Header>)
    requires a.key != d.key && b.key != d.key && c.key != d.key
    ensures HeaderValue([a, b, c, d] + rest, d.key) == d.value
  {
    assert ([a, b, c, d] + rest)[1..] == [b, c, d] + rest;
    assert ([b, c, d] + rest)[1..] == [c, d] + rest && ([c, d] + rest)[1..] == [d] + rest;
    assert HeaderValue([c, d] + rest, d.key) == d.value;
    assert HeaderValue([b, c, d] + rest, d.key) == d.value;
  }

  lemma KeptOfFailure(maxRetries: int, m: Message, f: Failure)
    ensures Kept(FailureHeaders(maxRetries, m, f)) == [Header(ORIGINAL_TOPIC, m.topic)]
  {
    KeysDiffer();
    var h := FailureHeaders(maxRetries, m, f);
    KeptOfFour(h[0], h[1], h[2], h[3]);
  }

  lemma CountOfFailure(maxRetries: int, suffix: string, m: Message, f: Failure)
    ensures HeaderValue(DeadLettered(maxRetries, suffix, m, f).headers, ATTEMPT_COUNT)
         == Itoa(Wrap64(IntHeaderValue(m.headers, ATTEMPT_COUNT, maxRetries) + 1))
  {
    KeysDiffer();
    var h := FailureHeaders(maxRetries, m, f);
    ValueOfFourth(h[0], h[1], h[2], h[3], Kept(m.headers));
  }

  lemma PathStep(topic: string, suffix: string, n: nat, rest: seq<Header>)
    requires n > 0
    ensures PathHeaders(topic, suffix, n) + rest
         == [Header(ORIGINAL_TOPIC, TopicAfter(topic, suffix, n - 1))] + (PathHeaders(topic, suffix, n - 1) + rest)
  {
  }

  lemma KeptOfDeadLetter(maxRetries: int, suffix: string, m: Message, f: Failure)
    ensures Kept(DeadLettered(maxRetries, suffix, m, f).headers) == [Header(ORIGINAL_TOPIC, m.topic)] + Kept(m.headers)
    ensures |DeadLettered(maxRetries, suffix, m, f).headers| == 4 + |Kept(m.headers)|
  {
    KeptConcat(FailureHeaders(maxRetries, m, f), Kept(m.headers));
    KeptOfFailure(maxRetries, m, f);
    KeptIdempotent(m.headers);
  }

  /**
   What is kept of an n-times failed message, whatever headers it had at first: exactly its path, newest first, and
   then what was kept of the original headers, in their order.
   */
  lemma {:induction false} KeptAfter(maxRetries: int, suffix: string, m: Message, fs: seq<Failure>)
    ensures var d := DeadLetteredAll(maxRetries, suffix, m, fs);
            && d.topic == TopicAfter(m.topic, suffix, |fs|) && d.key == m.key && d.value == m.value
            && Kept(d.headers) == PathHeaders(m.topic, suffix, |fs|) + Kept(m.headers)
  {
    if fs == [] {
      assert [] + Kept(m.headers) == Kept(m.headers);
    } else {
      var prev, f := DeadLetteredAll(maxRetries, suffix, m, fs[..|fs| - 1]), fs[|fs| - 1];
      KeptAfter(maxRetries, suffix, m, fs[..|fs| - 1]);
      KeptOfDeadLetter(maxRetries, suffix, prev, f);
      PathStep(m.topic, suffix, |fs|, Kept(m.headers));
    }
  }

  lemma {:induction false} PathLength(topic: string, suffix: string, n: nat)
    ensures |PathHeaders(topic, suffix, n)| == n
  {
    if n == 0 {
    } else {
      PathLength(topic, suffix, n - 1);
    }
  }

  /** The whole header list after the last of n failures: its four failure headers, the older path, the originals. */
  lemma HeadersAfter(maxRetries: int, suffix: string, m: Message, fs: seq<Failure>)
    requires fs != []
    ensures var n, d := |fs| - 1, DeadLetteredAll(maxRetries, suffix, m, fs);
            var prev := DeadLetteredAll(maxRetries, suffix, m, fs[..n]);
            && d.headers
               == FailureHeaders(maxRetries, prev, fs[n]) + (PathHeaders(m.topic, suffix, n) + Kept(m.headers))
            && |d.headers| == |Kept(m.headers)| + 3 + |fs|
  {
    KeptAfter(maxRetries, suffix, m, fs[..|fs| - 1]);
    PathLength(m.topic, suffix, |fs| - 1);
  }

  /** Looking a kept key up past the path, under another key than the path's, gives what it gave at first. */
  lemma {:induction false} PathIsPassed(topic: string, suffix: string, n: nat, rest: seq<Header>, key: string)
    requires key != ORIGINAL_TOPIC
    ensures HeaderValue(PathHeaders(topic, suffix, n) + rest, key) == HeaderValue(rest, key)
  {
    if n == 0 {
      assert PathHeaders(topic, suffix, 0) + rest == rest;
    } else {
      PathIsPassed(topic, suffix, n - 1, rest, key);
      PathStep(topic, suffix, n, rest);
      var tail := PathHeaders(topic, suffix, n - 1) + rest;
      assert ([Header(ORIGINAL_TOPIC, TopicAfter(topic, suffix, n - 1))] + tail)[1..] == tail;
    }
  }

  /** Lookups outside the four bookkeeping keys give the same through any number of failures. */
  lemma LookupsAfter(maxRetries: int, suffix: string, m: Message, fs: seq<Failure>, key: string)
    requires !IsFailureKey(key) && key != ORIGINAL_TOPIC
    ensures HeaderValue(DeadLetteredAll(maxRetries, suffix, m, fs).headers, key) == HeaderValue(m.headers, key)
  {
    var d := DeadLetteredAll(maxRetries, suffix, m, fs);
    KeptAfter(maxRetries, suffix, m, fs);
    KeptValues(d.headers, key);
    KeptValues(m.headers, key);
    PathIsPassed(m.topic, suffix, |fs|, Kept(m.headers), key);
  }

  lemma {:induction false} NoCountAtFirst(headers: seq<Header>)
    requires Kept(headers) == headers
    ensures HeaderValue(headers, ATTEMPT_COUNT) == ""
  {
    if headers == [] {
    } else {
      KeptShrinks(headers[1..]);
      assert Kept(headers)[0] == headers[0] && Kept(headers)[1..] == headers[1..];
      NoCountAtFirst(headers[1..]);
    }
  }

  lemma {:induction false} KeptShrinks(headers: seq<Header>)
    ensures |Kept(headers)| <= |headers|
  {
    if headers == [] {
    } else {
      KeptShrinks(headers[1..]);
    }
  }

  /** After n failures the attempt counter reads maxRetries + n, as long as that fits 64 bits. */
  lemma {:induction false} CountAfter(maxRetries: int, suffix: string, m: Message, fs: seq<Failure>)
    requires Kept(m.headers) == m.headers && -MAX_INT64 - 1 <= maxRetries && maxRetries + |fs| <= MAX_INT64
    ensures IntHeaderValue(DeadLetteredAll(maxRetries, suffix, m, fs).headers, ATTEMPT_COUNT, maxRetries)
         == maxRetries + |fs|
    ensures fs != [] ==>
              HeaderValue(DeadLetteredAll(maxRetries, suffix, m, fs).headers, ATTEMPT_COUNT) == Itoa(maxRetries + |fs|)
  {
    if fs == [] {
      NoCountAtFirst(m.headers);
    } else {
      var init := fs[..|fs| - 1];
      CountAfter(maxRetries, suffix, m, init);
      CountOfFailure(maxRetries, suffix, DeadLetteredAll(maxRetries, suffix, m, init), fs[|fs| - 1]);
      AtoiItoa(maxRetries + |fs|);
    }
  }

  /** One dead-lettering: where the message goes, what it says of the failure and of where it came from. */
  lemma FailureLookups(maxRetries: int, suffix: string, m: Message, f: Failure)
    ensures var d := DeadLettered(maxRetries, suffix, m, f);
            && d.topic == m.topic + suffix && d.key == m.key && d.value == m.value
            && HeaderValue(d.headers, "x-original-topic") == m.topic
            && HeaderValue(d.headers, "x-error-message") == f.error
            && HeaderValue(d.headers, "x-failure-timestamp") == f.stamp
  {
    KeysDiffer();
    var hs, rest := FailureHeaders(maxRetries, m, f), Kept(m.headers);
    assert (hs + rest)[0] == hs[0] && (hs + rest)[1] == hs[1] && (hs + rest)[2] == hs[2];
    LookupFindsFirst(hs + rest, ORIGINAL_TOPIC);
    LookupFindsFirst(hs + rest, ERROR_MESSAGE);
    LookupFindsFirst(hs + rest, FAILURE_TIMESTAMP);
    assert FirstUnder(hs + rest, ORIGINAL_TOPIC, 0);
    assert FirstUnder(hs + rest, ERROR_MESSAGE, 1);
    assert FirstUnder(hs + rest, FAILURE_TIMESTAMP, 2);
  }

  /** The keys each dead-lettering writes anew. */
  predicate Bookkeeping(key: string) {
    key in {"x-error-message", "x-failure-timestamp", "x-attempt-count"}
  }

  lemma {:induction false} AllKept(headers: seq<Header>)
    requires forall i :: 0 <= i < |headers| ==> !Bookkeeping(headers[i].key)
    ensures Kept(headers) == headers
  {
    if headers == [] {
    } else {
      AllKept(headers[1..]);
      assert headers == [headers[0]] + headers[1..];
    }
  }

  /** The four headers that tell of the last of n failures. */
  lemma LastFailure(maxRetries: int, suffix: string, m: Message, fs: seq<Failure>, prev: Message)
    requires Kept(m.headers) == m.headers && fs != []
    requires -MAX_INT64 - 1 <= maxRetries && maxRetries + |fs| <= MAX_INT64
    requires prev == DeadLetteredAll(maxRetries, suffix, m, fs[..|fs| - 1])
    ensures FailureHeaders(maxRetries, prev, fs[|fs| - 1])
         == [Header("x-original-topic", TopicAfter(m.topic, suffix, |fs| - 1)),
             Header("x-error-message", fs[|fs| - 1].error), Header("x-failure-timestamp", fs[|fs| - 1].stamp),
             Header("x-attempt-count", Itoa(maxRetries + |fs|))]
  {
    KeptAfter(maxRetries, suffix, m, fs[..|fs| - 1]);
    CountAfter(maxRetries, suffix, m, fs[..|fs| - 1]);
  }

  /**
   A message that has failed n >= 1 times since it carried none of the failure headers: its headers are, in this order,
   the four that tell of the last failure, with maxRetries + n as the count, the older part of its path newest first,
   and all its original ones; it has grown by exactly 3 + n headers; lookups of any other key, its key and its value
   are as they were.
   */
  lemma DeadLetterHistory(maxRetries: int, suffix: string, m: Message, fs: seq<Failure>, key: string)
    requires (forall i :: 0 <= i < |m.headers| ==> !Bookkeeping(m.headers[i].key)) && fs != []
    requires -MAX_INT64 - 1 <= maxRetries && maxRetries + |fs| <= MAX_INT64
    requires !Bookkeeping(key) && key != "x-original-topic"
    ensures var d, f := DeadLetteredAll(maxRetries, suffix, m, fs), fs[|fs| - 1];
            && d.headers == [Header("x-original-topic", TopicAfter(m.topic, suffix, |fs| - 1)),
                             Header("x-error-message", f.error), Header("x-failure-timestamp", f.stamp),
                             Header("x-attempt-count", Itoa(maxRetries + |fs|))]
                            + (PathHeaders(m.topic, suffix, |fs| - 1) + m.headers)
            && |d.headers| == |m.headers| + 3 + |fs|
            && Atoi(HeaderValue(d.headers, "x-attempt-count")) == Some(maxRetries + |fs|)
            && d.topic == TopicAfter(m.topic, suffix, |fs|) && d.key == m.key && d.value == m.value
            && HeaderValue(d.headers, key) == HeaderValue(m.headers, key)
  {
    AllKept(m.headers);
    KeptAfter(maxRetries, suffix, m, fs);
    HeadersAfter(maxRetries, suffix, m, fs);
    LastFailure(maxRetries, suffix, m, fs, DeadLetteredAll(maxRetries, suffix, m, fs[..|fs| - 1]));
    CountAfter(maxRetries, suffix, m, fs);
    AtoiItoa(maxRetries + |fs|);
    LookupsAfter(maxRetries, suffix, m, fs, key);
  }
}
