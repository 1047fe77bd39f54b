/** The per-client HTTP rate limiter: pruned deques with a sweep and an overflow bucket, and
    the naive limiter that keeps every accepted request for ever. */
module RateLimiter {
  import opened Totals

  /** A client's bucket is named by a digest of its address, which is never "overflow". */
  datatype Bucket = Client(key: string) | Overflow

  const MAX_BUCKETS := 4096

  /** What the configuration check lets through. */
  datatype Limits = Limits(max: int, window: real) {
    predicate Valid() { max >= 1 && window > 0.0 }
  }

  datatype Verdict = Verdict(bucket: Bucket, accepted: bool, retryAfter: real)

  // ------------------------------------------------------------ pruned deques

  /** The deque after popping from the left what is not after the threshold. */
  function Pruned(times: seq<real>, threshold: real): seq<real> {
    if times != [] && times[0] <= threshold then Pruned(times[1..], threshold) else times
  }

  function DequeOf(requests: map<Bucket, seq<real>>, b: Bucket): seq<real> {
    if b in requests then requests[b] else []
  }

  function Swept(requests: map<Bucket, seq<real>>, threshold: real): map<Bucket, seq<real>> {
    map b | b in requests && Pruned(requests[b], threshold) != [] :: Pruned(requests[b], threshold)
  }

  function AfterSweep(requests: map<Bucket, seq<real>>, client: Bucket, threshold: real): map<Bucket, seq<real>> {
    if client !in requests && |requests| >= MAX_BUCKETS then Swept(requests, threshold) else requests
  }

  function Chosen(requests: map<Bucket, seq<real>>, client: Bucket): Bucket {
    if client !in requests && |requests| >= MAX_BUCKETS then Overflow else client
  }

  function Decide(lim: Limits, live: seq<real>, b: Bucket, now: real): Verdict
    requires lim.Valid()
  {
    if |live| >= lim.max
    then Verdict(b, false, if lim.window - (now - live[0]) > 0.0 then lim.window - (now - live[0]) else 0.0)
    else Verdict(b, true, 0.0)
  }

  /** Deciding and recording, once the sweep is done. */
  function Record(lim: Limits, kept: map<Bucket, seq<real>>, b: Bucket, now: real): (map<Bucket, seq<real>>, Verdict)
    requires lim.Valid()
  {
    var live := Pruned(DequeOf(kept, b), now - lim.window);
    var verdict := Decide(lim, live, b, now);
    (kept[b := if verdict.accepted then live + [now] else live], verdict)
  }

  function Call(lim: Limits, requests: map<Bucket, seq<real>>, key: string, now: real): (map<Bucket, seq<real>>, Verdict)
    requires lim.Valid()
  {
    var kept := AfterSweep(requests, Client(key), now - lim.window);
    Record(lim, kept, Chosen(kept, Client(key)), now)
  }

  // ------------------------------------------------------- the naive limiter

  datatype Event = Event(key: string, time: real, bucket: Bucket, accepted: bool)

  /** Everything that ever happened, and the names of the buckets in use. */
  datatype Naive = Naive(events: seq<Event>, present: set<Bucket>)

  /** The full acceptance log of a bucket. */
  function LogOf(events: seq<Event>, b: Bucket): seq<real> {
    if events == [] then []
    else
      var e := events[|events| - 1];
      LogOf(events[..|events| - 1], b) + if e.accepted && e.bucket == b then [e.time] else []
  }

  /** How many entries of the log lie in (lo, hi]. */
  function CountIn(log: seq<real>, lo: real, hi: real): nat {
    if log == [] then 0
    else CountIn(log[..|log| - 1], lo, hi) + if lo < log[|log| - 1] <= hi then 1 else 0
  }

  /** The buckets that have let some request through in (lo, hi]. */
  function NaiveLive(n: Naive, lo: real, hi: real): set<Bucket> {
    set b | b in n.present && CountIn(LogOf(n.events, b), lo, hi) > 0
  }

  function NaivePresent(n: Naive, client: Bucket, lo: real, hi: real): set<Bucket> {
    if client !in n.present && |n.present| >= MAX_BUCKETS then NaiveLive(n, lo, hi) else n.present
  }

  function NaiveChosen(present: set<Bucket>, client: Bucket): Bucket {
    if client !in present && |present| >= MAX_BUCKETS then Overflow else client
  }

  function NaiveRecord(lim: Limits, n: Naive, key: string, b: Bucket, now: real): (Naive, Event) {
    var e := Event(key, now, b, CountIn(LogOf(n.events, b), now - lim.window, now) < lim.max);
    (Naive(n.events + [e], n.present + {b}), e)
  }

  function NaiveCall(lim: Limits, n: Naive, key: string, now: real): (Naive, Event) {
    var present := NaivePresent(n, Client(key), now - lim.window, now);
    NaiveRecord(lim, n.(present := present), key, NaiveChosen(present, Client(key)), now)
  }

  // ------------------------------------------------------------- simulation

  ghost predicate Sorted(times: seq<real>) {
    forall i, j | 0 <= i < j < |times| :: times[i] <= times[j]
  }

  ghost predicate UpTo(times: seq<real>, last: real) {
    forall i | 0 <= i < |times| :: times[i] <= last
  }

  /** The deque and the log say the same from the last call's threshold onwards. */
  ghost predicate SameFrom(deque: seq<real>, log: seq<real>, from: real) {
    forall t: real | t >= from :: Pruned(deque, t) == Pruned(log, t)
  }

  ghost predicate Sim(lim: Limits, requests: map<Bucket, seq<real>>, n: Naive, last: real) {
    && requests.Keys == n.present
    && forall b :: SimAt(lim, requests, n, last, b)
  }

  ghost predicate SimAt(lim: Limits, requests: map<Bucket, seq<real>>, n: Naive, last: real, b: Bucket) {
    && SameFrom(DequeOf(requests, b), LogOf(n.events, b), last - lim.window)
    && Sorted(LogOf(n.events, b)) && UpTo(LogOf(n.events, b), last)
  }

  lemma {:induction false} PrunedTwice(times: seq<real>, a: real, b: real)
    requires a <= b
    ensures Pruned(Pruned(times, a), b) == Pruned(times, b)
  {
    if times != [] && times[0] <= a {
      PrunedTwice(times[1..], a, b);
    }
  }

  lemma {:induction false} PrunedAppend(times: seq<real>, x: real, t: real)
    ensures Pruned(times + [x], t)
            == if Pruned(times, t) != [] then Pruned(times, t) + [x] else Pruned([x], t)
  {
    if times == [] {
      assert times + [x] == [x];
    } else {
      assert (times + [x])[1..] == times[1..] + [x];
      if times[0] <= t {
        PrunedAppend(times[1..], x, t);
      }
    }
  }

  lemma {:induction false} CountNone(log: seq<real>, lo: real, hi: real)
    requires UpTo(log, lo)
    ensures CountIn(log, lo, hi) == 0
  {
    if log != [] {
      CountNone(log[..|log| - 1], lo, hi);
    }
  }

  lemma {:induction false} CountAll(log: seq<real>, lo: real, hi: real)
    requires forall i | 0 <= i < |log| :: lo < log[i] <= hi
    ensures CountIn(log, lo, hi) == |log|
  {
    if log != [] {
      CountAll(log[..|log| - 1], lo, hi);
    }
  }

  lemma {:induction false} CountConcat(a: seq<real>, b: seq<real>, lo: real, hi: real)
    ensures CountIn(a + b, lo, hi) == CountIn(a, lo, hi) + CountIn(b, lo, hi)
  {
    if b == [] {
      assert a + b == a;
    } else {
      assert (a + b)[..|a + b| - 1] == a + b[..|b| - 1];
      CountConcat(a, b[..|b| - 1], lo, hi);
    }
  }

  /** In a sorted log the entries of a window that ends now are what pruning leaves. */
  lemma {:induction false} CountIsPruned(log: seq<real>, lo: real, hi: real)
    requires Sorted(log) && UpTo(log, hi)
    ensures CountIn(log, lo, hi) == |Pruned(log, lo)|
  {
    if log != [] && log[0] <= lo {
      CountIsPruned(log[1..], lo, hi);
      assert log == [log[0]] + log[1..];
      CountConcat([log[0]], log[1..], lo, hi);
      CountNone([log[0]], lo, hi);
    } else {
      CountAll(log, lo, hi);
    }
  }

  // ------------------------------------------------------------ one request

  lemma SweptSimAt(lim: Limits, requests: map<Bucket, seq<real>>, n: Naive, last: real, client: Bucket, now: real, b: Bucket)
    requires lim.Valid() && SimAt(lim, requests, n, last, b) && last <= now
    ensures SimAt(lim, AfterSweep(requests, client, now - lim.window), n, now, b)
    ensures CountIn(LogOf(n.events, b), now - lim.window, now) == |Pruned(DequeOf(requests, b), now - lim.window)|
  {
    var th := now - lim.window;
    var kept := AfterSweep(requests, client, th);
    var log := LogOf(n.events, b);
    CountIsPruned(log, th, now);
    forall t: real | t >= th
      ensures Pruned(DequeOf(kept, b), t) == Pruned(log, t)
    {
      assert Pruned(DequeOf(requests, b), t) == Pruned(log, t);
      assert Pruned(DequeOf(requests, b), th) == Pruned(log, th);
      PrunedTwice(DequeOf(requests, b), th, t);
    }
  }

  lemma SweptSim(lim: Limits, requests: map<Bucket, seq<real>>, n: Naive, last: real, client: Bucket, now: real)
    requires lim.Valid() && Sim(lim, requests, n, last) && last <= now
    ensures Sim(lim, AfterSweep(requests, client, now - lim.window),
                n.(present := NaivePresent(n, client, now - lim.window, now)), now)
  {
    var th := now - lim.window;
    var kept := AfterSweep(requests, client, th);
    var m := n.(present := NaivePresent(n, client, th, now));
    forall b
      ensures SimAt(lim, kept, m, now, b)
      ensures b in kept <==> b in m.present
    {
      assert SimAt(lim, requests, n, last, b);
      SweptSimAt(lim, requests, n, last, client, now, b);
    }
    assert kept.Keys == m.present;
  }

  lemma LogAppend(events: seq<Event>, e: Event, b: Bucket)
    ensures LogOf(events + [e], b) == if e.accepted && e.bucket == b then LogOf(events, b) + [e.time] else LogOf(events, b)
  {
    assert (events + [e])[..|events + [e]| - 1] == events;
  }

  /** Recording an event in both limiters. */
  lemma RecordSim(lim: Limits, kept: map<Bucket, seq<real>>, k: Naive, e: Event, x: Bucket)
    requires SimAt(lim, kept, k, e.time, x)
    ensures var live := Pruned(DequeOf(kept, e.bucket), e.time - lim.window);
            SimAt(lim, kept[e.bucket := if e.accepted then live + [e.time] else live],
                  Naive(k.events + [e], k.present + {e.bucket}), e.time, x)
  {
    LogAppend(k.events, e, x);
    if x == e.bucket {
      AppendSim(DequeOf(kept, x), LogOf(k.events, x), e.time - lim.window, e.time);
    } else {
      var live := Pruned(DequeOf(kept, e.bucket), e.time - lim.window);
      assert DequeOf(kept[e.bucket := if e.accepted then live + [e.time] else live], x) == DequeOf(kept, x);
    }
  }

  lemma LiveIsCount(lim: Limits, kept: map<Bucket, seq<real>>, n: Naive, now: real, b: Bucket)
    requires SimAt(lim, kept, n, now, b)
    ensures |Pruned(DequeOf(kept, b), now - lim.window)| == CountIn(LogOf(n.events, b), now - lim.window, now)
  {
    CountIsPruned(LogOf(n.events, b), now - lim.window, now);
  }

  lemma RecordAnswer(lim: Limits, kept: map<Bucket, seq<real>>, n: Naive, key: string, b: Bucket, now: real)
    requires lim.Valid() && SimAt(lim, kept, n, now, b)
    ensures Record(lim, kept, b, now).1.bucket == NaiveRecord(lim, n, key, b, now).1.bucket
    ensures Record(lim, kept, b, now).1.accepted == NaiveRecord(lim, n, key, b, now).1.accepted
  {
    LiveIsCount(lim, kept, n, now, b);
  }

  lemma RecordKeeps(lim: Limits, kept: map<Bucket, seq<real>>, n: Naive, key: string, b: Bucket, now: real, x: Bucket)
    requires lim.Valid() && SimAt(lim, kept, n, now, b) && SimAt(lim, kept, n, now, x)
    ensures SimAt(lim, Record(lim, kept, b, now).0, NaiveRecord(lim, n, key, b, now).0, now, x)
  {
    RecordAnswer(lim, kept, n, key, b, now);
    RecordSim(lim, kept, n, NaiveRecord(lim, n, key, b, now).1, x);
  }

  lemma RecordSame(lim: Limits, kept: map<Bucket, seq<real>>, n: Naive, key: string, b: Bucket, now: real)
    requires lim.Valid() && Sim(lim, kept, n, now)
    ensures Sim(lim, Record(lim, kept, b, now).0, NaiveRecord(lim, n, key, b, now).0, now)
  {
    forall x
      ensures SimAt(lim, Record(lim, kept, b, now).0, NaiveRecord(lim, n, key, b, now).0, now, x)
    {
      assert SimAt(lim, kept, n, now, b) && SimAt(lim, kept, n, now, x);
      RecordKeeps(lim, kept, n, key, b, now, x);
    }
  }

  lemma SameChoice(kept: map<Bucket, seq<real>>, present: set<Bucket>, client: Bucket)
    requires kept.Keys == present
    ensures Chosen(kept, client) == NaiveChosen(present, client)
  {
    assert |kept.Keys| == |kept|;
  }

  lemma CallSplits(lim: Limits, requests: map<Bucket, seq<real>>, key: string, now: real, kept: map<Bucket, seq<real>>)
    requires lim.Valid() && kept == AfterSweep(requests, Client(key), now - lim.window)
    ensures Call(lim, requests, key, now) == Record(lim, kept, Chosen(kept, Client(key)), now)
  {
  }

  lemma NaiveSplits(lim: Limits, n: Naive, key: string, now: real, k: Naive)
    requires k == n.(present := NaivePresent(n, Client(key), now - lim.window, now))
    ensures NaiveCall(lim, n, key, now) == NaiveRecord(lim, k, key, NaiveChosen(k.present, Client(key)), now)
  {
    assert n.(present := k.present) == k;
  }

  /** Both limiters do the rest of a call from related states, at the same bucket. */
  lemma CallsSplit(lim: Limits, requests: map<Bucket, seq<real>>, n: Naive, last: real, key: string, now: real)
    returns (kept: map<Bucket, seq<real>>, k: Naive, b: Bucket)
    requires lim.Valid() && Sim(lim, requests, n, last) && last <= now
    ensures kept == AfterSweep(requests, Client(key), now - lim.window) && k.events == n.events
    ensures Call(lim, requests, key, now) == Record(lim, kept, b, now)
    ensures NaiveCall(lim, n, key, now) == NaiveRecord(lim, k, key, b, now)
    ensures Sim(lim, kept, k, now)
  {
    kept := AfterSweep(requests, Client(key), now - lim.window);
    k := n.(present := NaivePresent(n, Client(key), now - lim.window, now));
    SweptSim(lim, requests, n, last, Client(key), now);
    b := Chosen(kept, Client(key));
    SameChoice(kept, k.present, Client(key));
    CallSplits(lim, requests, key, now, kept);
    NaiveSplits(lim, n, key, now, k);
  }

  /** The limiter and the naive limiter choose the same bucket and give the same answer. */
  lemma StepSim(lim: Limits, requests: map<Bucket, seq<real>>, n: Naive, last: real, key: string, now: real)
    requires lim.Valid() && Sim(lim, requests, n, last) && last <= now
    ensures Call(lim, requests, key, now).1.bucket == NaiveCall(lim, n, key, now).1.bucket
    ensures Call(lim, requests, key, now).1.accepted == NaiveCall(lim, n, key, now).1.accepted
    ensures Sim(lim, Call(lim, requests, key, now).0, NaiveCall(lim, n, key, now).0, now)
  {
    var kept, k, b := CallsSplit(lim, requests, n, last, key, now);
    assert SimAt(lim, kept, k, now, b);
    RecordAnswer(lim, kept, k, key, b, now);
    RecordSame(lim, kept, k, key, b, now);
  }

  lemma AppendSim(deque: seq<real>, log: seq<real>, th: real, now: real)
    requires SameFrom(deque, log, th)
    ensures SameFrom(Pruned(deque, th), log, th)
    ensures SameFrom(Pruned(deque, th) + [now], log + [now], th)
  {
    forall t: real | t >= th
      ensures Pruned(Pruned(deque, th), t) == Pruned(log, t)
      ensures Pruned(Pruned(deque, th) + [now], t) == Pruned(log + [now], t)
    {
      PrunedTwice(deque, th, t);
      assert Pruned(deque, t) == Pruned(log, t);
      PrunedAppend(Pruned(deque, th), now, t);
      PrunedAppend(log, now, t);
    }
  }

  // ------------------------------------------------------- whole sequences

  datatype Request = Request(key: string, time: real)

  ghost predicate InOrder(reqs: seq<Request>) {
    forall i, j | 0 <= i < j < |reqs| :: reqs[i].time <= reqs[j].time
  }

  function Calls(lim: Limits, reqs: seq<Request>): (map<Bucket, seq<real>>, seq<Verdict>)
    requires lim.Valid()
  {
    if reqs == [] then (map[], [])
    else
      var r := reqs[|reqs| - 1];
      var (requests, verdicts) := Calls(lim, reqs[..|reqs| - 1]);
      var (after, verdict) := Call(lim, requests, r.key, r.time);
      (after, verdicts + [verdict])
  }

  function NaiveCalls(lim: Limits, reqs: seq<Request>): Naive {
    if reqs == [] then Naive([], {})
    else
      var r := reqs[|reqs| - 1];
      NaiveCall(lim, NaiveCalls(lim, reqs[..|reqs| - 1]), r.key, r.time).0
  }

  ghost predicate SameAnswers(verdicts: seq<Verdict>, events: seq<Event>) {
    && |verdicts| == |events|
    && forall i | 0 <= i < |events| ::
         verdicts[i].bucket == events[i].bucket && verdicts[i].accepted == events[i].accepted
  }

  lemma SimLater(lim: Limits, requests: map<Bucket, seq<real>>, n: Naive, last: real, later: real)
    requires Sim(lim, requests, n, last) && last <= later
    ensures Sim(lim, requests, n, later)
  {
    forall b
      ensures SimAt(lim, requests, n, later, b)
    {
      assert SimAt(lim, requests, n, last, b);
    }
  }

  /** For every sequence of requests in time order, the limiter takes the naive limiter's decisions. */
  lemma {:induction false} SameDecisions(lim: Limits, reqs: seq<Request>, now: real)
    requires lim.Valid() && InOrder(reqs) && (reqs != [] ==> reqs[|reqs| - 1].time <= now)
    ensures SameAnswers(Calls(lim, reqs).1, NaiveCalls(lim, reqs).events)
    ensures Sim(lim, Calls(lim, reqs).0, NaiveCalls(lim, reqs), now)
  {
    if reqs == [] {
      assert forall b :: SimAt(lim, map[], Naive([], {}), now, b);
    } else {
      var r := reqs[|reqs| - 1];
      var before := reqs[..|reqs| - 1];
      SameDecisions(lim, before, r.time);
      StepSim(lim, Calls(lim, before).0, NaiveCalls(lim, before), r.time, r.key, r.time);
      SimLater(lim, Calls(lim, reqs).0, NaiveCalls(lim, reqs), r.time, now);
    }
  }

  // ------------------------------------------------------------- the bounds

  ghost predicate FewKeys(keys: set<Bucket>) {
    |keys| <= if Overflow in keys then MAX_BUCKETS + 1 else MAX_BUCKETS
  }

  ghost predicate ShortDeques(lim: Limits, requests: map<Bucket, seq<real>>) {
    forall b | b in requests :: |requests[b]| <= lim.max
  }

  lemma {:induction false} PrunedShorter(times: seq<real>, t: real)
    ensures |Pruned(times, t)| <= |times|
  {
    if times != [] && times[0] <= t {
      PrunedShorter(times[1..], t);
    }
  }

  lemma FewerKeys(a: set<Bucket>, b: set<Bucket>)
    requires a <= b && FewKeys(b)
    ensures FewKeys(a)
  {
    if Overflow in b && Overflow !in a {
      SubsetSmaller(a + {Overflow}, b);
    } else {
      SubsetSmaller(a, b);
    }
  }

  lemma OneMoreKey(keys: set<Bucket>, client: Bucket)
    requires FewKeys(keys) && client != Overflow
    ensures FewKeys(keys + {NaiveChosen(keys, client)})
  {
    var b := NaiveChosen(keys, client);
    if b in keys {
      assert keys + {b} == keys;
    }
  }

  lemma SweptShort(lim: Limits, requests: map<Bucket, seq<real>>, client: Bucket, th: real)
    requires ShortDeques(lim, requests)
    ensures AfterSweep(requests, client, th).Keys <= requests.Keys
    ensures ShortDeques(lim, AfterSweep(requests, client, th))
  {
    var kept := AfterSweep(requests, client, th);
    forall b | b in kept
      ensures |kept[b]| <= lim.max
    {
      PrunedShorter(requests[b], th);
    }
  }

  lemma RecordShort(lim: Limits, kept: map<Bucket, seq<real>>, b: Bucket, now: real)
    requires lim.Valid() && ShortDeques(lim, kept)
    ensures Record(lim, kept, b, now).0.Keys == kept.Keys + {b}
    ensures ShortDeques(lim, Record(lim, kept, b, now).0)
  {
    PrunedShorter(DequeOf(kept, b), now - lim.window);
  }

  ghost predicate Small(lim: Limits, requests: map<Bucket, seq<real>>) {
    FewKeys(requests.Keys) && ShortDeques(lim, requests)
  }

  lemma RecordSmall(lim: Limits, kept: map<Bucket, seq<real>>, client: Bucket, b: Bucket, now: real)
    requires lim.Valid() && Small(lim, kept) && client != Overflow && b == Chosen(kept, client)
    ensures Small(lim, Record(lim, kept, b, now).0)
  {
    SameChoice(kept, kept.Keys, client);
    OneMoreKey(kept.Keys, client);
    RecordShort(lim, kept, b, now);
  }

  lemma SweptSmall(lim: Limits, requests: map<Bucket, seq<real>>, kept: map<Bucket, seq<real>>, client: Bucket, th: real)
    requires Small(lim, requests) && kept == AfterSweep(requests, client, th)
    ensures Small(lim, kept)
  {
    SweptShort(lim, requests, client, th);
    FewerKeys(kept.Keys, requests.Keys);
  }

  lemma CallIs(lim: Limits, requests: map<Bucket, seq<real>>, key: string, now: real)
    returns (kept: map<Bucket, seq<real>>, b: Bucket)
    requires lim.Valid() && Small(lim, requests)
    ensures Small(lim, kept) && b == Chosen(kept, Client(key))
    ensures Call(lim, requests, key, now) == Record(lim, kept, b, now)
  {
    kept := AfterSweep(requests, Client(key), now - lim.window);
    SweptSmall(lim, requests, kept, Client(key), now - lim.window);
    b := Chosen(kept, Client(key));
  }

  lemma CallSmall(lim: Limits, requests: map<Bucket, seq<real>>, key: string, now: real)
    requires lim.Valid() && Small(lim, requests)
    ensures Small(lim, Call(lim, requests, key, now).0)
  {
    var kept, b := CallIs(lim, requests, key, now);
    RecordSmall(lim, kept, Client(key), b, now);
  }

  /** Memory stays bounded whatever the requests and their times are: at most 4096 buckets for
      clients and one for the overflow, none with more than `max` entries. */
  lemma {:induction false} BoundedMemory(lim: Limits, reqs: seq<Request>)
    requires lim.Valid()
    ensures var all := Calls(lim, reqs).0;
            && |all.Keys - {Overflow}| <= MAX_BUCKETS && |all.Keys| <= MAX_BUCKETS + 1
            && forall b | b in all :: |all[b]| <= lim.max
  {
    MemorySmall(lim, reqs);
    FewClients(Calls(lim, reqs).0.Keys);
  }

  lemma FewClients(keys: set<Bucket>)
    requires FewKeys(keys)
    ensures |keys - {Overflow}| <= MAX_BUCKETS
  {
    if Overflow in keys {
      assert keys == (keys - {Overflow}) + {Overflow};
    } else {
      assert keys == keys - {Overflow};
    }
  }

  lemma {:induction false} MemorySmall(lim: Limits, reqs: seq<Request>)
    requires lim.Valid()
    ensures Small(lim, Calls(lim, reqs).0)
  {
    if reqs != [] {
      var r := reqs[|reqs| - 1];
      MemorySmall(lim, reqs[..|reqs| - 1]);
      CallSmall(lim, Calls(lim, reqs[..|reqs| - 1]).0, r.key, r.time);
    }
  }

  // ------------------------------------------------- what one client can get

  /** Every entry was logged while fewer than `max` entries lay in the window before it. */
  ghost predicate Spaced(lim: Limits, log: seq<real>) {
    log == [] ||
    (var before, t := log[..|log| - 1], log[|log| - 1];
     Spaced(lim, before) && UpTo(before, t) && CountIn(before, t - lim.window, t) < lim.max)
  }

  lemma {:induction false} CountMonotone(log: seq<real>, lo: real, hi: real, lo': real, hi': real)
    requires lo' <= lo && (hi <= hi' || UpTo(log, hi'))
    ensures CountIn(log, lo, hi) <= CountIn(log, lo', hi')
  {
    if log != [] {
      CountMonotone(log[..|log| - 1], lo, hi, lo', hi');
    }
  }

  /** So no window of that length, wherever it lies, holds more than `max` entries. */
  lemma {:induction false} SpacedWindow(lim: Limits, log: seq<real>, t: real)
    requires lim.Valid() && Spaced(lim, log)
    ensures CountIn(log, t - lim.window, t) <= lim.max
  {
    if log != [] {
      var before, last := log[..|log| - 1], log[|log| - 1];
      SpacedWindow(lim, before, t);
      if t - lim.window < last <= t {
        CountMonotone(before, t - lim.window, t, last - lim.window, last);
      }
    }
  }

  lemma SpacedAppend(lim: Limits, log: seq<real>, t: real)
    requires Spaced(lim, log) && UpTo(log, t) && CountIn(log, t - lim.window, t) < lim.max
    ensures Spaced(lim, log + [t])
  {
    assert (log + [t])[..|log|] == log;
  }

  lemma LogSpaced(lim: Limits, events: seq<Event>, e: Event, b: Bucket, log: seq<real>)
    requires log == LogOf(events, b) && Spaced(lim, log) && UpTo(log, e.time)
    requires e.accepted && e.bucket == b ==> CountIn(log, e.time - lim.window, e.time) < lim.max
    ensures Spaced(lim, LogOf(events + [e], b)) && UpTo(LogOf(events + [e], b), e.time)
  {
    LogAppend(events, e, b);
    if e.accepted && e.bucket == b {
      SpacedAppend(lim, log, e.time);
    }
  }

  lemma CallSpaced(lim: Limits, n: Naive, key: string, now: real, b: Bucket)
    requires Spaced(lim, LogOf(n.events, b)) && UpTo(LogOf(n.events, b), now)
    ensures Spaced(lim, LogOf(NaiveCall(lim, n, key, now).0.events, b))
    ensures UpTo(LogOf(NaiveCall(lim, n, key, now).0.events, b), now)
  {
    var e := NaiveCall(lim, n, key, now).1;
    NaiveEvent(lim, n, key, now, e);
    LogSpaced(lim, n.events, e, b, LogOf(n.events, b));
  }

  lemma {:induction false} LogsSpaced(lim: Limits, reqs: seq<Request>, b: Bucket, now: real)
    requires lim.Valid() && InOrder(reqs) && (reqs != [] ==> reqs[|reqs| - 1].time <= now)
    ensures Spaced(lim, LogOf(NaiveCalls(lim, reqs).events, b))
    ensures UpTo(LogOf(NaiveCalls(lim, reqs).events, b), now)
  {
    if reqs == [] {
    } else {
      var r := reqs[|reqs| - 1];
      LogsSpaced(lim, reqs[..|reqs| - 1], b, r.time);
      CallSpaced(lim, NaiveCalls(lim, reqs[..|reqs| - 1]), r.key, r.time, b);
    }
  }

  /** How many of a client's accepted requests lie in (lo, hi]. */
  function AcceptedIn(events: seq<Event>, key: string, lo: real, hi: real): nat {
    if events == [] then 0
    else
      var e := events[|events| - 1];
      AcceptedIn(events[..|events| - 1], key, lo, hi)
      + if e.accepted && e.key == key && lo < e.time <= hi then 1 else 0
  }

  ghost predicate OwnOrOverflow(events: seq<Event>) {
    forall i | 0 <= i < |events| :: events[i].bucket == Client(events[i].key) || events[i].bucket == Overflow
  }

  lemma CountAppend(log: seq<real>, t: real, lo: real, hi: real)
    ensures CountIn(log + [t], lo, hi) == CountIn(log, lo, hi) + if lo < t <= hi then 1 else 0
  {
    assert (log + [t])[..|log|] == log;
  }

  /** One more event counts in the log of its bucket when it was accepted. */
  lemma CountLogged(before: seq<Event>, e: Event, b: Bucket, lo: real, hi: real)
    ensures CountIn(LogOf(before + [e], b), lo, hi)
            == CountIn(LogOf(before, b), lo, hi) + if e.accepted && e.bucket == b && lo < e.time <= hi then 1 else 0
  {
    LogAppend(before, e, b);
    CountAppend(LogOf(before, b), e.time, lo, hi);
  }

  lemma {:induction false} AcceptedLogged(events: seq<Event>, key: string, lo: real, hi: real)
    requires OwnOrOverflow(events)
    ensures AcceptedIn(events, key, lo, hi)
            <= CountIn(LogOf(events, Client(key)), lo, hi) + CountIn(LogOf(events, Overflow), lo, hi)
  {
    if events != [] {
      var before, e := events[..|events| - 1], events[|events| - 1];
      AcceptedLogged(before, key, lo, hi);
      assert before + [e] == events && (e.bucket == Client(e.key) || e.bucket == Overflow);
      CountLogged(before, e, Client(key), lo, hi);
      CountLogged(before, e, Overflow, lo, hi);
    }
  }

  lemma {:induction false} BucketsOwned(lim: Limits, reqs: seq<Request>)
    ensures OwnOrOverflow(NaiveCalls(lim, reqs).events)
  {
    if reqs != [] {
      BucketsOwned(lim, reqs[..|reqs| - 1]);
    }
  }

  /** In every window a client gets at most twice `max` requests through, for every sequence of
      requests in time order: its own bucket and the overflow bucket each give at most `max`. */
  lemma {:induction false} TwiceMax(lim: Limits, reqs: seq<Request>, key: string, t: real)
    requires lim.Valid() && InOrder(reqs)
    ensures AcceptedIn(NaiveCalls(lim, reqs).events, key, t - lim.window, t) <= 2 * lim.max
  {
    BucketsOwned(lim, reqs);
    AcceptedLogged(NaiveCalls(lim, reqs).events, key, t - lim.window, t);
    WindowOfBucket(lim, reqs, Client(key), t);
    WindowOfBucket(lim, reqs, Overflow, t);
  }

  lemma {:induction false} WindowOfBucket(lim: Limits, reqs: seq<Request>, b: Bucket, t: real)
    requires lim.Valid() && InOrder(reqs)
    ensures CountIn(LogOf(NaiveCalls(lim, reqs).events, b), t - lim.window, t) <= lim.max
  {
    LogsSpaced(lim, reqs, b, if reqs == [] then 0.0 else reqs[|reqs| - 1].time);
    SpacedWindow(lim, LogOf(NaiveCalls(lim, reqs).events, b), t);
  }

  // ------------------------------------------------------------- retrying

  lemma {:induction false} PrunedKeepsAll(times: seq<real>, t: real)
    requires times != [] ==> times[0] > t
    ensures Pruned(times, t) == times
  {
  }

  lemma {:induction false} PrunedHead(times: seq<real>, t: real)
    ensures Pruned(times, t) != [] ==> Pruned(times, t)[0] > t
  {
    if times != [] && times[0] <= t {
      PrunedHead(times[1..], t);
    }
  }

  /** The same on one deque: a rejected request is told a positive wait, and a request that finds
      the deque as that one left it is accepted exactly when the wait is over. */
  lemma RetryExact(lim: Limits, deque: seq<real>, b: Bucket, now: real, later: real)
    requires lim.Valid() && |deque| <= lim.max && now <= later
    ensures var live := Pruned(deque, now - lim.window);
            var verdict := Decide(lim, live, b, now);
            && (verdict.accepted <==> |live| < lim.max)
            && (verdict.accepted ==> verdict.retryAfter == 0.0)
            && (!verdict.accepted ==>
                  && verdict.retryAfter > 0.0
                  && (Decide(lim, Pruned(live, later - lim.window), b, later).accepted
                      <==> later >= now + verdict.retryAfter))
  {
    var live := Pruned(deque, now - lim.window);
    PrunedShorter(deque, now - lim.window);
    PrunedHead(deque, now - lim.window);
    if |live| >= lim.max {
      if live[0] <= later - lim.window {
        PrunedShorter(live[1..], later - lim.window);
      }
    }
  }

  lemma {:induction false} OneVerdictEach(lim: Limits, reqs: seq<Request>)
    requires lim.Valid()
    ensures |Calls(lim, reqs).1| == |reqs| == |NaiveCalls(lim, reqs).events|
  {
    if reqs != [] {
      OneVerdictEach(lim, reqs[..|reqs| - 1]);
    }
  }

  /** A verdict as the full log of its bucket gives it. */
  ghost predicate Judged(lim: Limits, v: Verdict, log: seq<real>, now: real)
    requires lim.Valid()
  {
    var live := Pruned(log, now - lim.window);
    v == Decide(lim, live, v.bucket, now) && |live| <= lim.max
  }

  lemma DequeJudges(lim: Limits, kept: map<Bucket, seq<real>>, log: seq<real>, b: Bucket, now: real)
    requires lim.Valid() && SameFrom(DequeOf(kept, b), log, now - lim.window) && ShortDeques(lim, kept)
    ensures Judged(lim, Record(lim, kept, b, now).1, log, now) && Record(lim, kept, b, now).1.bucket == b
  {
    var th := now - lim.window;
    assert Pruned(DequeOf(kept, b), th) == Pruned(log, th);
    PrunedShorter(DequeOf(kept, b), th);
  }

  lemma CallJudges(lim: Limits, requests: map<Bucket, seq<real>>, n: Naive, key: string, now: real)
    requires lim.Valid() && Sim(lim, requests, n, now) && ShortDeques(lim, requests)
    ensures var v := Call(lim, requests, key, now).1; Judged(lim, v, LogOf(n.events, v.bucket), now)
  {
    var kept, b := CallSplitAt(lim, requests, n, key, now);
    SweptShort(lim, requests, Client(key), now - lim.window);
    DequeJudges(lim, kept, LogOf(n.events, b), b, now);
  }

  /** The same at the bucket of one call alone. */
  lemma CallSplitAt(lim: Limits, requests: map<Bucket, seq<real>>, n: Naive, key: string, now: real)
    returns (kept: map<Bucket, seq<real>>, b: Bucket)
    requires lim.Valid() && Sim(lim, requests, n, now)
    ensures kept == AfterSweep(requests, Client(key), now - lim.window)
    ensures Call(lim, requests, key, now) == Record(lim, kept, b, now)
    ensures SameFrom(DequeOf(kept, b), LogOf(n.events, b), now - lim.window)
  {
    var k;
    kept, k, b := CallsSplit(lim, requests, n, now, key, now);
    assert SimAt(lim, kept, k, now, b);
  }

  /** These requests come before the one of number i. */
  ghost predicate Splits(reqs: seq<Request>, before: seq<Request>, i: nat) {
    i < |reqs| && before == reqs[..i]
  }

  lemma {:induction false} InOrderBefore(reqs: seq<Request>, before: seq<Request>, i: nat)
    requires InOrder(reqs) && Splits(reqs, before, i)
    ensures InOrder(before) && (before != [] ==> before[|before| - 1].time <= reqs[i].time)
  {
  }

  /** A request is judged by what is left, at its time, of the full log of its bucket. */
  lemma {:induction false} NextVerdict(lim: Limits, before: seq<Request>, r: Request)
    requires lim.Valid() && InOrder(before) && (before != [] ==> before[|before| - 1].time <= r.time)
    ensures var v := Call(lim, Calls(lim, before).0, r.key, r.time).1;
            Judged(lim, v, LogOf(NaiveCalls(lim, before).events, v.bucket), r.time)
  {
    SameDecisions(lim, before, r.time);
    MemorySmall(lim, before);
    CallJudges(lim, Calls(lim, before).0, NaiveCalls(lim, before), r.key, r.time);
  }

  lemma {:induction false} CallsMore(lim: Limits, before: seq<Request>, r: Request)
    requires lim.Valid()
    ensures Calls(lim, before + [r]).1 == Calls(lim, before).1 + [Call(lim, Calls(lim, before).0, r.key, r.time).1]
    ensures NaiveCalls(lim, before + [r]) == NaiveCall(lim, NaiveCalls(lim, before), r.key, r.time).0
  {
    assert (before + [r])[..|before + [r]| - 1] == before;
  }

  lemma LastOfPrefix<T>(all: seq<T>, front: seq<T>, x: T)
    requires |front| < |all| && all[..|front| + 1] == front + [x]
    ensures all[|front|] == x
  {
    assert all[|front|] == all[..|front| + 1][|front|];
  }

  lemma {:induction false} VerdictIs(lim: Limits, reqs: seq<Request>, before: seq<Request>, i: nat)
    requires lim.Valid() && Splits(reqs, before, i)
    ensures |Calls(lim, reqs).1| == |reqs|
    ensures Calls(lim, reqs).1[i] == Call(lim, Calls(lim, before).0, reqs[i].key, reqs[i].time).1
  {
    var r := reqs[i];
    assert reqs[..i + 1] == before + [r];
    CallsPrefix(lim, reqs, i + 1);
    OneVerdictEach(lim, before);
    CallsMore(lim, before, r);
    LastOfPrefix(Calls(lim, reqs).1, Calls(lim, before).1, Call(lim, Calls(lim, before).0, r.key, r.time).1);
  }

  lemma {:induction false} VerdictAt(lim: Limits, reqs: seq<Request>, before: seq<Request>, i: nat)
    requires lim.Valid() && InOrder(reqs) && Splits(reqs, before, i)
    ensures |Calls(lim, reqs).1| == |reqs|
    ensures var v := Calls(lim, reqs).1[i]; Judged(lim, v, LogOf(NaiveCalls(lim, before).events, v.bucket), reqs[i].time)
  {
    VerdictIs(lim, reqs, before, i);
    InOrderBefore(reqs, before, i);
    NextVerdict(lim, before, reqs[i]);
  }

  /** While nothing is accepted there, the log of a bucket stays as it is. */
  lemma {:induction false} QuietLog(events: seq<Event>, b: Bucket, i: nat, j: nat)
    requires i <= j <= |events| && forall k | i <= k < j && events[k].bucket == b :: !events[k].accepted
    ensures LogOf(events[..j], b) == LogOf(events[..i], b)
    decreases j
  {
    if i < j {
      QuietLog(events, b, i, j - 1);
      LogAppend(events[..j - 1], events[j - 1], b);
      assert events[..j] == events[..j - 1] + [events[j - 1]];
    }
  }

  lemma {:induction false} EventsPrefix(lim: Limits, reqs: seq<Request>, j: nat)
    requires j <= |reqs|
    ensures |NaiveCalls(lim, reqs).events| == |reqs|
    ensures NaiveCalls(lim, reqs).events[..j] == NaiveCalls(lim, reqs[..j]).events
    decreases |reqs|
  {
    if j == |reqs| {
      assert reqs[..j] == reqs;
      if reqs != [] { EventsPrefix(lim, reqs[..j - 1], j - 1); }
    } else {
      EventsPrefix(lim, reqs[..|reqs| - 1], j);
      assert reqs[..|reqs| - 1][..j] == reqs[..j];
    }
  }

  lemma {:induction false} CallsPrefix(lim: Limits, reqs: seq<Request>, j: nat)
    requires lim.Valid() && j <= |reqs|
    ensures |Calls(lim, reqs).1| == |reqs| && Calls(lim, reqs).1[..j] == Calls(lim, reqs[..j]).1
    decreases |reqs|
  {
    OneVerdictEach(lim, reqs);
    if j == |reqs| {
      assert reqs[..j] == reqs;
    } else {
      var before := reqs[..|reqs| - 1];
      assert before[..j] == reqs[..j];
      CallsPrefix(lim, before, j);
      OneVerdictEach(lim, before);
      CallsFront(lim, reqs, before);
      FrontOfFront(Calls(lim, reqs).1, Calls(lim, before).1, j);
    }
  }

  lemma {:induction false} CallsFront(lim: Limits, reqs: seq<Request>, before: seq<Request>)
    requires lim.Valid() && reqs != [] && before == reqs[..|reqs| - 1]
    ensures |Calls(lim, before).1| <= |Calls(lim, reqs).1| && Calls(lim, reqs).1[..|Calls(lim, before).1|] == Calls(lim, before).1
  {
  }

  lemma FrontOfFront<T>(all: seq<T>, front: seq<T>, j: nat)
    requires j <= |front| <= |all| && all[..|front|] == front
    ensures all[..j] == front[..j]
  {
  }

  lemma JudgedWaits(lim: Limits, v: Verdict, log: seq<real>, now: real)
    requires lim.Valid() && Judged(lim, v, log, now)
    ensures v.retryAfter > 0.0 <==> !v.accepted
  {
    PrunedHead(log, now - lim.window);
  }

  /** The code answers by a positive wait. At every request of every sequence in time order it does
      so exactly when the request is rejected, by the pruned deques and by the full logs alike. */
  lemma {:induction false} WaitTells(lim: Limits, reqs: seq<Request>, i: nat)
    requires lim.Valid() && InOrder(reqs) && i < |reqs|
    ensures |Calls(lim, reqs).1| == |reqs| == |NaiveCalls(lim, reqs).events|
    ensures Calls(lim, reqs).1[i].retryAfter > 0.0 <==> !Calls(lim, reqs).1[i].accepted
    ensures Calls(lim, reqs).1[i].accepted <==> NaiveCalls(lim, reqs).events[i].accepted
  {
    SameDecisions(lim, reqs, reqs[|reqs| - 1].time);
    VerdictAt(lim, reqs, reqs[..i], i);
    var v := Calls(lim, reqs).1[i];
    JudgedWaits(lim, v, LogOf(NaiveCalls(lim, reqs[..i]).events, v.bucket), reqs[i].time);
  }

  /** In any sequence of requests in time order, whatever other requests and sweeps lie between: a
      rejected request is told a positive wait, and a later one that is judged at the same bucket,
      with nothing accepted there since, is accepted if and only if that wait is over. */
  lemma {:induction false} RetryTheorem(lim: Limits, reqs: seq<Request>, i: nat, j: nat)
    requires lim.Valid() && InOrder(reqs) && i < j < |reqs| == |Calls(lim, reqs).1|
    requires var vs := Calls(lim, reqs).1;
             && !vs[i].accepted && vs[j].bucket == vs[i].bucket
             && forall k | i < k < j && vs[k].bucket == vs[i].bucket :: !vs[k].accepted
    ensures var vs := Calls(lim, reqs).1;
            vs[i].retryAfter > 0.0 && (vs[j].accepted <==> reqs[j].time >= reqs[i].time + vs[i].retryAfter)
  {
    var vs, events := Calls(lim, reqs).1, NaiveCalls(lim, reqs).events;
    VerdictAt(lim, reqs, reqs[..i], i);
    VerdictAt(lim, reqs, reqs[..j], j);
    SameDecisions(lim, reqs, reqs[|reqs| - 1].time);
    SameLogs(lim, reqs, vs, events, vs[i].bucket, i, j);
    RetryJudged(lim, LogOf(NaiveCalls(lim, reqs[..i]).events, vs[i].bucket), vs[i], reqs[i].time, vs[j], reqs[j].time);
  }

  lemma {:induction false} SameLogs(lim: Limits, reqs: seq<Request>, vs: seq<Verdict>, events: seq<Event>, b: Bucket, i: nat, j: nat)
    requires events == NaiveCalls(lim, reqs).events && SameAnswers(vs, events) && i <= j <= |reqs| == |vs|
    requires forall k | i <= k < j && vs[k].bucket == b :: !vs[k].accepted
    ensures LogOf(NaiveCalls(lim, reqs[..j]).events, b) == LogOf(NaiveCalls(lim, reqs[..i]).events, b)
  {
    EventsPrefix(lim, reqs, i);
    EventsPrefix(lim, reqs, j);
    forall k | i <= k < j && events[k].bucket == b
      ensures !events[k].accepted
    {
      assert vs[k].bucket == b;
    }
    QuietLog(events, b, i, j);
  }

  lemma RetryJudged(lim: Limits, log: seq<real>, v: Verdict, now: real, w: Verdict, later: real)
    requires lim.Valid() && Judged(lim, v, log, now) && Judged(lim, w, log, later)
    requires !v.accepted && w.bucket == v.bucket && now <= later
    ensures v.retryAfter > 0.0 && (w.accepted <==> later >= now + v.retryAfter)
  {
    var th := now - lim.window;
    var live := Pruned(log, th);
    PrunedHead(log, th);
    PrunedKeepsAll(live, th);
    PrunedTwice(log, th, later - lim.window);
    RetryExact(lim, live, v.bucket, now, later);
  }

  // ------------------------------------------- the decisions, from the answers

  /** The earlier requests that count against the one of number i at a bucket. */
  function Prior(lim: Limits, reqs: seq<Request>, vs: seq<Verdict>, i: nat, b: Bucket): set<nat>
    requires i < |reqs| <= |vs|
  {
    set k: nat | k < i && vs[k].accepted && vs[k].bucket == b && reqs[i].time - lim.window < reqs[k].time
  }

  function Hits(events: seq<Event>, b: Bucket, lo: real, hi: real): set<nat> {
    set k: nat | k < |events| && events[k].accepted && events[k].bucket == b && lo < events[k].time <= hi
  }

  lemma {:induction false} CountHits(events: seq<Event>, b: Bucket, lo: real, hi: real)
    ensures CountIn(LogOf(events, b), lo, hi) == |Hits(events, b, lo, hi)|
  {
    if events != [] {
      var before, e := events[..|events| - 1], events[|events| - 1];
      CountHits(before, b, lo, hi);
      assert before + [e] == events;
      CountLogged(before, e, b, lo, hi);
      HitsMore(before, e, b, lo, hi);
    }
  }

  lemma HitsMore(before: seq<Event>, e: Event, b: Bucket, lo: real, hi: real)
    ensures |Hits(before + [e], b, lo, hi)|
            == |Hits(before, b, lo, hi)| + if e.accepted && e.bucket == b && lo < e.time <= hi then 1 else 0
  {
    var n := |before|;
    assert n !in Hits(before, b, lo, hi);
    assert Hits(before + [e], b, lo, hi) == Hits(before, b, lo, hi) + if e.accepted && e.bucket == b && lo < e.time <= hi then {n} else {};
  }

  lemma {:induction false} EventTimes(lim: Limits, reqs: seq<Request>, k: nat)
    requires k < |reqs|
    ensures |NaiveCalls(lim, reqs).events| == |reqs|
    ensures NaiveCalls(lim, reqs).events[k].time == reqs[k].time && NaiveCalls(lim, reqs).events[k].key == reqs[k].key
    decreases |reqs|
  {
    EventsPrefix(lim, reqs, |reqs|);
    EventsPrefix(lim, reqs[..|reqs| - 1], |reqs| - 1);
    if k < |reqs| - 1 {
      EventTimes(lim, reqs[..|reqs| - 1], k);
    }
  }

  /** The answers and the events of one sequence of requests. */
  ghost predicate Tracks(reqs: seq<Request>, vs: seq<Verdict>, events: seq<Event>) {
    && |vs| == |reqs| == |events|
    && forall k | 0 <= k < |reqs| ::
         events[k].time == reqs[k].time && events[k].bucket == vs[k].bucket && events[k].accepted == vs[k].accepted
  }

  lemma {:induction false} Tracked(lim: Limits, reqs: seq<Request>)
    requires lim.Valid() && InOrder(reqs)
    ensures Tracks(reqs, Calls(lim, reqs).1, NaiveCalls(lim, reqs).events)
  {
    OneVerdictEach(lim, reqs);
    SameDecisions(lim, reqs, if reqs == [] then 0.0 else reqs[|reqs| - 1].time);
    forall k | 0 <= k < |reqs|
      ensures NaiveCalls(lim, reqs).events[k].time == reqs[k].time
    {
      EventTimes(lim, reqs, k);
    }
  }

  /** What the full log counts is what the answers so far say. */
  lemma {:induction false} PriorCount(lim: Limits, reqs: seq<Request>, vs: seq<Verdict>, events: seq<Event>, i: nat, b: Bucket)
    requires InOrder(reqs) && Tracks(reqs, vs, events) && i < |reqs|
    ensures CountIn(LogOf(events[..i], b), reqs[i].time - lim.window, reqs[i].time) == |Prior(lim, reqs, vs, i, b)|
  {
    CountHits(events[..i], b, reqs[i].time - lim.window, reqs[i].time);
    assert Hits(events[..i], b, reqs[i].time - lim.window, reqs[i].time) == Prior(lim, reqs, vs, i, b);
  }

  /** One more request of the naive limiter. */
  lemma {:induction false} NaiveAt(lim: Limits, reqs: seq<Request>, i: nat, n: Naive)
    requires i < |reqs| && n == NaiveCalls(lim, reqs[..i])
    ensures |NaiveCalls(lim, reqs).events| == |reqs| && NaiveCalls(lim, reqs).events[..i] == n.events
    ensures NaiveCalls(lim, reqs[..i + 1]) == NaiveCall(lim, n, reqs[i].key, reqs[i].time).0
    ensures NaiveCalls(lim, reqs).events[i] == NaiveCall(lim, n, reqs[i].key, reqs[i].time).1
  {
    EventsPrefix(lim, reqs, i);
    EventsPrefix(lim, reqs, i + 1);
    assert reqs[..i + 1][..i] == reqs[..i];
    LastOfPrefix(NaiveCalls(lim, reqs).events, n.events, NaiveCall(lim, n, reqs[i].key, reqs[i].time).1);
  }

  lemma NaiveEvent(lim: Limits, n: Naive, key: string, now: real, e: Event)
    requires e == NaiveCall(lim, n, key, now).1
    ensures NaiveCall(lim, n, key, now).0.events == n.events + [e] && e.time == now
    ensures e.accepted <==> CountIn(LogOf(n.events, e.bucket), now - lim.window, now) < lim.max
  {
    var k := n.(present := NaivePresent(n, Client(key), now - lim.window, now));
    NaiveSplits(lim, n, key, now, k);
    RecordIs(lim, k, key, NaiveChosen(k.present, Client(key)), now);
  }

  lemma RecordIs(lim: Limits, n: Naive, key: string, b: Bucket, now: real)
    ensures var (m, e) := NaiveRecord(lim, n, key, b, now);
            m.events == n.events + [e] && m.present == n.present + {b} && e.time == now && e.bucket == b
            && (e.accepted <==> CountIn(LogOf(n.events, b), now - lim.window, now) < lim.max)
  {
  }

  lemma {:induction false} DecisionFrom(lim: Limits, reqs: seq<Request>, vs: seq<Verdict>, events: seq<Event>, n: Naive, i: nat)
    requires InOrder(reqs) && Tracks(reqs, vs, events) && i < |reqs| && events[..i] == n.events
    requires events[i] == NaiveCall(lim, n, reqs[i].key, reqs[i].time).1
    ensures vs[i].accepted <==> |Prior(lim, reqs, vs, i, vs[i].bucket)| < lim.max
  {
    NaiveEvent(lim, n, reqs[i].key, reqs[i].time, events[i]);
    PriorCount(lim, reqs, vs, events, i, vs[i].bucket);
  }

  /** Every decision from the answers before it: a request is accepted exactly when fewer than `max`
      of the earlier ones that were accepted at its bucket lie within the window. */
  lemma {:induction false} DecisionTells(lim: Limits, reqs: seq<Request>, i: nat)
    requires lim.Valid() && InOrder(reqs) && i < |reqs| == |Calls(lim, reqs).1|
    ensures var vs := Calls(lim, reqs).1;
            vs[i].accepted <==> |Prior(lim, reqs, vs, i, vs[i].bucket)| < lim.max
  {
    var n := NaiveCalls(lim, reqs[..i]);
    Tracked(lim, reqs);
    NaiveAt(lim, reqs, i, n);
    DecisionFrom(lim, reqs, Calls(lim, reqs).1, NaiveCalls(lim, reqs).events, n, i);
  }

  /** The buckets in use in which some request was accepted within the window. */
  ghost function Live(lim: Limits, reqs: seq<Request>, vs: seq<Verdict>, i: nat, keys: set<Bucket>): set<Bucket>
    requires i < |reqs| <= |vs|
  {
    set b | b in keys && Prior(lim, reqs, vs, i, b) != {}
  }

  lemma {:induction false} KeysAre(lim: Limits, reqs: seq<Request>)
    requires lim.Valid() && InOrder(reqs)
    ensures Calls(lim, reqs).0.Keys == NaiveCalls(lim, reqs).present
  {
    SameDecisions(lim, reqs, if reqs == [] then 0.0 else reqs[|reqs| - 1].time);
  }

  lemma PresentTells(n: Naive, client: Bucket, lo: real, hi: real, live: set<Bucket>)
    requires live == NaiveLive(n, lo, hi)
    ensures var p := NaivePresent(n, client, lo, hi);
            && p == (if client !in n.present && |n.present| >= 4096 then live else n.present)
            && NaiveChosen(p, client) == (if client !in n.present && |live| >= 4096 then Overflow else client)
  {
    SubsetSmaller(live, n.present);
  }

  lemma NaiveBucket(lim: Limits, n: Naive, key: string, now: real, live: set<Bucket>)
    requires live == NaiveLive(n, now - lim.window, now)
    ensures var (m, e) := NaiveCall(lim, n, key, now);
            && e.bucket == (if Client(key) !in n.present && |live| >= 4096 then Overflow else Client(key))
            && m.present == (if Client(key) !in n.present && |n.present| >= 4096 then live else n.present) + {e.bucket}
  {
    PresentTells(n, Client(key), now - lim.window, now, live);
    var p := NaivePresent(n, Client(key), now - lim.window, now);
    RecordIs(lim, n.(present := p), key, NaiveChosen(p, Client(key)), now);
    NaiveSplits(lim, n, key, now, n.(present := p));
  }

  lemma {:induction false} BucketFrom(lim: Limits, reqs: seq<Request>, vs: seq<Verdict>, events: seq<Event>, n: Naive, i: nat)
    requires InOrder(reqs) && Tracks(reqs, vs, events) && i < |reqs| && events[..i] == n.events
    requires events[i] == NaiveCall(lim, n, reqs[i].key, reqs[i].time).1
    ensures var live := Live(lim, reqs, vs, i, n.present);
            var client := Client(reqs[i].key);
            && vs[i].bucket == (if client !in n.present && |live| >= 4096 then Overflow else client)
            && NaiveCall(lim, n, reqs[i].key, reqs[i].time).0.present
               == (if client !in n.present && |n.present| >= 4096 then live else n.present) + {vs[i].bucket}
  {
    var now := reqs[i].time;
    forall b | b in n.present
      ensures CountIn(LogOf(n.events, b), now - lim.window, now) > 0 <==> Prior(lim, reqs, vs, i, b) != {}
    {
      PriorCount(lim, reqs, vs, events, i, b);
    }
    assert NaiveLive(n, now - lim.window, now) == Live(lim, reqs, vs, i, n.present);
    NaiveBucket(lim, n, reqs[i].key, now, Live(lim, reqs, vs, i, n.present));
  }

  /** Every choice of a bucket: the client's own, unless it has none in use while 4096 others are live,
      and only then the shared one. Buckets are forgotten only in a sweep, and only those without a
      request in the window. */
  lemma {:induction false} BucketTells(lim: Limits, reqs: seq<Request>, i: nat)
    requires lim.Valid() && InOrder(reqs) && i < |reqs| == |Calls(lim, reqs).1|
    ensures var vs := Calls(lim, reqs).1;
            var keys, after := Calls(lim, reqs[..i]).0.Keys, Calls(lim, reqs[..i + 1]).0.Keys;
            var live := Live(lim, reqs, vs, i, keys);
            var client := Client(reqs[i].key);
            && vs[i].bucket == (if client !in keys && |live| >= 4096 then Overflow else client)
            && after == (if client !in keys && |keys| >= 4096 then live else keys) + {vs[i].bucket}
  {
    var n := NaiveCalls(lim, reqs[..i]);
    KeysAre(lim, reqs[..i]);
    KeysAre(lim, reqs[..i + 1]);
    Tracked(lim, reqs);
    NaiveAt(lim, reqs, i, n);
    BucketFrom(lim, reqs, Calls(lim, reqs).1, NaiveCalls(lim, reqs).events, n, i);
  }

  /** max(1, int(retry_after + 0.999)) */
  function RetryHeader(retryAfter: real): int
    requires retryAfter > 0.0
  {
    var h := (retryAfter + 0.999).Floor;
    if h > 1 then h else 1
  }

  /** The header is the wait rounded up, give or take: it can undershoot by less than a
      thousandth of a second, and does so exactly when the wait exceeds a whole number of at
      least one second by less than that. */
  lemma HeaderTells(retryAfter: real)
    requires retryAfter > 0.0
    ensures var h := RetryHeader(retryAfter) as real;
            && retryAfter - 0.001 < h
            && (h <= 1.0 || h <= retryAfter + 0.999)
            && (h < retryAfter <==>
                  retryAfter > 1.0 && 0.0 < retryAfter - retryAfter.Floor as real < 0.001)
  {
    var f := retryAfter.Floor;
    var x := retryAfter - f as real;
    assert (retryAfter + 0.999).Floor == if x >= 0.001 then f + 1 else f;
  }

  // ------------------------------------------------------------ the object

  class HttpRateLimit {
    const lim: Limits
    var requests: map<Bucket, seq<real>>

    constructor (lim: Limits)
      ensures this.lim == lim && requests == map[]
    {
      this.lim := lim;
      requests := map[];
    }

    method PopExpired(times: seq<real>, threshold: real) returns (left: seq<real>)
      ensures left == Pruned(times, threshold)
    {
      left := times;
      while left != [] && left[0] <= threshold
        invariant Pruned(left, threshold) == Pruned(times, threshold)
        decreases |left|
      {
        left := left[1..];
      }
    }

    method Sweep(threshold: real)
      modifies this`requests
      ensures requests == Swept(old(requests), threshold)
    {
      var todo := requests.Keys;
      while todo != {}
        invariant todo <= old(requests.Keys)
        invariant forall b | b in todo :: b in requests && requests[b] == old(requests)[b]
        invariant forall b | b in old(requests) && b !in todo ::
                    if Pruned(old(requests)[b], threshold) == [] then b !in requests
                    else b in requests && requests[b] == Pruned(old(requests)[b], threshold)
        invariant requests.Keys <= old(requests.Keys)
        decreases todo
      {
        var b :| b in todo;
        var left := PopExpired(requests[b], threshold);
        if left == [] {
          requests := requests - {b};
        } else {
          requests := requests[b := left];
        }
        todo := todo - {b};
      }
      assert requests == Swept(old(requests), threshold);
    }

    /** One HTTP request from the client with this key; the wait is 0.0 when it is let through. */
    method Handle(key: string, now: real) returns (retryAfter: real)
      requires lim.Valid()
      modifies this`requests
      ensures requests == Call(lim, old(requests), key, now).0
      ensures retryAfter == Call(lim, old(requests), key, now).1.retryAfter
    {
      retryAfter := 0.0;
      var threshold := now - lim.window;
      var bucket := Client(key);
      if bucket !in requests && |requests| >= MAX_BUCKETS {
        Sweep(threshold);
      }
      if bucket !in requests && |requests| >= MAX_BUCKETS {
        bucket := Overflow;
      }
      var times := PopExpired(DequeOf(requests, bucket), threshold);
      if |times| >= lim.max {
        retryAfter := lim.window - (now - times[0]);
        if retryAfter < 0.0 {
          retryAfter := 0.0;
        }
      } else {
        times := times + [now];
      }
      requests := requests[bucket := times];
    }
  }
}
