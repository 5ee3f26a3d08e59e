/** The fixed-window rate limiter of the proxy and the sweeper of its store (src/proxy.ts). */
module RateLimiter {
  import opened Common

  const SWEEP_INTERVAL_MS := 30_000

  datatype Bucket = Bucket(count: nat, resetAt: int)

  datatype Limit = Limit(max: nat, windowMs: int)

  datatype Decision = Decision(count: nat, remaining: nat, resetAt: int, limited: bool)

  type Store = map<string, Bucket>

  function Live(store: Store, key: string, now: int): Option<Bucket> {
    if key in store && store[key].resetAt > now then Some(store[key]) else None
  }

  /** The bucket of a key after one more request. */
  function Hit(b: Option<Bucket>, limit: Limit, now: int): Bucket {
    match b
    case Some(bucket) => Bucket(bucket.count + 1, bucket.resetAt)
    case None => Bucket(1, now + limit.windowMs)
  }

  function Decide(b: Bucket, limit: Limit): Decision {
    Decision(b.count, Max(0, limit.max - b.count), b.resetAt, b.count > limit.max)
  }

  function Swept(store: Store, now: int): Store {
    map key | key in store && store[key].resetAt > now :: store[key]
  }

  /** What happens to the store: requests, and sweeps at any moments whatever. */
  datatype Event = Request(key: string, limit: Limit, at: int) | Sweep(at: int)

  function StoreAfter(store: Store, e: Event): Store {
    match e
    case Request(key, limit, at) => store[key := Hit(Live(store, key, at), limit, at)]
    case Sweep(at) => Swept(store, at)
  }

  /** The store of the process, changed in place by every request. */
  class RateStore {
    var store: Store
    var lastSweepAt: int

    constructor (now: int)
      ensures store == map[] && lastSweepAt == now
    {
      store, lastSweepAt := map[], now;
    }

    /** maybeSweepRateStore */
    method MaybeSweep(now: int)
      modifies this
      ensures if now - old(lastSweepAt) < 30_000 then store == old(store) && lastSweepAt == old(lastSweepAt)
              else store == Swept(old(store), now) && lastSweepAt == now
                   && (forall key :: key in store <==> key in old(store) && now < old(store)[key].resetAt)
                   && (forall key | key in store :: store[key] == old(store)[key])
    {
      if now - lastSweepAt < SWEEP_INTERVAL_MS { return; }
      var pending := store.Keys;
      while pending != {}
        invariant pending <= store.Keys
        invariant forall k :: k in store <==> k in old(store) && (k in pending || old(store)[k].resetAt > now)
        invariant forall k | k in store :: store[k] == old(store)[k]
        invariant lastSweepAt == old(lastSweepAt)
        decreases |pending|
      {
        var key :| key in pending;
        pending := pending - {key};
        if store[key].resetAt <= now { store := store - {key}; }
      }
      lastSweepAt := now;
    }

    /** evaluateRateLimit */
    method Evaluate(key: string, limit: Limit, now: int) returns (d: Decision)
      modifies this
      ensures var due := now - old(lastSweepAt) >= 30_000;
              && store == StoreAfter(if due then StoreAfter(old(store), Sweep(now)) else old(store),
                                     Request(key, limit, now))
              && lastSweepAt == (if due then now else old(lastSweepAt))
      ensures d == Decide(Hit(Live(old(store), key, now), limit, now), limit)
    {
      MaybeSweep(now);
      var bucket: Bucket;
      if key !in store || store[key].resetAt <= now {
        bucket := Bucket(0, now + limit.windowMs);
      } else {
        bucket := store[key];
      }
      bucket := Bucket(bucket.count + 1, bucket.resetAt);
      store := store[key := bucket];
      d := Decision(bucket.count, Max(0, limit.max - bucket.count), bucket.resetAt, bucket.count > limit.max);
    }
  }

  // ---------------------------------------------------------------- sweeping changes nothing

  predicate Chronological(events: seq<Event>) {
    forall i, j | 0 <= i < j < |events| :: events[i].at <= events[j].at
  }

  /** The decisions on the requests, in order. */
  function Decisions(store: Store, events: seq<Event>): seq<Decision>
    decreases |events|
  {
    if events == [] then []
    else
      var e := events[0];
      (match e
       case Request(key, limit, at) => [Decide(Hit(Live(store, key, at), limit, at), limit)]
       case Sweep(_) => [])
      + Decisions(StoreAfter(store, e), events[1..])
  }

  function WithoutSweeps(events: seq<Event>): seq<Event> {
    if events == [] then []
    else (if events[0].Sweep? then [] else [events[0]]) + WithoutSweeps(events[1..])
  }

  /** Two stores that cannot be told apart from now on. */
  ghost predicate SameLive(a: Store, b: Store, now: int) {
    forall key: string, at: int | at >= now :: Live(a, key, at) == Live(b, key, at)
  }

  lemma StepKeepsSameLive(a: Store, b: Store, e: Event)
    requires SameLive(a, b, e.at)
    ensures SameLive(StoreAfter(a, e), if e.Sweep? then b else StoreAfter(b, e), e.at)
  {
    var a', b' := StoreAfter(a, e), if e.Sweep? then b else StoreAfter(b, e);
    forall key: string, at: int | at >= e.at ensures Live(a', key, at) == Live(b', key, at) {
      assert Live(a, key, at) == Live(b, key, at);
      assert e.Request? ==> Live(a, e.key, e.at) == Live(b, e.key, e.at);
    }
  }

  lemma {:induction false} SweepsInvisible(a: Store, b: Store, events: seq<Event>)
    requires Chronological(events)
    requires events != [] ==> SameLive(a, b, events[0].at)
    ensures Decisions(a, events) == Decisions(b, WithoutSweeps(events))
    decreases |events|
  {
    if events != [] {
      var e := events[0];
      var rest := events[1..];
      var b' := if e.Sweep? then b else StoreAfter(b, e);
      StepKeepsSameLive(a, b, e);
      if e.Request? {
        assert Live(a, e.key, e.at) == Live(b, e.key, e.at);
        assert ([e] + WithoutSweeps(rest))[1..] == WithoutSweeps(rest);
      } else {
        assert WithoutSweeps(events) == WithoutSweeps(rest);
      }
      SweepsInvisible(StoreAfter(a, e), b', rest);
    }
  }

  /** With a clock that does not go back, deleting expired buckets at any moments never changes any
      decision compared with never deleting anything. */
  lemma SweepingNeverChangesADecision(store: Store, events: seq<Event>)
    requires Chronological(events)
    ensures Decisions(store, events) == Decisions(store, WithoutSweeps(events))
  {
    SweepsInvisible(store, store, events);
  }

  // ---------------------------------------------------------------- how much gets through

  function LiveAt(b: Option<Bucket>, now: int): Option<Bucket> {
    if b.Some? && b.value.resetAt > now then b else None
  }

  /** How many of the requests of one key, at these times, are let through from this bucket on. */
  function Passed(b: Option<Bucket>, limit: Limit, times: seq<int>): nat
    decreases |times|
  {
    if times == [] then 0
    else
      var hit := Hit(LiveAt(b, times[0]), limit, times[0]);
      (if hit.count > limit.max then 0 else 1) + Passed(Some(hit), limit, times[1..])
  }

  predicate Nondecreasing(times: seq<int>) {
    forall i, j | 0 <= i < j < |times| :: times[i] <= times[j]
  }

  /** While the window lasts, a bucket lets through what is left of its maximum. */
  lemma {:induction false} OneWindow(b: Bucket, limit: Limit, times: seq<int>)
    requires forall t | t in times :: t < b.resetAt
    ensures Passed(Some(b), limit, times) == Min(|times|, Max(0, limit.max - b.count))
    decreases |times|
  {
    if times != [] {
      assert times[0] in times;
      assert forall t | t in times[1..] :: t in times;
      OneWindow(Hit(Some(b), limit, times[0]), limit, times[1..]);
    }
  }

  /** The decision on a request tells how many more get through while its window lasts, and a request is
      turned away exactly when it comes after the maximum. */
  lemma RemainingIsExact(b: Option<Bucket>, limit: Limit, now: int, times: seq<int>)
    requires var d := Decide(Hit(LiveAt(b, now), limit, now), limit); forall t | t in times :: t < d.resetAt
    ensures var hit := Hit(LiveAt(b, now), limit, now);
            var d := Decide(hit, limit);
            && Passed(Some(hit), limit, times) == Min(|times|, d.remaining)
            && d.resetAt == (if b.Some? && b.value.resetAt > now then b.value.resetAt else now + limit.windowMs)
            && d.count == (if b.Some? && b.value.resetAt > now then b.value.count else 0) + 1
            && (d.limited <==> d.count > limit.max)
  {
    OneWindow(Hit(LiveAt(b, now), limit, now), limit, times);
  }

  /** Requests that end before the next window could end get through at most twice. */
  lemma {:induction false} TwoWindows(b: Bucket, limit: Limit, times: seq<int>)
    requires limit.windowMs > 0 && Nondecreasing(times)
    requires forall t | t in times :: t < b.resetAt + limit.windowMs
    ensures Passed(Some(b), limit, times) <= Max(0, limit.max - b.count) + limit.max
    decreases |times|
  {
    if times != [] {
      var t := times[0];
      assert t in times;
      assert forall u | u in times[1..] :: u in times;
      if t < b.resetAt {
        TwoWindows(Hit(Some(b), limit, t), limit, times[1..]);
      } else {
        OneWindow(Hit(None, limit, t), limit, times[1..]);
      }
    }
  }

  /** Whatever happened before, any closed time interval of one window's length lets at most twice
      the maximum through, and the requests within one window at most the maximum. */
  lemma AtMostTwiceTheMaximum(b: Option<Bucket>, limit: Limit, times: seq<int>)
    requires limit.windowMs > 0 && Nondecreasing(times)
    requires times != [] ==> times[|times| - 1] <= times[0] + limit.windowMs
    ensures Passed(b, limit, times) <= 2 * limit.max
    ensures b.Some? && (times != [] ==> times[|times| - 1] < b.value.resetAt) ==> Passed(b, limit, times) <= limit.max
  {
    if times != [] {
      var t := times[0];
      assert forall u | u in times :: t <= u <= times[|times| - 1];
      assert forall u | u in times[1..] :: u in times;
      if b.Some? && times[|times| - 1] < b.value.resetAt { OneWindow(b.value, limit, times); }
      match LiveAt(b, t)
      case Some(bucket) => TwoWindows(bucket, limit, times);
      case None => TwoWindows(Hit(None, limit, t), limit, times[1..]);
    }
  }

  /** How many requests of one key the store lets through. */
  function LetThrough(store: Store, events: seq<Event>, key: string): nat
    decreases |events|
  {
    if events == [] then 0
    else
      var e := events[0];
      (if e.Request? && e.key == key && !Decide(Hit(Live(store, key, e.at), e.limit, e.at), e.limit).limited then 1
       else 0)
      + LetThrough(StoreAfter(store, e), events[1..], key)
  }

  function TimesOf(events: seq<Event>, key: string): seq<int> {
    if events == [] then []
    else (if events[0].Request? && events[0].key == key then [events[0].at] else []) + TimesOf(events[1..], key)
  }

  predicate RequestsUnder(events: seq<Event>, key: string, limit: Limit) {
    forall i | 0 <= i < |events| && events[i].Request? && events[i].key == key :: events[i].limit == limit
  }

  function BucketOf(store: Store, key: string): Option<Bucket> {
    if key in store then Some(store[key]) else None
  }

  /** The store with its sweeps cannot be told from one bucket that is never deleted. */
  lemma OneEvent(store: Store, b: Option<Bucket>, e: Event, key: string, later: int)
    requires Live(store, key, e.at) == LiveAt(b, e.at) && e.at <= later
    ensures var b' := if e.Request? && e.key == key then Some(Hit(LiveAt(b, e.at), e.limit, e.at)) else b;
            Live(StoreAfter(store, e), key, later) == LiveAt(b', later)
  {
  }

  /** Neither other keys nor sweeps interfere: a key gets through as its own requests alone decide. */
  lemma {:induction false} KeysAreIndependent(store: Store, b: Option<Bucket>, events: seq<Event>, key: string,
                                              limit: Limit)
    requires Chronological(events) && RequestsUnder(events, key, limit)
    requires events != [] ==> Live(store, key, events[0].at) == LiveAt(b, events[0].at)
    ensures LetThrough(store, events, key) == Passed(b, limit, TimesOf(events, key))
    decreases |events|
  {
    if events != [] {
      var e, rest := events[0], events[1..];
      var mine := e.Request? && e.key == key;
      var b' := if mine then Some(Hit(LiveAt(b, e.at), limit, e.at)) else b;
      if rest != [] { OneEvent(store, b, e, key, rest[0].at); }
      KeysAreIndependent(StoreAfter(store, e), b', rest, key, limit);
      if mine { assert TimesOf(events, key)[1..] == TimesOf(rest, key); }
      else { assert TimesOf(events, key) == TimesOf(rest, key); }
    }
  }

  lemma {:induction false} TimesInOrder(events: seq<Event>, key: string, lo: int, hi: int)
    requires Chronological(events)
    requires forall i | 0 <= i < |events| :: lo <= events[i].at <= hi
    ensures Nondecreasing(TimesOf(events, key))
    ensures forall i | 0 <= i < |TimesOf(events, key)| :: lo <= TimesOf(events, key)[i] <= hi
  {
    if events != [] {
      assert forall i | 0 <= i < |events[1..]| :: events[1..][i] == events[i + 1];
      TimesInOrder(events[1..], key, events[0].at, hi);
    }
  }

  /** Over the whole store, whatever other keys do and whenever it is swept: in any stretch of events
      no longer than one window, a key gets through at most twice its maximum. */
  lemma KeyLetThroughAtMostTwice(store: Store, events: seq<Event>, key: string, limit: Limit)
    requires limit.windowMs > 0 && Chronological(events) && RequestsUnder(events, key, limit)
    requires events != [] ==> events[|events| - 1].at <= events[0].at + limit.windowMs
    ensures LetThrough(store, events, key) <= 2 * limit.max
  {
    var times := TimesOf(events, key);
    KeysAreIndependent(store, BucketOf(store, key), events, key, limit);
    if events != [] { TimesInOrder(events, key, events[0].at, events[|events| - 1].at); }
    AtMostTwiceTheMaximum(BucketOf(store, key), limit, times);
  }

  /** The bound is tight: max requests at the start of a window and max more when it ends. */
  lemma TwiceTheMaximumIsReached(limit: Limit, t: int)
    requires limit.windowMs > 0
    ensures var times := seq(limit.max, _ => t) + seq(limit.max, _ => t + limit.windowMs);
            Nondecreasing(times) && Passed(None, limit, times) == 2 * limit.max
  {
    if limit.max > 0 {
      Burst(None, limit, t, limit.max, seq(limit.max, _ => t + limit.windowMs));
      Burst(Some(Bucket(limit.max, t + limit.windowMs)), limit, t + limit.windowMs, limit.max, []);
      assert seq(limit.max, _ => t + limit.windowMs) + [] == seq(limit.max, _ => t + limit.windowMs);
    }
  }

  /** n simultaneous requests that open a window and stay within the maximum all get through. */
  lemma Burst(b: Option<Bucket>, limit: Limit, t: int, n: nat, rest: seq<int>)
    requires limit.windowMs > 0 && 0 < n <= limit.max && LiveAt(b, t) == None
    ensures Passed(b, limit, seq(n, _ => t) + rest) == n + Passed(Some(Bucket(n, t + limit.windowMs)), limit, rest)
  {
    var times := seq(n, _ => t) + rest;
    assert times[1..] == seq(n - 1, _ => t) + rest;
    Fill(Bucket(1, t + limit.windowMs), limit, t, n - 1, rest);
  }

  lemma {:induction false} Fill(b: Bucket, limit: Limit, t: int, n: nat, rest: seq<int>)
    requires b.resetAt > t && b.count + n <= limit.max
    ensures Passed(Some(b), limit, seq(n, _ => t) + rest)
         == n + Passed(Some(Bucket(b.count + n, b.resetAt)), limit, rest)
    decreases n
  {
    var times := seq(n, _ => t) + rest;
    if n == 0 {
      assert times == rest;
    } else {
      assert times[1..] == seq(n - 1, _ => t) + rest;
      Fill(Bucket(b.count + 1, b.resetAt), limit, t, n - 1, rest);
    }
  }
}
