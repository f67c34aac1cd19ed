/** The in-memory sliding-window rate limiter and its background purge. */
module RateLimit {
  import opened Wrappers

  /** Per key, the times of the most recent accepted requests, oldest first. */
  type Store = map<string, seq<int>>

  predicate Valid(store: Store) {
    forall k <- store :: store[k] != []
  }

  predicate Stale(queue: seq<int>, expiration: int, now: int) {
    queue == [] || now - queue[|queue| - 1] > expiration
  }

  datatype Outcome = Outcome(store: Store, accepted: bool)

  function Asked(store: Store, key: string, limit: nat, duration: int, now: int): (r: Outcome)
    requires Valid(store)
    ensures Valid(r.store)
  {
    if key !in store then Outcome(store[key := [now]], true)
    else
      var queue := store[key];
      if |queue| < limit then Outcome(store[key := queue + [now]], true)
      else if now - queue[0] >= duration then Outcome(store[key := queue[1..] + [now]], true)
      else Outcome(store, false)
  }

  function Swept(store: Store, expiration: int, now: int): (r: Store)
    ensures Valid(store) ==> Valid(r)
  {
    map k | k in store && !Stale(store[k], expiration, now) :: store[k]
  }

  class InMemoryRateLimiter {
    var store: Store
    const expiration: int  // whole seconds

    constructor (expiration: int)
      ensures Valid(store) && store == map[] && this.expiration == expiration
    {
      store := map[];
      this.expiration := expiration;
    }

    /** A negative limit makes the allocation of the queue panic, so callers must not pass one. */
    method Request(key: string, limit: nat, duration: int, now: int) returns (accepted: bool)
      requires Valid(store)
      modifies this
      ensures Valid(store)
      ensures Outcome(store, accepted) == Asked(old(store), key, limit, duration, now)
    {
      if key in store {
        var queue := store[key];
        if |queue| < limit {
          store := store[key := queue + [now]];
          return true;
        }
        if now - queue[0] >= duration {
          queue := queue[1..];
          store := store[key := queue + [now]];
          return true;
        }
        return false;
      }
      store := store[key := []];
      store := store[key := store[key] + [now]];
      assert [] + [now] == [now];
      assert store == old(store)[key := [now]];
      return true;
    }

    /** One round of the purge, which visits the keys in no particular order. */
    method ClearExpiredItems(now: int)
      requires Valid(store)
      modifies this
      ensures Valid(store)
      ensures store == Swept(old(store), expiration, now)
      ensures forall k :: k in store <==> k in old(store) && now - old(store)[k][|old(store)[k]| - 1] <= expiration
      ensures forall k <- store :: store[k] == old(store)[k]
    {
      var keys := store.Keys;
      while keys != {}
        invariant keys <= store.Keys <= old(store).Keys
        invariant forall k <- store :: store[k] == old(store)[k]
        invariant forall k <- old(store) :: k !in keys ==> (k in store <==> !Stale(old(store)[k], expiration, now))
        decreases |keys|
      {
        var key :| key in keys;
        var queue := store[key];
        if |queue| == 0 || now - queue[|queue| - 1] > expiration {
          store := store - {key};
        }
        keys := keys - {key};
      }
    }
  }

  // ---- Runs -----------------------------------------------------------------------------------------

  datatype Event = Ask(key: string, limit: nat, duration: int, now: int) | Sweep(now: int)

  function After(store: Store, expiration: int, e: Event): (store': Store)
    requires Valid(store)
    ensures Valid(store')
  {
    match e
    case Ask(k, limit, duration, now) => Asked(store, k, limit, duration, now).store
    case Sweep(now) => Swept(store, expiration, now)
  }

  /** The store after a sequence of requests and purges. */
  function Exec(expiration: int, events: seq<Event>): (store: Store)
    ensures Valid(store)
  {
    if events == [] then map[] else After(Exec(expiration, events[..|events| - 1]), expiration, events[|events| - 1])
  }

  /** The answer the limiter gives when asked after `events`. */
  function Answer(expiration: int, events: seq<Event>, e: Event): (accepted: bool)
    requires e.Ask?
  {
    Asked(Exec(expiration, events), e.key, e.limit, e.duration, e.now).accepted
  }

  /** The times of all accepted requests for `key`, oldest first: the history the limiter does not keep. */
  function Accepted(expiration: int, events: seq<Event>, key: string): (times: seq<int>) {
    if events == [] then []
    else
      var prefix, e := events[..|events| - 1], events[|events| - 1];
      var times := Accepted(expiration, prefix, key);
      if e.Ask? && e.key == key && Answer(expiration, prefix, e) then times + [e.now] else times
  }

  /** How many of the given times are younger than `duration` at `now`. */
  function Young(times: seq<int>, now: int, duration: int): (n: nat) {
    if times == [] then 0
    else Young(times[..|times| - 1], now, duration) + (if now - times[|times| - 1] < duration then 1 else 0)
  }

  predicate Ordered(events: seq<Event>) {
    forall i, j :: 0 <= i < j < |events| ==> events[i].now <= events[j].now
  }

  /** Every request for the key uses the same limit and duration. */
  predicate Fixed(events: seq<Event>, key: string, limit: nat, duration: int) {
    forall e <- events :: e.Ask? && e.key == key ==> e.limit == limit && e.duration == duration
  }

  /** A limit of zero admits as much as a limit of one. */
  function Capacity(limit: nat): (n: nat)
    ensures n >= 1
  {
    if limit == 0 then 1 else limit
  }

  predicate Sorted(times: seq<int>) {
    forall i, j :: 0 <= i < j < |times| ==> times[i] <= times[j]
  }

  /** The first `m` of the given times are no longer young. */
  predicate AllOld(times: seq<int>, m: nat, now: int, duration: int)
    requires m <= |times|
  {
    forall i :: 0 <= i < m ==> now - times[i] >= duration
  }

  /** The queue of a key is the tail of its history; what was dropped is too old to matter, or the queue is full. */
  ghost predicate KeyInv(store: Store, times: seq<int>, key: string, limit: nat, duration: int, now: int) {
    && Sorted(times)
    && (forall i :: 0 <= i < |times| ==> times[i] <= now)
    && if key in store then
         var q := store[key];
         && 1 <= |q| <= |times| && |q| <= Capacity(limit)
         && times[|times| - |q|..] == q
         && (|q| == Capacity(limit) || AllOld(times, |times| - |q|, now, duration))
       else AllOld(times, |times|, now, duration)
  }

  lemma {:induction false} YoungAtMost(times: seq<int>, m: nat, now: int, duration: int)
    requires m <= |times| && AllOld(times, m, now, duration)
    ensures Young(times, now, duration) <= |times| - m
  {
    if |times| > m {
      YoungAtMost(times[..|times| - 1], m, now, duration);
    } else if times != [] {
      YoungAtMost(times[..|times| - 1], m - 1, now, duration);
    }
  }

  lemma {:induction false} YoungAtLeast(times: seq<int>, m: nat, now: int, duration: int)
    requires m <= |times| && forall i :: m <= i < |times| ==> now - times[i] < duration
    ensures Young(times, now, duration) >= |times| - m
  {
    if |times| > m {
      YoungAtLeast(times[..|times| - 1], m, now, duration);
    }
  }

  /** Under the invariant one request is answered by counting the whole history. */
  lemma AnswerCounts(store: Store, times: seq<int>, key: string, limit: nat, duration: int, last: int, now: int)
    requires Valid(store) && KeyInv(store, times, key, limit, duration, last) && last <= now
    ensures Asked(store, key, limit, duration, now).accepted <==> Young(times, now, duration) < Capacity(limit)
  {
    if key !in store {
      YoungAtMost(times, |times|, now, duration);
    } else {
      var q := store[key];
      var m := |times| - |q|;
      if |q| < limit {
        YoungAtMost(times, m, now, duration);
      } else if now - q[0] >= duration {
        assert times[m] == q[0];
        YoungAtMost(times, m + 1, now, duration);
      } else {
        assert times[m] == q[0];
        YoungAtLeast(times, m, now, duration);
      }
    }
  }

  lemma AskKeepsInv(store: Store, times: seq<int>, key: string, limit: nat, duration: int, last: int, now: int)
    requires Valid(store) && KeyInv(store, times, key, limit, duration, last) && last <= now
    ensures var r := Asked(store, key, limit, duration, now);
            KeyInv(r.store, if r.accepted then times + [now] else times, key, limit, duration, now)
  {
    var r := Asked(store, key, limit, duration, now);
    if key in store {
      var q := store[key];
      var m := |times| - |q|;
      assert times[m] == q[0];
      if r.accepted {
        var times' := times + [now];
        if |q| < limit {
          assert times'[m..] == q + [now];
        } else {
          assert times'[m + 1..] == q[1..] + [now];
        }
      }
    } else {
      assert (times + [now])[|times|..] == [now];
    }
  }

  /** A purge drops a key only when its whole history is too old. */
  lemma SweepKeepsInv(store: Store, times: seq<int>, key: string, limit: nat, duration: int, last: int, now: int, expiration: int)
    requires Valid(store) && KeyInv(store, times, key, limit, duration, last) && last <= now
    requires duration <= expiration + 1
    ensures KeyInv(Swept(store, expiration, now), times, key, limit, duration, now)
  {
    if key in store && Stale(store[key], expiration, now) {
      var q := store[key];
      assert times[|times| - 1] == q[|q| - 1];
    }
  }

  function Last(events: seq<Event>): (t: int) {
    if events == [] then 0 else events[|events| - 1].now
  }

  lemma LaterKeepsInv(store: Store, times: seq<int>, key: string, limit: nat, duration: int, last: int, now: int)
    requires KeyInv(store, times, key, limit, duration, last) && last <= now
    ensures KeyInv(store, times, key, limit, duration, now)
  {
  }

  lemma EventKeepsInv(store: Store, times: seq<int>, expiration: int, e: Event,
                      key: string, limit: nat, duration: int, last: int)
    requires Valid(store) && KeyInv(store, times, key, limit, duration, last) && last <= e.now
    requires e.Ask? && e.key == key ==> e.limit == limit && e.duration == duration
    requires duration <= expiration + 1
    ensures var taken := e.Ask? && e.key == key && Asked(store, key, limit, duration, e.now).accepted;
            KeyInv(After(store, expiration, e), if taken then times + [e.now] else times, key, limit, duration, e.now)
  {
    if e.Sweep? {
      SweepKeepsInv(store, times, key, limit, duration, last, e.now, expiration);
    } else if e.key == key {
      AskKeepsInv(store, times, key, limit, duration, last, e.now);
    } else {
      LaterKeepsInv(store, times, key, limit, duration, last, e.now);
      assert key in After(store, expiration, e) <==> key in store;
    }
  }

  lemma PrefixIsOrdered(events: seq<Event>, key: string, limit: nat, duration: int)
    requires Ordered(events) && Fixed(events, key, limit, duration) && |events| > 1
    ensures var prefix, e := events[..|events| - 1], events[|events| - 1];
            && Ordered(prefix) && Fixed(prefix, key, limit, duration) && Last(prefix) <= e.now
            && (e.Ask? && e.key == key ==> e.limit == limit && e.duration == duration)
  {
    assert events[|events| - 1] in events;
  }

  lemma {:induction false} RunKeepsInv(expiration: int, events: seq<Event>, key: string, limit: nat, duration: int)
    requires Ordered(events) && Fixed(events, key, limit, duration) && duration <= expiration + 1
    ensures KeyInv(Exec(expiration, events), Accepted(expiration, events, key), key, limit, duration, Last(events))
  {
    if |events| == 1 {
      assert events[0] in events;
      EventKeepsInv(map[], [], expiration, events[0], key, limit, duration, events[0].now);
      assert events[..0] == [];
    } else if |events| > 1 {
      var prefix, e := events[..|events| - 1], events[|events| - 1];
      PrefixIsOrdered(events, key, limit, duration);
      RunKeepsInv(expiration, prefix, key, limit, duration);
      EventKeepsInv(Exec(expiration, prefix), Accepted(expiration, prefix, key), expiration, e, key, limit, duration, Last(prefix));
    }
  }

  /** The limiter agrees with counting: after any interleaving of requests for any keys and purges, a request
      is accepted exactly when fewer than its limit of all earlier accepted requests are still young. */
  lemma AcceptsIffWindowHasRoom(expiration: int, events: seq<Event>, key: string, limit: nat, duration: int, now: int)
    requires Ordered(events) && (events != [] ==> Last(events) <= now)
    requires Fixed(events, key, limit, duration) && duration <= expiration + 1
    ensures Answer(expiration, events, Ask(key, limit, duration, now))
            <==> Young(Accepted(expiration, events, key), now, duration) < Capacity(limit)
  {
    RunKeepsInv(expiration, events, key, limit, duration);
    var last := if events == [] then now else Last(events);
    assert KeyInv(Exec(expiration, events), Accepted(expiration, events, key), key, limit, duration, last);
    AnswerCounts(Exec(expiration, events), Accepted(expiration, events, key), key, limit, duration, last, now);
  }

  // ---- No window overflows ----------------------------------------------------------------------------

  /** A request and the one `Capacity` places before it are at least `duration` apart. */
  predicate Spaced(times: seq<int>, cap: nat, duration: int) {
    forall i :: cap <= i < |times| ==> times[i] - times[i - cap] >= duration
  }

  lemma SpacedSnoc(times: seq<int>, cap: nat, duration: int, now: int)
    requires cap >= 1 && Sorted(times) && Spaced(times, cap, duration) && Young(times, now, duration) < cap
    ensures Spaced(times + [now], cap, duration)
  {
    var m := |times| - cap;
    if m >= 0 && now - times[m] < duration {
      YoungAtLeast(times, m, now, duration);
    }
  }

  lemma {:induction false} AcceptedAreSpaced(expiration: int, events: seq<Event>, key: string, limit: nat, duration: int)
    requires Ordered(events) && Fixed(events, key, limit, duration) && duration <= expiration + 1
    ensures Spaced(Accepted(expiration, events, key), Capacity(limit), duration)
  {
    if events != [] {
      var prefix, e := events[..|events| - 1], events[|events| - 1];
      AcceptedAreSpaced(expiration, prefix, key, limit, duration);
      if e.Ask? && e.key == key && Answer(expiration, prefix, e) {
        assert e in events;
        RunKeepsInv(expiration, prefix, key, limit, duration);
        AcceptsIffWindowHasRoom(expiration, prefix, key, limit, duration, e.now);
        SpacedSnoc(Accepted(expiration, prefix, key), Capacity(limit), duration, e.now);
      }
    }
  }

  /** How many times lie in the half-open window (from, to]. */
  function InWindow(times: seq<int>, from: int, to: int): (n: nat) {
    if times == [] then 0
    else InWindow(times[..|times| - 1], from, to) + (if from < times[|times| - 1] <= to then 1 else 0)
  }

  lemma {:induction false} WindowAtMost(times: seq<int>, m: nat, from: int, to: int)
    requires m <= |times| && forall i :: 0 <= i < m ==> times[i] <= from
    ensures InWindow(times, from, to) <= |times| - m
  {
    if |times| > m {
      WindowAtMost(times[..|times| - 1], m, from, to);
    } else if times != [] {
      WindowAtMost(times[..|times| - 1], m - 1, from, to);
    }
  }

  lemma {:induction false} SpacedWindows(times: seq<int>, cap: nat, duration: int, from: int)
    requires cap >= 1 && Sorted(times) && Spaced(times, cap, duration)
    ensures InWindow(times, from, from + duration) <= cap
  {
    if |times| > cap {
      var n := |times| - 1;
      if times[n] > from + duration {
        SpacedWindows(times[..n], cap, duration, from);
      } else {
        var m := if times[n] <= from then n + 1 else n + 1 - cap;
        assert times[m - 1] <= from;
        forall i | 0 <= i < m ensures times[i] <= from {
          assert i < m - 1 ==> times[i] <= times[m - 1];
        }
        WindowAtMost(times, m, from, from + duration);
      }
    } else {
      WindowAtMost(times, 0, from, from + duration);
    }
  }

  /** No window of the key's duration, wherever it starts, ever holds more accepted requests than the limit. */
  lemma NoWindowOverflows(expiration: int, events: seq<Event>, key: string, limit: nat, duration: int, from: int)
    requires Ordered(events) && Fixed(events, key, limit, duration) && duration <= expiration + 1
    ensures InWindow(Accepted(expiration, events, key), from, from + duration) <= Capacity(limit)
  {
    RunKeepsInv(expiration, events, key, limit, duration);
    AcceptedAreSpaced(expiration, events, key, limit, duration);
    SpacedWindows(Accepted(expiration, events, key), Capacity(limit), duration, from);
  }

  // ---- The bound on the duration is exact --------------------------------------------------------------

  /** `n` requests at time zero. */
  function Burst(key: string, limit: nat, duration: int, n: nat): (events: seq<Event>) {
    if n == 0 then [] else Burst(key, limit, duration, n - 1) + [Ask(key, limit, duration, 0)]
  }

  function Zeros(n: nat): (times: seq<int>) {
    if n == 0 then [] else Zeros(n - 1) + [0]
  }

  lemma {:induction false} ZerosFacts(n: nat)
    ensures |Zeros(n)| == n && forall i :: 0 <= i < n ==> Zeros(n)[i] == 0
  {
    if n > 0 {
      ZerosFacts(n - 1);
    }
  }

  lemma AskLast(expiration: int, events: seq<Event>, e: Event)
    requires e.Ask?
    ensures Exec(expiration, events + [e]) == Asked(Exec(expiration, events), e.key, e.limit, e.duration, e.now).store
    ensures Answer(expiration, events, e) ==>
              Accepted(expiration, events + [e], e.key) == Accepted(expiration, events, e.key) + [e.now]
  {
    assert (events + [e])[..|events|] == events;
  }

  lemma {:induction false} BurstIs(key: string, limit: nat, duration: int, n: nat)
    ensures var events := Burst(key, limit, duration, n);
            |events| == n && forall i :: 0 <= i < n ==> events[i] == Ask(key, limit, duration, 0)
  {
    if n > 0 {
      BurstIs(key, limit, duration, n - 1);
    }
  }

  /** The queue of a key holds its whole history. */
  predicate Holds(expiration: int, events: seq<Event>, key: string, q: seq<int>) {
    Lookup(Exec(expiration, events), key) == (if q == [] then None else Some(q)) && Accepted(expiration, events, key) == q
  }

  lemma HoldsOneMore(expiration: int, events: seq<Event>, key: string, limit: nat, duration: int, q: seq<int>)
    requires Holds(expiration, events, key, q) && |q| < limit
    ensures Holds(expiration, events + [Ask(key, limit, duration, 0)], key, q + [0])
  {
    AskLast(expiration, events, Ask(key, limit, duration, 0));
    assert q == [] ==> q + [0] == [0];
  }

  lemma {:induction false} BurstFills(expiration: int, key: string, limit: nat, duration: int, n: nat)
    requires n <= limit
    ensures Holds(expiration, Burst(key, limit, duration, n), key, Zeros(n))
  {
    if n > 0 {
      BurstFills(expiration, key, limit, duration, n - 1);
      ZerosFacts(n - 1);
      HoldsOneMore(expiration, Burst(key, limit, duration, n - 1), key, limit, duration, Zeros(n - 1));
    }
  }

  lemma SweepLast(expiration: int, events: seq<Event>, now: int, key: string)
    ensures Exec(expiration, events + [Sweep(now)]) == Swept(Exec(expiration, events), expiration, now)
    ensures Accepted(expiration, events + [Sweep(now)], key) == Accepted(expiration, events, key)
  {
    assert (events + [Sweep(now)])[..|events|] == events;
  }

  /** For every longer duration the limiter over-admits: fill the window, purge, and one more is accepted. */
  lemma LongerDurationsOverAdmit(expiration: nat, key: string, limit: nat, duration: int)
    requires limit >= 1 && duration > expiration + 1
    ensures var events := Burst(key, limit, duration, limit) + [Sweep(expiration + 1)];
            && Ordered(events) && Fixed(events, key, limit, duration)
            && Answer(expiration, events, Ask(key, limit, duration, expiration + 1))
            && Young(Accepted(expiration, events, key), expiration + 1, duration) == limit
  {
    var burst := Burst(key, limit, duration, limit);
    BurstIs(key, limit, duration, limit);
    BurstFills(expiration, key, limit, duration, limit);
    SweepLast(expiration, burst, expiration + 1, key);
    ZerosFacts(limit);
    assert Stale(Zeros(limit), expiration, expiration + 1);
    assert key !in Exec(expiration, burst + [Sweep(expiration + 1)]);
    YoungAtLeast(Zeros(limit), 0, expiration + 1, duration);
    YoungAtMost(Zeros(limit), 0, expiration + 1, duration);
  }
}
