/** The retry loops of `Relay` and `RelayTask`: which attempts are made, on which group, and how the billing
    session ends.  The upstream, the channel store and the request body are oracles indexed by attempt. */
module Relay {
  import opened Wrappers
  import opened Billing

  /** An upstream error, with the context facts the retry decision looks at. */
  datatype ApiError = ApiError(
    channelError: bool,      // error code starts with "channel:"
    skipRetry: bool,
    localError: bool,
    affinityStop: bool,      // the affinity rule forbids a retry
    status: int)

  datatype Policy = Policy(
    retryTimes: nat,
    specificChannel: bool,
    alwaysSkip: ApiError -> bool,
    alwaysSkipStatus: int -> bool,
    retryStatus: int -> bool)

  /** `shouldRetry`. */
  predicate ShouldRetry(p: Policy, e: ApiError, left: int) {
    if e.affinityStop then false
    else if e.channelError then true
    else if e.skipRetry then false
    else if left <= 0 then false
    else if p.specificChannel then false
    else if 200 <= e.status < 300 then false
    else if e.status < 100 || e.status > 599 then true
    else if p.alwaysSkip(e) then false
    else p.retryStatus(e.status)
  }

  /** Integer division truncates toward zero in the source; only the quotients 5 and 2 matter. */
  predicate InHundred(status: int, h: int) {
    h * 100 <= status < (h + 1) * 100
  }

  /** `shouldRetryTaskRelay`. */
  predicate ShouldRetryTask(p: Policy, e: ApiError, left: int) {
    if e.affinityStop then false
    else if left <= 0 then false
    else if p.specificChannel then false
    else if e.status == 429 then true
    else if e.status == 307 then true
    else if InHundred(e.status, 5) then !p.alwaysSkipStatus(e.status)
    else if e.status == 400 then false
    else if e.status == 408 then false
    else if e.localError then false
    else if InHundred(e.status, 2) then false
    else true
  }

  /** Which errors of a relayed request are worth another attempt with `left` retries left. */
  predicate RelayWants(p: Policy, e: ApiError, left: int) {
    && !e.affinityStop
    && (|| e.channelError
        || (&& !e.skipRetry && left >= 1 && !p.specificChannel
            && (|| e.status < 100 || e.status > 599
                || ((e.status < 200 || e.status >= 300) && !p.alwaysSkip(e) && p.retryStatus(e.status)))))
  }

  /** Which errors of a task submission are. */
  predicate TaskWants(p: Policy, e: ApiError, left: int) {
    && !e.affinityStop && left >= 1 && !p.specificChannel
    && (|| e.status == 429 || e.status == 307
        || (500 <= e.status < 600 && !p.alwaysSkipStatus(e.status))
        || (&& !(500 <= e.status < 600) && !(200 <= e.status < 300) && e.status != 400 && e.status != 408 && !e.localError))
  }

  lemma DecisionsAreWants(p: Policy, e: ApiError, left: int)
    ensures ShouldRetry(p, e, left) <==> RelayWants(p, e, left)
    ensures ShouldRetryTask(p, e, left) <==> TaskWants(p, e, left)
  {
  }

  // ---- The retry counter and the group it is in -------------------------------------------------------------

  /** `RetryParam`, with the index of the automatic group from the request context. */
  datatype Param = Param(retry: int, reset: bool, group: nat)

  function Increased(p: Param): (p': Param) {
    if p.reset then p.(reset := false) else p.(retry := p.retry + 1)
  }

  datatype Choice = Choice(found: bool, param: Param)

  /** `CacheGetRandomSatisfiedChannel` over `groups` groups (one, for a token bound to a single group), searching
      from group `i`.  A group without a channel restarts the counter in the next one; with cross-group retry the
      last try of a group prepares the switch to the next. */
  function Select(groups: nat, cross: bool, retryTimes: int, has: nat -> bool, p: Param, i: nat): (c: Choice)
    requires p.group <= i
    decreases groups - i
  {
    if i >= groups then Choice(false, p)
    else if !has(i) then Select(groups, cross, retryTimes, has, p.(retry := 0, group := i + 1), i + 1)
    else if cross && p.retry >= retryTimes then Choice(true, Param(0, true, i + 1))
    else Choice(true, p.(group := i))
  }

  /** The search stops at the first group from `i` on that has a channel: the counter goes on in the group it was in and
      starts again in another, and with cross-group retry a spent counter prepares the next group. */
  lemma {:induction false} SelectMeans(groups: nat, cross: bool, retryTimes: int, has: nat -> bool, p: Param, i: nat)
    requires p.group <= i
    ensures var c := Select(groups, cross, retryTimes, has, p, i);
            && (c.found <==> exists g :: i <= g < groups && has(g))
            && forall g :: i <= g < groups && has(g) && (forall h :: i <= h < g ==> !has(h)) ==>
                 var retry := if g == i then p.retry else 0;
                 c.param == if cross && retry >= retryTimes then Param(0, true, g + 1) else Param(retry, p.reset, g)
    decreases groups - i
  {
    if i < groups && !has(i) {
      SelectMeans(groups, cross, retryTimes, has, p.(retry := 0, group := i + 1), i + 1);
    }
  }

  /** How many attempts a request at `p` can still make. */
  function Budget(groups: nat, retryTimes: nat, p: Param): (n: int) {
    (groups - p.group) * (retryTimes + 1) - p.retry
  }

  lemma BudgetNextGroup(groups: nat, retryTimes: nat, p: Param)
    requires 0 <= p.retry <= retryTimes
    ensures Budget(groups, retryTimes, p.(retry := 0, group := p.group + 1)) <= Budget(groups, retryTimes, p) - 1
  {
    assert (groups - (p.group + 1)) * (retryTimes + 1) == (groups - p.group) * (retryTimes + 1) - (retryTimes + 1);
  }

  lemma AtLeastOnce(a: nat, b: nat)
    requires a >= 1
    ensures a * b >= b
  {
    if a > 1 {
      AtLeastOnce(a - 1, b);
    }
  }

  lemma BudgetPositive(groups: nat, retryTimes: nat, p: Param)
    requires p.group < groups && p.retry <= retryTimes
    ensures Budget(groups, retryTimes, p) >= 1
  {
    AtLeastOnce(groups - p.group, retryTimes + 1);
  }

  /** Selecting a channel and stepping the counter spends at least one attempt of the budget, which must have
      had one to spend. */
  lemma {:induction false} SelectSpends(groups: nat, cross: bool, retryTimes: nat, has: nat -> bool, p: Param)
    requires 0 <= p.retry <= retryTimes && !p.reset
    ensures var c := Select(groups, cross, retryTimes, has, p, p.group);
            c.found ==>
              && c.param.group <= groups && 0 <= c.param.retry <= retryTimes
              && 0 <= Increased(c.param).retry
              && Budget(groups, retryTimes, Increased(c.param)) <= Budget(groups, retryTimes, p) - 1
              && Budget(groups, retryTimes, p) >= 1
    decreases groups - p.group
  {
    if p.group < groups {
      BudgetPositive(groups, retryTimes, p);
      if !has(p.group) {
        var q := p.(retry := 0, group := p.group + 1);
        SelectSpends(groups, cross, retryTimes, has, q);
        BudgetNextGroup(groups, retryTimes, p);
      } else if cross && p.retry >= retryTimes {
        BudgetNextGroup(groups, retryTimes, p);
      }
    }
  }

  // ---- The loop --------------------------------------------------------------------------------------------------

  /** An attempt that reached the upstream: the counter it ran with and how it ended. */
  datatype Attempt = Attempt(param: Param, failure: Option<ApiError>)

  /** Oracles: channel availability per attempt and group, errors of channel setup and of reading the body, and
      the upstream's answer. */
  datatype World = World(
    has: (nat, nat) -> bool,
    setup: nat -> Option<ApiError>,
    body: nat -> Option<ApiError>,
    answer: nat -> Option<ApiError>,
    noChannel: ApiError)

  /** What a request brings along.  A locked channel is used by every attempt. */
  datatype Request = Request(
    groups: nat,
    start: nat,
    cross: bool,
    locked: bool,
    retryTimes: nat,
    decide: (ApiError, int) -> bool)

  function Choose(r: Request, has: (nat, nat) -> bool, n: nat, p: Param): (c: Choice) {
    Select(r.groups, r.cross, r.retryTimes, (g: nat) => has(n, g), p, p.group)
  }

  function Selected(r: Request, w: World, n: nat, p: Param): (c: Choice) {
    Choose(r, w.has, n, p)
  }

  /** Attempt 0 runs on the channel chosen before the handler; a later one selects, unless the channel is locked. */
  predicate Selects(r: Request, n: nat) {
    n > 0 && !r.locked
  }

  /** Why attempt `n` does not reach the upstream, if it does not. */
  function Refusal(r: Request, w: World, n: nat, p: Param): (e: Option<ApiError>) {
    if Selects(r, n) && !Selected(r, w, n, p).found then Some(w.noChannel)
    else if n > 0 && w.setup(n).Some? then w.setup(n)
    else w.body(n)
  }

  function RunsWith(r: Request, w: World, n: nat, p: Param): (q: Param) {
    if Selects(r, n) then Selected(r, w, n, p).param else p
  }

  /** The loop goes on after this attempt. */
  predicate Continues(r: Request, a: Attempt) {
    && a.failure.Some? && r.decide(a.failure.value, r.retryTimes - a.param.retry)
    && Increased(a.param).retry <= r.retryTimes
  }

  /** The counter when attempt `n` is about to be made. */
  function Before(r: Request, attempts: seq<Attempt>, n: nat): (p: Param)
    requires n <= |attempts|
  {
    if n == 0 then Param(0, false, r.start) else Increased(attempts[n - 1].param)
  }

  /** Attempt `n` gets the upstream's answer, was not refused, and follows one after which the loop goes on. */
  ghost predicate IsAttempt(r: Request, w: World, attempts: seq<Attempt>, n: nat)
    requires n < |attempts|
  {
    && attempts[n] == Attempt(RunsWith(r, w, n, Before(r, attempts, n)), w.answer(n))
    && Refusal(r, w, n, Before(r, attempts, n)) == None
    && (n > 0 ==> Continues(r, attempts[n - 1]))
  }

  ghost predicate IsTrace(r: Request, w: World, attempts: seq<Attempt>) {
    forall n :: 0 <= n < |attempts| ==> IsAttempt(r, w, attempts, n)
  }

  lemma TraceSnoc(r: Request, w: World, attempts: seq<Attempt>)
    requires IsTrace(r, w, attempts) && Refusal(r, w, |attempts|, Before(r, attempts, |attempts|)) == None
    requires attempts != [] ==> Continues(r, attempts[|attempts| - 1])
    ensures IsTrace(r, w, attempts + [Attempt(RunsWith(r, w, |attempts|, Before(r, attempts, |attempts|)), w.answer(|attempts|))])
  {
    var m := |attempts|;
    var all := attempts + [Attempt(RunsWith(r, w, m, Before(r, attempts, m)), w.answer(m))];
    forall n | 0 <= n < |all| ensures IsAttempt(r, w, all, n) {
      assert n < m ==> IsAttempt(r, w, attempts, n);
      assert Before(r, all, n) == Before(r, attempts, n);
    }
  }

  /** The loop ends at an attempt after which it does not go on, or at one that is refused. */
  ghost predicate Stops(r: Request, w: World, attempts: seq<Attempt>, error: Option<ApiError>) {
    var n := |attempts|;
    if n > 0 && !Continues(r, attempts[n - 1]) then error == attempts[n - 1].failure
    else error.Some? && error == Refusal(r, w, n, Before(r, attempts, n))
  }

  lemma {:induction false} SameAttempt(r: Request, w: World, xs: seq<Attempt>, ys: seq<Attempt>, n: nat)
    requires IsTrace(r, w, xs) && IsTrace(r, w, ys) && n < |xs| && n < |ys|
    ensures xs[n] == ys[n]
  {
    assert IsAttempt(r, w, xs, n) && IsAttempt(r, w, ys, n);
    if n > 0 {
      SameAttempt(r, w, xs, ys, n - 1);
    }
  }

  lemma NotLonger(r: Request, w: World, xs: seq<Attempt>, ys: seq<Attempt>, e: Option<ApiError>)
    requires IsTrace(r, w, xs) && Stops(r, w, xs, e) && IsTrace(r, w, ys)
    ensures |ys| <= |xs|
  {
    var n := |xs|;
    assert n < |ys| ==> IsAttempt(r, w, ys, n);
    if 0 < n < |ys| {
      SameAttempt(r, w, xs, ys, n - 1);
    }
  }

  /** These two conditions determine the outcome. */
  lemma OutcomeIsUnique(r: Request, w: World, xs: seq<Attempt>, ys: seq<Attempt>, e: Option<ApiError>, f: Option<ApiError>)
    requires IsTrace(r, w, xs) && Stops(r, w, xs, e) && IsTrace(r, w, ys) && Stops(r, w, ys, f)
    ensures xs == ys && e == f
  {
    NotLonger(r, w, xs, ys, e);
    NotLonger(r, w, ys, xs, f);
    forall n | 0 <= n < |xs| ensures xs[n] == ys[n] {
      SameAttempt(r, w, xs, ys, n);
    }
  }

  /** The attempts the counter allows for. */
  function CounterLimit(r: Request): (n: int) {
    if r.locked then r.retryTimes + 1
    else if (r.groups - r.start) * (r.retryTimes + 1) > 1 then (r.groups - r.start) * (r.retryTimes + 1)
    else 1
  }

  /** What the counter guarantees before attempt `n`. */
  ghost predicate WithinBudget(r: Request, n: nat, p: Param) {
    && 0 <= p.retry && !p.reset
    && (n == 0 ==> p == Param(0, false, r.start))
    && (r.locked ==> n == p.retry)
    && n <= CounterLimit(r)
    && (n > 0 && !r.locked ==> n + Budget(r.groups, r.retryTimes, p) <= CounterLimit(r) || Budget(r.groups, r.retryTimes, p) <= 0)
  }

  lemma ChooseSpends(r: Request, has: (nat, nat) -> bool, n: nat, p: Param)
    requires 0 <= p.retry <= r.retryTimes && !p.reset
    ensures var c := Choose(r, has, n, p);
            c.found ==>
              && 0 <= Increased(c.param).retry && !Increased(c.param).reset && 1 <= Budget(r.groups, r.retryTimes, p)
              && Budget(r.groups, r.retryTimes, Increased(c.param)) < Budget(r.groups, r.retryTimes, p)
  {
    SelectSpends(r.groups, r.cross, r.retryTimes, (g: nat) => has(n, g), p);
  }

  lemma AttemptSpends(r: Request, w: World, n: nat, p: Param)
    requires r.start <= r.groups && WithinBudget(r, n, p) && p.retry <= r.retryTimes && Refusal(r, w, n, p) == None
    ensures WithinBudget(r, n + 1, Increased(RunsWith(r, w, n, p)))
    ensures n > 0 && !r.locked ==>
              Budget(r.groups, r.retryTimes, Increased(RunsWith(r, w, n, p))) < Budget(r.groups, r.retryTimes, p)
              && Budget(r.groups, r.retryTimes, p) >= 1
  {
    if Selects(r, n) {
      ChooseSpends(r, w.has, n, p);
    }
  }

  lemma {:induction false} TraceStaysWithin(r: Request, w: World, attempts: seq<Attempt>, n: nat)
    requires r.start <= r.groups && IsTrace(r, w, attempts) && n <= |attempts|
    ensures WithinBudget(r, n, Before(r, attempts, n))
  {
    if n > 0 {
      TraceStaysWithin(r, w, attempts, n - 1);
      assert IsAttempt(r, w, attempts, n - 1);
      AttemptSpends(r, w, n - 1, Before(r, attempts, n - 1));
    }
  }

  /** Attempt 0 runs on the channel chosen before, so it never switches groups, and a second needs a retry. */
  lemma SecondNeedsRetry(r: Request, w: World, attempts: seq<Attempt>)
    requires IsTrace(r, w, attempts) && |attempts| > 1
    ensures r.retryTimes >= 1
  {
    assert IsAttempt(r, w, attempts, 0);
    assert IsAttempt(r, w, attempts, 1);
  }

  function AttemptLimit(r: Request): (n: int) {
    if r.retryTimes == 0 then 1 else CounterLimit(r)
  }

  /** A request makes at most RetryTimes + 1 attempts in each group it may still use. */
  lemma AttemptsAreBounded(r: Request, w: World, attempts: seq<Attempt>)
    requires r.start <= r.groups && IsTrace(r, w, attempts)
    ensures |attempts| <= AttemptLimit(r)
  {
    TraceStaysWithin(r, w, attempts, |attempts|);
    if |attempts| > 1 {
      SecondNeedsRetry(r, w, attempts);
    }
  }

  // ---- When RetryTimes + 1 bounds the attempts ----------------------------------------------------------------------

  /** The error is retried as long as retries are left. */
  ghost predicate Retryable(r: Request, e: ApiError) {
    forall left :: left >= 1 ==> r.decide(e, left)
  }

  /** Everything works but the upstream, which always answers `e`; in group `empty` no channel is left. */
  function AllFail(e: ApiError, empty: nat): (w: World) {
    World((n: nat, g: nat) => g != empty, (n: nat) => None, (n: nat) => None, (n: nat) => Some(e), e)
  }

  /** After `k + 1` attempts: one in the first group, then `k` in the second. */
  ghost predicate Moved(r: Request, e: ApiError, attempts: seq<Attempt>, k: nat) {
    && IsTrace(r, AllFail(e, r.start), attempts) && |attempts| == k + 1
    && Before(r, attempts, |attempts|) == (if k == 0 then Param(1, false, r.start) else Param(k, false, r.start + 1))
    && Continues(r, attempts[k])
  }

  lemma SelectsSecondGroup(r: Request, e: ApiError, n: nat, p: Param)
    requires r.groups - r.start >= 2 && r.retryTimes >= 1
    ensures p.group == r.start ==>
              Selected(r, AllFail(e, r.start), n, p) == Choice(true, p.(retry := 0, group := r.start + 1))
    ensures p.group == r.start + 1 && p.retry < r.retryTimes ==> Selected(r, AllFail(e, r.start), n, p) == Choice(true, p)
  {
    var all := AllFail(e, r.start).has;
    var has := (g: nat) => all(n, g);
    var q := p.(retry := 0, group := r.start + 1);
    assert all(n, r.start + 1) && has(r.start + 1);
    assert Select(r.groups, r.cross, r.retryTimes, has, q, r.start + 1) == Choice(true, q);
  }

  /** The first group has no further channel, so the second attempt moves on and the counter starts again. */
  lemma {:induction false} MovesOn(r: Request, e: ApiError, k: nat) returns (attempts: seq<Attempt>)
    requires !r.locked && r.groups - r.start >= 2 && k <= r.retryTimes && r.retryTimes >= 1 && Retryable(r, e)
    ensures Moved(r, e, attempts, k)
  {
    var w := AllFail(e, r.start);
    if k == 0 {
      TraceSnoc(r, w, []);
      attempts := [] + [Attempt(Param(0, false, r.start), Some(e))];
    } else {
      var before := MovesOn(r, e, k - 1);
      SelectsSecondGroup(r, e, k, Before(r, before, k));
      TraceSnoc(r, w, before);
      attempts := before + [Attempt(Param(k - 1, false, r.start + 1), Some(e))];
    }
  }

  /** One attempt too many, with or without cross-group retry. */
  lemma OneTooMany(r: Request, e: ApiError) returns (attempts: seq<Attempt>)
    requires !r.locked && r.groups - r.start >= 2 && r.retryTimes >= 1 && Retryable(r, e)
    ensures IsTrace(r, AllFail(e, r.start), attempts) && |attempts| == r.retryTimes + 2
  {
    var before := MovesOn(r, e, r.retryTimes);
    TraceSnoc(r, AllFail(e, r.start), before);
    var n := |before|;
    attempts := before + [Attempt(RunsWith(r, AllFail(e, r.start), n, Before(r, before, n)), Some(e))];
  }

  ghost predicate AlwaysWithin(r: Request, limit: int) {
    forall w: World, xs: seq<Attempt> :: IsTrace(r, w, xs) ==> |xs| <= limit
  }

  /** Exactly when no run exceeds RetryTimes + 1 attempts, for requests with some retryable error. */
  lemma BoundedByRetryTimesIff(r: Request)
    requires r.start <= r.groups && exists e :: Retryable(r, e)
    ensures AlwaysWithin(r, r.retryTimes + 1) <==> r.locked || r.groups - r.start <= 1 || r.retryTimes == 0
  {
    if r.locked || r.groups - r.start <= 1 || r.retryTimes == 0 {
      forall w: World, xs: seq<Attempt> | IsTrace(r, w, xs) ensures |xs| <= r.retryTimes + 1 {
        AttemptsAreBounded(r, w, xs);
      }
    } else {
      var e :| Retryable(r, e);
      var xs := OneTooMany(r, e);
      assert IsTrace(r, AllFail(e, r.start), xs);
    }
  }

  function RelayOf(p: Policy, groups: nat, start: nat, cross: bool): (r: Request) {
    Request(groups, start, cross, false, p.retryTimes, (e, left) => ShouldRetry(p, e, left))
  }

  function TaskOf(p: Policy, groups: nat, start: nat, cross: bool, locked: bool): (r: Request) {
    Request(groups, start, cross, locked, p.retryTimes, (e, left) => ShouldRetryTask(p, e, left))
  }

  /** `Relay` keeps to RetryTimes + 1 attempts exactly for one group or without retries. */
  lemma RelayBoundedIff(p: Policy, groups: nat, start: nat, cross: bool)
    requires start <= groups
    ensures AlwaysWithin(RelayOf(p, groups, start, cross), p.retryTimes + 1) <==> groups - start <= 1 || p.retryTimes == 0
  {
    assert Retryable(RelayOf(p, groups, start, cross), ApiError(true, false, false, false, 500));
    BoundedByRetryTimesIff(RelayOf(p, groups, start, cross));
  }

  /** A token that names a channel gets no second attempt from `RelayTask`. */
  lemma SpecificChannelTriesOnce(p: Policy, groups: nat, start: nat, cross: bool, locked: bool, w: World, xs: seq<Attempt>)
    requires p.specificChannel && IsTrace(TaskOf(p, groups, start, cross, locked), w, xs)
    ensures |xs| <= 1
  {
    assert |xs| > 1 ==> IsAttempt(TaskOf(p, groups, start, cross, locked), w, xs, 1);
  }

  /** `RelayTask` keeps to RetryTimes + 1 attempts exactly for a named or locked channel, one group, or without retries. */
  lemma TaskBoundedIff(p: Policy, groups: nat, start: nat, cross: bool, locked: bool)
    requires start <= groups
    ensures AlwaysWithin(TaskOf(p, groups, start, cross, locked), p.retryTimes + 1)
            <==> p.specificChannel || locked || groups - start <= 1 || p.retryTimes == 0
  {
    var r := TaskOf(p, groups, start, cross, locked);
    if p.specificChannel {
      forall w: World, xs: seq<Attempt> | IsTrace(r, w, xs) ensures |xs| <= p.retryTimes + 1 {
        SpecificChannelTriesOnce(p, groups, start, cross, locked, w, xs);
      }
    } else {
      assert Retryable(r, ApiError(false, false, false, false, 429));
      BoundedByRetryTimesIff(r);
    }
  }

  // ---- The per-group bound is reached --------------------------------------------------------------------------------

  /** The attempts of the groups before `g` and the first `k` of group `g`. */
  ghost predicate FillsUpTo(r: Request, e: ApiError, attempts: seq<Attempt>, g: nat, k: nat) {
    && IsTrace(r, AllFail(e, r.groups), attempts)
    && |attempts| == (g - r.start) * (r.retryTimes + 1) + k
    && Before(r, attempts, |attempts|) == Param(k, false, g)
    && (attempts != [] ==> Continues(r, attempts[|attempts| - 1]))
  }

  lemma OneMoreFails(r: Request, e: ApiError, attempts: seq<Attempt>, g: nat, k: nat) returns (more: seq<Attempt>)
    requires r.cross && !r.locked && r.retryTimes >= 1 && Retryable(r, e)
    requires r.start <= g < r.groups && k <= r.retryTimes && FillsUpTo(r, e, attempts, g, k)
    ensures if k < r.retryTimes then FillsUpTo(r, e, more, g, k + 1) else FillsUpTo(r, e, more, g + 1, 0)
  {
    var n := |attempts|;
    var p := Before(r, attempts, n);
    TraceSnoc(r, AllFail(e, r.groups), attempts);
    more := attempts + [Attempt(RunsWith(r, AllFail(e, r.groups), n, p), Some(e))];
    assert (g + 1 - r.start) * (r.retryTimes + 1) == (g - r.start) * (r.retryTimes + 1) + (r.retryTimes + 1);
    assert n == 0 ==> k == 0;
  }

  lemma {:induction false} GroupsFill(r: Request, e: ApiError, g: nat, k: nat) returns (attempts: seq<Attempt>)
    requires r.cross && !r.locked && r.retryTimes >= 1 && Retryable(r, e)
    requires (r.start <= g < r.groups && k <= r.retryTimes) || (r.start <= g == r.groups && k == 0)
    ensures FillsUpTo(r, e, attempts, g, k)
    decreases g, k
  {
    if k > 0 {
      attempts := GroupsFill(r, e, g, k - 1);
      attempts := OneMoreFails(r, e, attempts, g, k - 1);
    } else if g > r.start {
      attempts := GroupsFill(r, e, g - 1, r.retryTimes);
      attempts := OneMoreFails(r, e, attempts, g - 1, r.retryTimes);
    } else {
      attempts := [];
    }
  }

  /** With cross-group retry an error that is retried while retries are left uses up every group's share. */
  lemma LimitIsReached(r: Request, e: ApiError) returns (attempts: seq<Attempt>)
    requires r.cross && !r.locked && r.start < r.groups && r.retryTimes >= 1 && Retryable(r, e)
    ensures IsTrace(r, AllFail(e, r.groups), attempts) && Stops(r, AllFail(e, r.groups), attempts, Some(e))
    ensures |attempts| == AttemptLimit(r) == (r.groups - r.start) * (r.retryTimes + 1)
  {
    attempts := GroupsFill(r, e, r.groups, 0);
    AtLeastOnce(r.groups - r.start, r.retryTimes + 1);
  }

  // ---- The handlers ------------------------------------------------------------------------------------------------

  /** Choosing the channel of attempt `n` and reading the body. */
  method Prepare(r: Request, w: World, n: nat, p: Param) returns (q: Param, refusal: Option<ApiError>)
    ensures refusal == Refusal(r, w, n, p)
    ensures refusal == None ==> q == RunsWith(r, w, n, p)
  {
    q := p;
    if n > 0 {
      if !r.locked {
        var choice := Selected(r, w, n, p);
        if !choice.found {
          return q, Some(w.noChannel);
        }
        q := choice.param;
      }
      var setupError := w.setup(n);
      if setupError.Some? {
        return q, setupError;
      }
    }
    refusal := w.body(n);
  }

  /** How the writes of the billing calls turn out. */
  datatype Writes = Writes(fundOk: bool, extraOk: bool, tokenOk: bool)

  datatype PreWrites = PreWrites(tokenOk: bool, fundOk: bool, rollbackOk: bool)

  predicate PreConsumes(k: Kind, quota: nat, trust: bool, ok: PreWrites) {
    Taken(k, quota, trust) == 0 || ((k.playground || ok.tokenOk) && ok.fundOk)
  }

  /** The one billing call at the end: settlement if no error is left, refund otherwise. */
  function LastCall(error: Option<ApiError>, price: int, ok: Writes): (c: Call) {
    if error == None then Settle(price, ok.fundOk, ok.tokenOk) else Refund(ok.fundOk, ok.extraOk, ok.tokenOk)
  }

  /** Settled for a price, or given back; never both. */
  ghost predicate EndsSettled(s: Session, price: int) {
    s.settled && !s.refunded && s.fundCharge == price && s.tokenCharge == TokenPart(s.kind, price)
  }

  ghost predicate EndsFree(s: Session) {
    !s.settled && s.fundCharge == 0 && s.tokenCharge == 0
  }

  lemma OpenedEnds(k: Kind, quota: nat, trust: bool, price: int)
    ensures EndsSettled(Step(Opened(k, quota, trust), Settle(price, true, true)), price)
    ensures EndsFree(Step(Opened(k, quota, trust), Refund(true, true, true)))
  {
  }

  function Last(attempts: seq<Attempt>): (n: nat) {
    if attempts == [] then 0 else |attempts| - 1
  }

  /** One pre-consumed session ended by one call. */
  ghost predicate EndsOnce(s: Session, k: Kind, quota: nat, trust: bool, error: Option<ApiError>, price: int, ok: Writes) {
    && s == Step(Opened(k, quota, trust), LastCall(error, price, ok))
    && (ok == Writes(true, true, true) ==> if error == None then EndsSettled(s, price) else EndsFree(s))
  }

  /** The state of either loop at its head. */
  ghost predicate Underway(r: Request, w: World, attempts: seq<Attempt>, error: Option<ApiError>, p: Param) {
    && IsTrace(r, w, attempts) && p == Before(r, attempts, |attempts|) && WithinBudget(r, |attempts|, p)
    && (attempts != [] ==>
          var last := attempts[|attempts| - 1];
          last.failure.Some? && error == last.failure && r.decide(last.failure.value, r.retryTimes - last.param.retry))
  }

  function Left(r: Request, p: Param): (n: int) {
    if r.locked then r.retryTimes - p.retry else Budget(r.groups, r.retryTimes, p)
  }

  lemma UnderwaySnoc(r: Request, w: World, attempts: seq<Attempt>, error: Option<ApiError>, p: Param)
    requires r.start <= r.groups && Underway(r, w, attempts, error, p) && p.retry <= r.retryTimes
    requires Refusal(r, w, |attempts|, p) == None
    ensures var q := RunsWith(r, w, |attempts|, p);
            var more := attempts + [Attempt(q, w.answer(|attempts|))];
            && IsTrace(r, w, more) && WithinBudget(r, |more|, Increased(q)) && Before(r, more, |more|) == Increased(q)
            && (attempts != [] ==> 0 <= Left(r, p) && Left(r, Increased(q)) < Left(r, p))
  {
    AttemptSpends(r, w, |attempts|, p);
    TraceSnoc(r, w, attempts);
  }

  lemma StopsRefused(r: Request, w: World, attempts: seq<Attempt>, error: Option<ApiError>, p: Param)
    requires Underway(r, w, attempts, error, p) && p.retry <= r.retryTimes && Refusal(r, w, |attempts|, p).Some?
    ensures Stops(r, w, attempts, Refusal(r, w, |attempts|, p))
  {
  }

  lemma StopsSpent(r: Request, w: World, attempts: seq<Attempt>, error: Option<ApiError>, p: Param)
    requires Underway(r, w, attempts, error, p) && p.retry > r.retryTimes
    ensures Stops(r, w, attempts, error) && error.Some?
  {
  }

  lemma StopsLast(r: Request, w: World, attempts: seq<Attempt>, error: Option<ApiError>)
    requires attempts != [] && error == attempts[|attempts| - 1].failure && !Continues(r, attempts[|attempts| - 1])
    ensures Stops(r, w, attempts, error)
  {
  }

  // ---- The attempts in terms of the policy ----------------------------------------------------------------------------

  /** The attempt failed with an error that is wanted again, and the counter is not spent. */
  predicate TriesAgain(a: Attempt, retryTimes: int, wants: (ApiError, int) -> bool) {
    && a.failure.Some? && wants(a.failure.value, retryTimes - a.param.retry)
    && (a.param.retry < retryTimes || (a.param.reset && a.param.retry <= retryTimes))
  }

  /** Some group from `group` on has a channel for attempt `n`. */
  predicate HasChannel(w: World, groups: nat, n: nat, group: nat) {
    exists g: nat :: group <= g < groups && w.has(n, g)
  }

  /** Why attempt `n` cannot be made, if it cannot: no group from `group` on has a channel, or setting the channel up or
      reading the body fails. */
  function Obstacle(w: World, groups: nat, locked: bool, n: nat, group: nat): (e: Option<ApiError>) {
    if !locked && !HasChannel(w, groups, n, group) then Some(w.noChannel)
    else if w.setup(n).Some? then w.setup(n)
    else w.body(n)
  }

  /** Attempts are made as long as they are wanted and possible, and the error is the one that ended them. */
  ghost predicate TriesAsWanted(attempts: seq<Attempt>, error: Option<ApiError>, w: World, groups: nat, locked: bool,
                                retryTimes: int, wants: (ApiError, int) -> bool) {
    var n := |attempts|;
    && (forall k :: 0 <= k < n ==> attempts[k].failure == w.answer(k))
    && (forall k :: 0 <= k < n - 1 ==>
          TriesAgain(attempts[k], retryTimes, wants) && Obstacle(w, groups, locked, k + 1, attempts[k].param.group) == None)
    && (if n == 0 then w.body(0).Some? && error == w.body(0)
        else if !TriesAgain(attempts[n - 1], retryTimes, wants) then error == attempts[n - 1].failure
        else Obstacle(w, groups, locked, n, attempts[n - 1].param.group).Some?
             && error == Obstacle(w, groups, locked, n, attempts[n - 1].param.group))
  }

  lemma FoundIffChannel(r: Request, w: World, n: nat, p: Param)
    ensures Selected(r, w, n, p).found <==> HasChannel(w, r.groups, n, p.group)
  {
    var all := w.has;
    var has := (g: nat) => all(n, g);
    SelectMeans(r.groups, r.cross, r.retryTimes, has, p, p.group);
    forall g: nat ensures has(g) == w.has(n, g) { }
    if g: nat :| p.group <= g < r.groups && w.has(n, g) {
      assert has(g);
    }
    if g: nat :| p.group <= g < r.groups && has(g) {
      assert w.has(n, g);
    }
  }

  lemma RefusalIsObstacle(r: Request, w: World, n: nat, p: Param)
    requires n > 0
    ensures Refusal(r, w, n, p) == Obstacle(w, r.groups, r.locked, n, p.group)
  {
    FoundIffChannel(r, w, n, p);
  }

  lemma ContinuesIsTriesAgain(r: Request, a: Attempt, wants: (ApiError, int) -> bool)
    requires forall e, left :: r.decide(e, left) <==> wants(e, left)
    ensures Continues(r, a) <==> TriesAgain(a, r.retryTimes, wants)
  {
  }

  lemma TraceTriesAt(r: Request, w: World, attempts: seq<Attempt>, wants: (ApiError, int) -> bool, k: nat)
    requires IsTrace(r, w, attempts) && k + 1 < |attempts|
    requires forall e, left :: r.decide(e, left) <==> wants(e, left)
    ensures TriesAgain(attempts[k], r.retryTimes, wants)
    ensures Obstacle(w, r.groups, r.locked, k + 1, attempts[k].param.group) == None
  {
    assert IsAttempt(r, w, attempts, k + 1);
    ContinuesIsTriesAgain(r, attempts[k], wants);
    RefusalIsObstacle(r, w, k + 1, Before(r, attempts, k + 1));
  }

  lemma TraceTriesAsWanted(r: Request, w: World, attempts: seq<Attempt>, error: Option<ApiError>, wants: (ApiError, int) -> bool)
    requires IsTrace(r, w, attempts) && Stops(r, w, attempts, error)
    requires forall e, left :: r.decide(e, left) <==> wants(e, left)
    ensures TriesAsWanted(attempts, error, w, r.groups, r.locked, r.retryTimes, wants)
  {
    var n := |attempts|;
    forall k | 0 <= k < n ensures attempts[k].failure == w.answer(k) {
      assert IsAttempt(r, w, attempts, k);
    }
    forall k | 0 <= k < n - 1
      ensures TriesAgain(attempts[k], r.retryTimes, wants) && Obstacle(w, r.groups, r.locked, k + 1, attempts[k].param.group) == None
    {
      TraceTriesAt(r, w, attempts, wants, k);
    }
    if n > 0 {
      ContinuesIsTriesAgain(r, attempts[n - 1], wants);
      RefusalIsObstacle(r, w, n, Before(r, attempts, n));
    }
  }

  /** The settlement of a success, or the deferred refund of an error; nothing for a free model. */
  method Finish(session: BillingSession?, error: Option<ApiError>, price: int, ok: Writes,
                ghost kind: Kind, ghost quota: nat, ghost trust: bool)
    requires session != null ==> session.Valid() && session.Value() == Opened(kind, quota, trust)
    modifies session
    ensures session != null ==> EndsOnce(session.Value(), kind, quota, trust, error, price, ok)
  {
    OpenedEnds(kind, quota, trust, price);
    if session != null {
      if error == None {
        var _ := session.SettleTo(price, ok.fundOk, ok.tokenOk);
      } else {
        session.RefundAll(ok.fundOk, ok.extraOk, ok.tokenOk);
      }
    }
  }

  /** The loop of `Relay`: the attempt that succeeds settles inside its handler, and an error that is left at the end
      is refunded by the deferred call.  A free model has no session. */
  method RequestLoop(r: Request, w: World, session: BillingSession?, price: nat -> int, ok: Writes,
                     ghost kind: Kind, ghost quota: nat, ghost trust: bool)
    returns (attempts: seq<Attempt>, error: Option<ApiError>)
    requires r.start <= r.groups
    requires session != null ==> session.Valid() && session.Value() == Opened(kind, quota, trust)
    modifies session
    ensures IsTrace(r, w, attempts) && Stops(r, w, attempts, error)
    ensures session != null ==> EndsOnce(session.Value(), kind, quota, trust, error, price(Last(attempts)), ok)
  {
    attempts, error := [], None;
    var p := Param(0, false, r.start);
    while p.retry <= r.retryTimes
      invariant session != null ==> session.Valid() && session.Value() == Opened(kind, quota, trust)
      invariant Underway(r, w, attempts, error, p)
      invariant p.retry > r.retryTimes ==> Stops(r, w, attempts, error) && error.Some?
      decreases if attempts == [] then 1 else 0, Left(r, p)
    {
      var n := |attempts|;
      var q, refusal := Prepare(r, w, n, p);
      if refusal.Some? {
        StopsRefused(r, w, attempts, error, p);
        error := refusal;
        break;
      }
      UnderwaySnoc(r, w, attempts, error, p);
      error := w.answer(n);
      attempts := attempts + [Attempt(q, error)];
      if error == None {
        StopsLast(r, w, attempts, error);
        Finish(session, error, price(n), ok, kind, quota, trust);
        return;
      }
      if !r.decide(error.value, r.retryTimes - q.retry) {
        StopsLast(r, w, attempts, error);
        break;
      }
      p := Increased(q);
      if p.retry > r.retryTimes {
        StopsSpent(r, w, attempts, error, p);
      }
    }
    assert Stops(r, w, attempts, error) && error.Some?;
    Finish(session, error, price(Last(attempts)), ok, kind, quota, trust);
  }

  /** `Relay` from pre-consuming on. */
  method RelayRequest(policy: Policy, groups: nat, start: nat, cross: bool, w: World,
                      free: bool, kind: Kind, quota: nat, trust: bool, preOk: PreWrites, payError: ApiError,
                      price: nat -> int, ok: Writes)
    returns (attempts: seq<Attempt>, error: Option<ApiError>, session: BillingSession?)
    requires start <= groups
    ensures session != null <==> !free && PreConsumes(kind, quota, trust, preOk)
    ensures !free && session == null ==> attempts == [] && error == Some(payError)
    ensures free || session != null ==>
              var r := RelayOf(policy, groups, start, cross);
              IsTrace(r, w, attempts) && Stops(r, w, attempts, error) && |attempts| <= AttemptLimit(r)
    ensures free || session != null ==>
              TriesAsWanted(attempts, error, w, groups, false, policy.retryTimes, (e, left) => RelayWants(policy, e, left))
    ensures error == None ==> attempts != [] && attempts[|attempts| - 1].failure == None
    ensures session != null ==> EndsOnce(session.Value(), kind, quota, trust, error, price(Last(attempts)), ok)
  {
    session := null;
    if !free {
      session := new BillingSession(kind);
      var consumed := session.PreConsume(quota, trust, preOk.tokenOk, preOk.fundOk, preOk.rollbackOk);
      if !consumed {
        return [], Some(payError), null;
      }
    }
    var r := RelayOf(policy, groups, start, cross);
    attempts, error := RequestLoop(r, w, session, price, ok, kind, quota, trust);
    AttemptsAreBounded(r, w, attempts);
    forall e, left ensures r.decide(e, left) <==> RelayWants(policy, e, left) { DecisionsAreWants(policy, e, left); }
    TraceTriesAsWanted(r, w, attempts, error, (e, left) => RelayWants(policy, e, left));
  }

  // ---- Task submission ---------------------------------------------------------------------------------------------

  /** What each submission finds when it comes to pre-consuming: the quota (None if it fails before or the model is
      free), how the writes turn out, and the error when they do not. */
  datatype Pay = Pay(kind: Kind, charges: nat -> Option<nat>, pre: nat -> PreWrites, refused: ApiError)

  /** Attempt `n` would open the session.  A task is never trusted. */
  predicate Opens(pay: Pay, n: nat) {
    pay.charges(n).Some? && PreConsumes(pay.kind, pay.charges(n).value, false, pay.pre(n))
  }

  /** The first of `n` attempts that opened the session. */
  function OpenedBy(pay: Pay, n: nat): (k: Option<nat>)
    ensures k.Some? ==> k.value < n && Opens(pay, k.value) && forall j :: 0 <= j < k.value ==> !Opens(pay, j)
    ensures k == None ==> forall j :: 0 <= j < n ==> !Opens(pay, j)
  {
    if n == 0 then None
    else if OpenedBy(pay, n - 1).Some? then OpenedBy(pay, n - 1)
    else if Opens(pay, n - 1) then Some(n - 1)
    else None
  }

  function TaskAnswer(w: World, pay: Pay, n: nat): (e: Option<ApiError>) {
    if OpenedBy(pay, n) == None && pay.charges(n).Some? && !Opens(pay, n) then Some(pay.refused) else w.answer(n)
  }

  /** The answers as the loop sees them. */
  function TaskWorld(w: World, pay: Pay): (w': World) {
    w.(answer := (n: nat) => TaskAnswer(w, pay, n))
  }

  /** The session after the first `n` attempts. */
  ghost predicate SessionAfter(session: BillingSession?, pay: Pay, n: nat)
    reads session
  {
    var k := OpenedBy(pay, n);
    && (session == null <==> k == None)
    && (session != null ==> session.Valid() && session.Value() == Opened(pay.kind, pay.charges(k.value).value, false))
  }

  /** `RelayTaskSubmit`: pre-consume unless an earlier attempt did, then submit. */
  method Submit(w: World, pay: Pay, n: nat, session: BillingSession?)
    returns (answer: Option<ApiError>, session': BillingSession?)
    requires SessionAfter(session, pay, n)
    ensures answer == TaskAnswer(w, pay, n) && SessionAfter(session', pay, n + 1)
    ensures session' == session || (session' != null && fresh(session'))
  {
    session' := session;
    if session == null && pay.charges(n).Some? {
      var billing := new BillingSession(pay.kind);
      var ok := pay.pre(n);
      var consumed := billing.PreConsume(pay.charges(n).value, false, ok.tokenOk, ok.fundOk, ok.rollbackOk);
      if !consumed {
        return Some(pay.refused), null;
      }
      session' := billing;
    }
    answer := w.answer(n);
  }

  method TaskLoop(r: Request, w: World, pay: Pay)
    returns (attempts: seq<Attempt>, error: Option<ApiError>, session: BillingSession?)
    requires r.start <= r.groups
    ensures IsTrace(r, TaskWorld(w, pay), attempts) && Stops(r, TaskWorld(w, pay), attempts, error)
    ensures SessionAfter(session, pay, |attempts|) && (session != null ==> fresh(session))
  {
    attempts, error, session := [], None, null;
    ghost var w' := TaskWorld(w, pay);
    var p := Param(0, false, r.start);
    while p.retry <= r.retryTimes
      invariant SessionAfter(session, pay, |attempts|) && (session != null ==> fresh(session))
      invariant Underway(r, w', attempts, error, p)
      invariant p.retry > r.retryTimes ==> Stops(r, w', attempts, error)
      decreases if attempts == [] then 1 else 0, Left(r, p)
    {
      var n := |attempts|;
      var q, refusal := Prepare(r, w, n, p);
      SameChannels(r, w, pay, n, p);
      if refusal.Some? {
        StopsRefused(r, w', attempts, error, p);
        error := refusal;
        return;
      }
      UnderwaySnoc(r, w', attempts, error, p);
      error, session := Submit(w, pay, n, session);
      attempts := attempts + [Attempt(q, error)];
      if error == None || !r.decide(error.value, r.retryTimes - q.retry) {
        StopsLast(r, w', attempts, error);
        return;
      }
      p := Increased(q);
      if p.retry > r.retryTimes {
        StopsSpent(r, w', attempts, error, p);
      }
    }
  }

  lemma SameChannels(r: Request, w: World, pay: Pay, n: nat, p: Param)
    ensures Refusal(r, w, n, p) == Refusal(r, TaskWorld(w, pay), n, p)
    ensures RunsWith(r, w, n, p) == RunsWith(r, TaskWorld(w, pay), n, p)
  {
  }

  /** `RelayTask`: settlement after the loop when it ended without an error, refund otherwise. */
  method RelayTask(policy: Policy, groups: nat, start: nat, cross: bool, locked: bool, w: World, pay: Pay, price: int, ok: Writes)
    returns (attempts: seq<Attempt>, error: Option<ApiError>, session: BillingSession?)
    requires start <= groups
    ensures var r := TaskOf(policy, groups, start, cross, locked);
            && IsTrace(r, TaskWorld(w, pay), attempts) && Stops(r, TaskWorld(w, pay), attempts, error)
            && |attempts| <= AttemptLimit(r)
    ensures TriesAsWanted(attempts, error, TaskWorld(w, pay), groups, locked, policy.retryTimes, (e, left) => TaskWants(policy, e, left))
    ensures error == None ==> attempts != [] && attempts[|attempts| - 1].failure == None
    ensures session != null <==> OpenedBy(pay, |attempts|).Some?
    ensures session != null ==>
              EndsOnce(session.Value(), pay.kind, pay.charges(OpenedBy(pay, |attempts|).value).value, false, error, price, ok)
  {
    var r := TaskOf(policy, groups, start, cross, locked);
    attempts, error, session := TaskLoop(r, w, pay);
    AttemptsAreBounded(r, TaskWorld(w, pay), attempts);
    forall e, left ensures r.decide(e, left) <==> TaskWants(policy, e, left) { DecisionsAreWants(policy, e, left); }
    TraceTriesAsWanted(r, TaskWorld(w, pay), attempts, error, (e, left) => TaskWants(policy, e, left));
    ghost var k := OpenedBy(pay, |attempts|);
    Finish(session, error, price, ok, pay.kind, if k.Some? then pay.charges(k.value).value else 0, false);
  }
}
