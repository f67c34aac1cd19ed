/** Crediting of top-up orders under the order lock: the locked sections of `EpayNotify`,
    `sessionAsyncPaymentFailed` and `sessionExpired`, run by any number of threads over `LockProtocol`.

    Every database call is its own atomic step and may fail, in which case it changes nothing. */
module TopUp {
  import opened Wrappers
  import opened LockProtocol

  datatype Status = Pending | Success | Failed | Expired

  datatype Provider = Epay | Stripe | OtherProvider(name: string)

  datatype Order = Order(user: int, amount: int, provider: Provider, paymentMethod: string, status: Status)

  datatype Handler = EpaySuccess(paidBy: string) | StripeFailed | StripeExpired

  /** Where a handler is inside its locked section, with its local copy of the row. */
  datatype Stage = Start | Save(row: Order) | Credit(row: Order) | Finished

  datatype Job = Job(handler: Handler, stage: Stage)

  /** One successful `IncreaseUserQuota`. */
  datatype Entry = Entry(key: Key, user: int, quota: int)

  datatype Sys = Sys(
    lock: State,
    jobs: map<Tid, Job>,
    orders: map<Key, Order>,
    balance: map<int, int>,
    ledger: seq<Entry>)

  datatype Event =
    | Begin(t: Tid, key: Key, handler: Handler)
    | Protocol(t: Tid)
    | Work(t: Tid, ok: bool)
    | Finish(t: Tid)
    | Place(key: Key, order: Order)

  /** `decimal.IntPart`: truncation toward zero. */
  function IntPart(x: real): (n: int) {
    if x >= 0.0 then x.Floor else -((-x).Floor)
  }

  lemma WholePart(x: real)
    ensures x >= 0.0 ==> IntPart(x) == x.Floor >= 0
    ensures -1.0 < x < 0.0 ==> IntPart(x) == 0
    ensures x <= -1.0 ==> IntPart(x) < 0
  {
    if x < 0.0 {
      var n := (-x).Floor;
      assert n as real <= -x < (n + 1) as real;
    }
  }

  function QuotaOf(o: Order, unit: real): (q: int) {
    IntPart(o.amount as real * unit)
  }

  /** The quota is the whole part of amount × unit, truncated toward zero. */
  lemma QuotaIsWholePart(o: Order, unit: real)
    ensures var worth := o.amount as real * unit;
            && (QuotaOf(o, unit) >= 0 <==> worth > -1.0)
            && (worth > -1.0 ==> QuotaOf(o, unit) == if worth >= 0.0 then worth.Floor else 0)
  {
    WholePart(o.amount as real * unit);
  }

  /** The row a handler wants to store, or None when it leaves the order alone. */
  function Decide(h: Handler, o: Order): (row: Option<Order>) {
    if o.status != Pending then None
    else match h
      case EpaySuccess(m) => if o.provider == Epay then Some(o.(paymentMethod := m, status := Success)) else None
      case StripeFailed => if o.provider == Stripe then Some(o.(status := Failed)) else None
      case StripeExpired => if o.provider == Stripe then Some(o.(status := Expired)) else None
  }

  function After(s: Sys, t: Tid, stage: Stage): (s': Sys)
    requires t in s.jobs
  {
    s.(jobs := s.jobs[t := s.jobs[t].(stage := stage)])
  }

  /** One database call of thread `t`, which holds the lock of order `k`. */
  function DoWork(s: Sys, t: Tid, k: Key, ok: bool, unit: real): (s': Sys)
    requires t in s.jobs
  {
    var job := s.jobs[t];
    match job.stage
    case Start =>
      // a failed read is treated like a missing order
      if !ok || k !in s.orders || Decide(job.handler, s.orders[k]) == None then After(s, t, Finished)
      else
        var row := Decide(job.handler, s.orders[k]).value;
        // the expiry handler reads and writes in one database transaction
        if job.handler.StripeExpired? then After(s, t, Finished).(orders := s.orders[k := row])
        else After(s, t, Save(row))
    case Save(row) =>
      if !ok then After(s, t, Finished)
      else if job.handler.EpaySuccess? then After(s, t, Credit(row)).(orders := s.orders[k := row])
      else After(s, t, Finished).(orders := s.orders[k := row])
    case Credit(row) =>
      var q := QuotaOf(row, unit);
      // a negative amount is an error, and an update of an unknown user touches no row
      if !ok || q < 0 || row.user !in s.balance then After(s, t, Finished)
      else After(s, t, Finished).(balance := s.balance[row.user := s.balance[row.user] + q],
                                  ledger := s.ledger + [Entry(k, row.user, q)])
    case Finished => s
  }

  predicate Possible(s: Sys, e: Event) {
    match e
    case Begin(t, k, _) => Enabled(s.lock, Enter(t, k))
    case Protocol(t) => Enabled(s.lock, Step(t))
    case Work(t, _) => t in s.lock.threads && t in s.jobs && s.lock.threads[t].pc.Inside? && !s.jobs[t].stage.Finished?
    case Finish(t) => t in s.jobs && s.jobs[t].stage.Finished? && Enabled(s.lock, Leave(t))
    case Place(k, o) => k !in s.orders && o.status == Pending
  }

  function Do(s: Sys, e: Event, unit: real): (s': Sys)
    requires Possible(s, e)
  {
    match e
    case Begin(t, k, h) => s.(lock := Next(s.lock, Enter(t, k)), jobs := s.jobs[t := Job(h, Start)])
    case Protocol(t) => s.(lock := Next(s.lock, Step(t)))
    case Work(t, ok) => DoWork(s, t, s.lock.threads[t].key, ok, unit)
    case Finish(t) => s.(lock := Next(s.lock, Leave(t)))
    case Place(k, o) => s.(orders := s.orders[k := o])
  }

  // ---- The invariant ------------------------------------------------------------------------------

  ghost predicate Exclusive(l: State) {
    forall t, u ::
      (t in l.threads && u in l.threads && Holding(l.threads[t].pc) && Holding(l.threads[u].pc)
       && l.threads[t].key == l.threads[u].key) ==> t == u
  }

  ghost predicate Credited(s: Sys, k: Key) {
    exists i :: 0 <= i < |s.ledger| && s.ledger[i].key == k
  }

  /** What a handler inside its section knows about the stored order. */
  ghost predicate StageInv(s: Sys, k: Key, job: Job) {
    match job.stage
    case Start => true
    case Finished => true
    case Save(row) => k in s.orders && Decide(job.handler, s.orders[k]) == Some(row) && !job.handler.StripeExpired?
    case Credit(row) => k in s.orders && s.orders[k] == row && row.status == Success && !Credited(s, k)
  }

  ghost predicate JobsInv(s: Sys) {
    && s.jobs.Keys == s.lock.threads.Keys
    && forall t <- s.jobs ::
         && (Locking(s.lock.threads[t].pc) ==> s.jobs[t].stage.Start?)
         && (s.lock.threads[t].pc.Inside? ==> StageInv(s, s.lock.threads[t].key, s.jobs[t]))
  }

  /** Every credit belongs to a different order, which is stored as success and priced as credited. */
  ghost predicate Backed(ledger: seq<Entry>, orders: map<Key, Order>, unit: real) {
    && (forall i :: 0 <= i < |ledger| ==>
          var e := ledger[i];
          && e.key in orders && orders[e.key].status == Success
          && e.user == orders[e.key].user && e.quota == QuotaOf(orders[e.key], unit))
    && (forall i, j :: 0 <= i < j < |ledger| ==> ledger[i].key != ledger[j].key)
  }

  ghost predicate LedgerInv(s: Sys, unit: real) {
    Backed(s.ledger, s.orders, unit)
  }

  ghost predicate DataInv(s: Sys, unit: real) {
    JobsInv(s) && LedgerInv(s, unit)
  }

  /** Orders keep their buyer, amount and provider, and a status other than pending is final. */
  ghost predicate Settles(before: map<Key, Order>, after: map<Key, Order>) {
    forall k <- before ::
      && k in after
      && after[k].user == before[k].user && after[k].amount == before[k].amount
      && after[k].provider == before[k].provider
      && (before[k].status != Pending ==> after[k] == before[k])
  }

  lemma ExclusiveFromInv(l: State)
    requires Inv(l)
    ensures Exclusive(l)
  {
    forall t, u | t in l.threads && u in l.threads && Holding(l.threads[t].pc) && Holding(l.threads[u].pc)
                  && l.threads[t].key == l.threads[u].key
      ensures t == u
    {
      assert ThreadInv(l, t) && ThreadInv(l, u);
    }
  }

  /** A database call touches its own order and its own job only. */
  lemma WorkFrame(s: Sys, t: Tid, k: Key, ok: bool, unit: real)
    requires t in s.jobs
    ensures var s' := DoWork(s, t, k, ok, unit);
            && s'.lock == s.lock && s'.jobs.Keys == s.jobs.Keys
            && (forall u <- s.jobs :: u != t ==> s'.jobs[u] == s.jobs[u])
            && (forall j :: j != k ==> Lookup(s'.orders, j) == Lookup(s.orders, j))
            && (forall j :: j != k && Credited(s', j) ==> Credited(s, j))
  {
  }

  lemma WorkKeepsOwnStage(s: Sys, t: Tid, k: Key, ok: bool, unit: real)
    requires t in s.jobs && StageInv(s, k, s.jobs[t]) && LedgerInv(s, unit)
    ensures var s' := DoWork(s, t, k, ok, unit); StageInv(s', k, s'.jobs[t])
  {
  }

  lemma WorkKeepsJobs(s: Sys, t: Tid, ok: bool, unit: real)
    requires DataInv(s, unit) && Exclusive(s.lock) && Possible(s, Work(t, ok))
    ensures JobsInv(Do(s, Work(t, ok), unit))
  {
    var s' := Do(s, Work(t, ok), unit);
    var k := s.lock.threads[t].key;
    WorkFrame(s, t, k, ok, unit);
    WorkKeepsOwnStage(s, t, k, ok, unit);
    forall u | u in s.jobs && u != t && s.lock.threads[u].pc.Inside?
      ensures StageInv(s', s.lock.threads[u].key, s'.jobs[u])
    {
      var j := s.lock.threads[u].key;
      assert j != k && StageInv(s, j, s.jobs[u]);
      assert Lookup(s'.orders, j) == Lookup(s.orders, j);
    }
  }

  lemma StoreKeepsLedger(ledger: seq<Entry>, orders: map<Key, Order>, k: Key, h: Handler, unit: real)
    requires Backed(ledger, orders, unit) && k in orders && Decide(h, orders[k]).Some?
    ensures var orders' := orders[k := Decide(h, orders[k]).value];
            Backed(ledger, orders', unit) && Settles(orders, orders')
  {
  }

  lemma CreditKeepsLedger(ledger: seq<Entry>, orders: map<Key, Order>, k: Key, unit: real)
    requires Backed(ledger, orders, unit) && k in orders && orders[k].status == Success
    requires forall i :: 0 <= i < |ledger| ==> ledger[i].key != k
    ensures Backed(ledger + [Entry(k, orders[k].user, QuotaOf(orders[k], unit))], orders, unit)
  {
  }

  lemma WorkKeepsLedger(s: Sys, t: Tid, ok: bool, unit: real)
    requires DataInv(s, unit) && Possible(s, Work(t, ok))
    ensures LedgerInv(Do(s, Work(t, ok), unit), unit)
    ensures Settles(s.orders, Do(s, Work(t, ok), unit).orders)
  {
    var k, job := s.lock.threads[t].key, s.jobs[t];
    assert StageInv(s, k, job);
    if job.stage.Credit? {
      CreditKeepsLedger(s.ledger, s.orders, k, unit);
    } else if k in s.orders && Decide(job.handler, s.orders[k]).Some? {
      StoreKeepsLedger(s.ledger, s.orders, k, job.handler, unit);
    }
  }

  lemma ProtocolKeepsData(s: Sys, a: Action, h: Handler, unit: real)
    requires DataInv(s, unit) && Enabled(s.lock, a)
    ensures var jobs := if a.Enter? then s.jobs[a.t := Job(h, Start)] else s.jobs;
            DataInv(s.(lock := Next(s.lock, a), jobs := jobs), unit)
  {
    var jobs := if a.Enter? then s.jobs[a.t := Job(h, Start)] else s.jobs;
    var s' := s.(lock := Next(s.lock, a), jobs := jobs);
    forall u | u in s'.jobs && s'.lock.threads[u].pc.Inside?
      ensures StageInv(s', s'.lock.threads[u].key, s'.jobs[u])
    {
      assert u != a.t ==> StageInv(s, s.lock.threads[u].key, s.jobs[u]);
    }
  }

  lemma PlaceKeepsData(s: Sys, k: Key, o: Order, unit: real)
    requires DataInv(s, unit) && Possible(s, Place(k, o))
    ensures DataInv(Do(s, Place(k, o), unit), unit)
  {
    var s' := Do(s, Place(k, o), unit);
    forall u | u in s'.jobs && s'.lock.threads[u].pc.Inside?
      ensures StageInv(s', s'.lock.threads[u].key, s'.jobs[u])
    {
      assert StageInv(s, s.lock.threads[u].key, s.jobs[u]);
    }
  }

  lemma DoKeepsData(s: Sys, e: Event, unit: real)
    requires DataInv(s, unit) && Exclusive(s.lock) && Possible(s, e)
    ensures DataInv(Do(s, e, unit), unit) && Settles(s.orders, Do(s, e, unit).orders)
  {
    match e
    case Begin(t, k, h) => ProtocolKeepsData(s, Enter(t, k), h, unit);
    case Protocol(t) => ProtocolKeepsData(s, Step(t), StripeFailed, unit);
    case Finish(t) => ProtocolKeepsData(s, Leave(t), StripeFailed, unit);
    case Work(t, ok) =>
      WorkKeepsJobs(s, t, ok, unit);
      WorkKeepsLedger(s, t, ok, unit);
    case Place(k, o) => PlaceKeepsData(s, k, o, unit);
  }

  lemma DoKeepsLock(s: Sys, e: Event, unit: real)
    requires Inv(s.lock) && Possible(s, e)
    ensures Inv(Do(s, e, unit).lock)
  {
    match e
    case Begin(t, k, h) => NextKeepsInv(s.lock, Enter(t, k));
    case Protocol(t) => NextKeepsInv(s.lock, Step(t));
    case Finish(t) => NextKeepsInv(s.lock, Leave(t));
    case Work(t, ok) =>
    case Place(k, o) =>
  }

  // ---- Whole runs ---------------------------------------------------------------------------------

  ghost predicate Opening(s: Sys) {
    && Initial(s.lock) && s.jobs.Keys == s.lock.threads.Keys && s.ledger == []
  }

  ghost predicate IsHistory(run: seq<Sys>, events: seq<Event>, unit: real) {
    && |run| == |events| + 1
    && Opening(run[0])
    && forall i :: 0 <= i < |events| ==> Possible(run[i], events[i]) && run[i + 1] == Do(run[i], events[i], unit)
  }

  lemma {:induction false} HistoryKeepsInv(run: seq<Sys>, events: seq<Event>, unit: real, i: nat)
    requires IsHistory(run, events, unit) && i < |run|
    ensures Inv(run[i].lock) && DataInv(run[i], unit)
  {
    if i == 0 {
      var l := run[0].lock;
      assert forall k :: Users(l, k) == {};
    } else {
      HistoryKeepsInv(run, events, unit, i - 1);
      ExclusiveFromInv(run[i - 1].lock);
      DoKeepsLock(run[i - 1], events[i - 1], unit);
      DoKeepsData(run[i - 1], events[i - 1], unit);
    }
  }

  /** An order leaves "pending" at most once: from the first moment its status is anything else, no
      interleaving of callbacks ever changes it again. */
  lemma {:induction false} OrdersSettleOnce(run: seq<Sys>, events: seq<Event>, unit: real, i: nat, j: nat)
    requires IsHistory(run, events, unit) && i <= j < |run|
    ensures Settles(run[i].orders, run[j].orders)
    decreases j - i
  {
    if i < j {
      OrdersSettleOnce(run, events, unit, i, j - 1);
      HistoryKeepsInv(run, events, unit, j - 1);
      ExclusiveFromInv(run[j - 1].lock);
      DoKeepsData(run[j - 1], events[j - 1], unit);
    }
  }

  /** No order is credited twice, and each credit is the price of an order stored as success. */
  lemma CreditedAtMostOnce(run: seq<Sys>, events: seq<Event>, unit: real, i: nat)
    requires IsHistory(run, events, unit) && i < |run|
    ensures forall a, b :: 0 <= a < b < |run[i].ledger| ==> run[i].ledger[a].key != run[i].ledger[b].key
    ensures forall a :: 0 <= a < |run[i].ledger| ==>
              var e := run[i].ledger[a];
              && e.key in run[i].orders && run[i].orders[e.key].status == Success
              && e.user == run[i].orders[e.key].user
              && e.quota == IntPart(run[i].orders[e.key].amount as real * unit)
  {
    HistoryKeepsInv(run, events, unit, i);
  }

  /** The step that credits an order finds it already stored as success by an earlier step. */
  lemma CreditFollowsSuccess(run: seq<Sys>, events: seq<Event>, unit: real, i: nat)
    requires IsHistory(run, events, unit) && i < |events| && run[i + 1].ledger != run[i].ledger
    ensures |run[i + 1].ledger| == |run[i].ledger| + 1
    ensures var k := run[i + 1].ledger[|run[i].ledger|].key;
            && k in run[i].orders && run[i].orders[k].status == Success && run[i + 1].orders == run[i].orders
            && !Credited(run[i], k)
  {
    HistoryKeepsInv(run, events, unit, i);
    var s := run[i];
    var t := events[i].t;
    assert StageInv(s, s.lock.threads[t].key, s.jobs[t]);
  }

  /** The credits a user received. */
  function Received(ledger: seq<Entry>, user: int): (sum: int) {
    if ledger == [] then 0
    else
      var e := ledger[|ledger| - 1];
      Received(ledger[..|ledger| - 1], user) + (if e.user == user then e.quota else 0)
  }

  lemma CreditMovesBalance(s: Sys, e: Event, unit: real, user: int)
    requires Possible(s, e) && user in s.balance
    ensures var s' := Do(s, e, unit);
            user in s'.balance && s'.balance[user] - Received(s'.ledger, user) == s.balance[user] - Received(s.ledger, user)
  {
    var s' := Do(s, e, unit);
    if s'.ledger != s.ledger {
      assert s'.ledger[..|s'.ledger| - 1] == s.ledger;
    }
  }

  /** Conservation: a user's balance is the opening balance plus the prices of that user's credited orders. */
  lemma {:induction false} BalanceIsCredit(run: seq<Sys>, events: seq<Event>, unit: real, i: nat, user: int)
    requires IsHistory(run, events, unit) && i < |run| && user in run[0].balance
    ensures user in run[i].balance
    ensures run[i].balance[user] == run[0].balance[user] + Received(run[i].ledger, user)
  {
    if i > 0 {
      BalanceIsCredit(run, events, unit, i - 1, user);
      CreditMovesBalance(run[i - 1], events[i - 1], unit, user);
    }
  }

  // ---- Which order a handler works on ------------------------------------------------------------------------------

  /** The order and handler of the thread's last `Begin`. */
  function LastBegun(events: seq<Event>, t: Tid): (b: Option<(Key, Handler)>) {
    if events == [] then None
    else
      var e := events[|events| - 1];
      if e.Begin? && e.t == t then Some((e.key, e.handler)) else LastBegun(events[..|events| - 1], t)
  }

  lemma WorkKeepsHandler(s: Sys, t: Tid, k: Key, ok: bool, unit: real)
    requires t in s.jobs
    ensures DoWork(s, t, k, ok, unit).jobs[t].handler == s.jobs[t].handler
  {
  }

  /** Only `Begin` gives a thread an order and a handler, and only it starts an idle thread. */
  lemma OnlyBeginAssigns(s: Sys, e: Event, unit: real, t: Tid)
    requires Possible(s, e) && t in s.lock.threads && t in s.jobs && s.jobs.Keys == s.lock.threads.Keys
    ensures var s' := Do(s, e, unit);
            && t in s'.lock.threads && t in s'.jobs
            && if e.Begin? && e.t == t then s'.lock.threads[t].key == e.key && s'.jobs[t].handler == e.handler
               else && s'.lock.threads[t].key == s.lock.threads[t].key && s'.jobs[t].handler == s.jobs[t].handler
                    && (s.lock.threads[t].pc.Idle? ==> s'.lock.threads[t].pc.Idle?)
  {
    if e.Work? {
      var k := s.lock.threads[e.t].key;
      WorkFrame(s, e.t, k, e.ok, unit);
      WorkKeepsHandler(s, e.t, k, e.ok, unit);
    }
  }

  lemma {:induction false} ThreadsStay(run: seq<Sys>, events: seq<Event>, unit: real, i: nat)
    requires IsHistory(run, events, unit) && i < |run|
    ensures run[i].lock.threads.Keys == run[0].lock.threads.Keys && run[i].jobs.Keys == run[i].lock.threads.Keys
  {
    HistoryKeepsInv(run, events, unit, i);
    if i > 0 {
      ThreadsStay(run, events, unit, i - 1);
      if events[i - 1].Work? {
        WorkFrame(run[i - 1], events[i - 1].t, run[i - 1].lock.threads[events[i - 1].t].key, events[i - 1].ok, unit);
      }
    }
  }

  /** The thread has the order and handler `b` of its last `Begin`, or is idle if there was none. */
  ghost predicate WorksOn(s: Sys, t: Tid, b: Option<(Key, Handler)>) {
    && t in s.lock.threads && t in s.jobs
    && (b.Some? ==> s.lock.threads[t].key == b.value.0 && s.jobs[t].handler == b.value.1)
    && (!s.lock.threads[t].pc.Idle? ==> b.Some?)
  }

  lemma StepWorksOn(s: Sys, e: Event, unit: real, t: Tid, b: Option<(Key, Handler)>)
    requires Possible(s, e) && s.jobs.Keys == s.lock.threads.Keys && WorksOn(s, t, b)
    ensures WorksOn(Do(s, e, unit), t, if e.Begin? && e.t == t then Some((e.key, e.handler)) else b)
  {
    OnlyBeginAssigns(s, e, unit, t);
  }

  lemma LastBegunNext(events: seq<Event>, i: nat, t: Tid)
    requires i < |events|
    ensures var e := events[i];
            LastBegun(events[..i + 1], t) == if e.Begin? && e.t == t then Some((e.key, e.handler)) else LastBegun(events[..i], t)
  {
    assert events[..i + 1][..i] == events[..i];
  }

  lemma {:induction false} WorksOnBegun(run: seq<Sys>, events: seq<Event>, unit: real, i: nat, t: Tid)
    requires IsHistory(run, events, unit) && i < |run| && t in run[0].lock.threads
    ensures WorksOn(run[i], t, LastBegun(events[..i], t))
  {
    ThreadsStay(run, events, unit, i);
    if i > 0 {
      ThreadsStay(run, events, unit, i - 1);
      WorksOnBegun(run, events, unit, i - 1, t);
      StepWorksOn(run[i - 1], events[i - 1], unit, t, LastBegun(events[..i - 1], t));
      LastBegunNext(events, i - 1, t);
    }
  }

  /** Two handlers inside their sections for the same order are the same. */
  lemma OneHandlerInside(run: seq<Sys>, events: seq<Event>, unit: real, i: nat, t: Tid, u: Tid)
    requires IsHistory(run, events, unit) && i < |run| && t in run[i].lock.threads && u in run[i].lock.threads
    requires run[i].lock.threads[t].pc.Inside? && run[i].lock.threads[u].pc.Inside?
    requires LastBegun(events[..i], t).Some? && LastBegun(events[..i], u).Some?
    requires LastBegun(events[..i], t).value.0 == LastBegun(events[..i], u).value.0
    ensures t == u
  {
    HistoryKeepsInv(run, events, unit, i);
    ExclusiveFromInv(run[i].lock);
    ThreadsStay(run, events, unit, i);
    WorksOnBegun(run, events, unit, i, t);
    WorksOnBegun(run, events, unit, i, u);
  }

  /** A database call of a thread changes only the order it last began with, and credits no other. */
  lemma WorkTouchesBegun(run: seq<Sys>, events: seq<Event>, unit: real, i: nat, j: Key)
    requires IsHistory(run, events, unit) && i < |events| && events[i].Work?
    ensures var b := LastBegun(events[..i], events[i].t);
            b.Some? && (j != b.value.0 ==>
              Lookup(run[i + 1].orders, j) == Lookup(run[i].orders, j) && (Credited(run[i + 1], j) ==> Credited(run[i], j)))
  {
    var t := events[i].t;
    ThreadsStay(run, events, unit, i);
    WorksOnBegun(run, events, unit, i, t);
    WorkFrame(run[i], t, run[i].lock.threads[t].key, events[i].ok, unit);
  }

  // ---- Paid orders are credited -----------------------------------------------------------------------------------

  /** Some handler of order `k` is inside its section and about to credit it. */
  ghost predicate Crediting(s: Sys, k: Key) {
    exists t :: t in s.jobs && t in s.lock.threads && s.lock.threads[t].pc.Inside? && s.lock.threads[t].key == k
                && s.jobs[t].stage.Credit?
  }

  /** An EPay order that is a success now and was not one at the beginning. */
  ghost predicate Paid(s: Sys, before: map<Key, Order>, k: Key) {
    && k in s.orders && s.orders[k].provider == Epay && s.orders[k].status == Success
    && !(k in before && before[k].status == Success)
  }

  /** The event makes the credit call for order `k`. */
  ghost predicate IsCreditCall(s: Sys, e: Event, k: Key) {
    e.Work? && e.t in s.jobs && e.t in s.lock.threads && s.lock.threads[e.t].key == k && s.jobs[e.t].stage.Credit?
  }

  /** The call succeeds, the buyer has an account and the quota is not negative. */
  ghost predicate Succeeds(s: Sys, e: Event, k: Key, unit: real) {
    e.Work? && e.ok && k in s.orders && s.orders[k].user in s.balance && QuotaOf(s.orders[k], unit) >= 0
  }

  /** No credit call for order `k` fails before state `n`. */
  ghost predicate CreditsSucceed(run: seq<Sys>, events: seq<Event>, unit: real, n: nat, k: Key) {
    forall i :: 0 <= i < n && i < |events| && i < |run| && IsCreditCall(run[i], events[i], k) ==>
      Succeeds(run[i], events[i], k, unit)
  }

  /** The credit call credits the order exactly when it succeeds. */
  lemma CreditCall(s: Sys, t: Tid, ok: bool, unit: real, k: Key)
    requires DataInv(s, unit) && Possible(s, Work(t, ok)) && IsCreditCall(s, Work(t, ok), k)
    ensures Credited(Do(s, Work(t, ok), unit), k) <==> Succeeds(s, Work(t, ok), k, unit)
  {
    assert StageInv(s, k, s.jobs[t]);
    var s' := Do(s, Work(t, ok), unit);
    if Succeeds(s, Work(t, ok), k, unit) {
      assert s'.ledger[|s.ledger|].key == k;
    }
  }

  /** A success is stored only by a handler that then credits it. */
  lemma SuccessComesFromSave(s: Sys, t: Tid, ok: bool, unit: real)
    requires DataInv(s, unit) && Possible(s, Work(t, ok))
    ensures var s' := Do(s, Work(t, ok), unit); var k := s.lock.threads[t].key;
            k in s'.orders && s'.orders[k].status == Success && !(k in s.orders && s.orders[k].status == Success) ==>
              Crediting(s', k)
  {
    var k := s.lock.threads[t].key;
    assert StageInv(s, k, s.jobs[t]);
    var s' := Do(s, Work(t, ok), unit);
    if k in s'.orders && s'.orders[k].status == Success && !(k in s.orders && s.orders[k].status == Success) {
      assert s'.jobs[t].stage.Credit? && s'.lock.threads[t].pc.Inside?;
    }
  }

  /** Other events leave the handlers inside their sections alone. */
  lemma OthersKeepCrediting(s: Sys, e: Event, unit: real, k: Key)
    requires DataInv(s, unit) && Possible(s, e) && !e.Work? && Crediting(s, k)
    ensures Crediting(Do(s, e, unit), k)
  {
    var t :| t in s.jobs && t in s.lock.threads && s.lock.threads[t].pc.Inside? && s.lock.threads[t].key == k
             && s.jobs[t].stage.Credit?;
    var s' := Do(s, e, unit);
    assert t in s'.jobs && s'.lock.threads[t] == s.lock.threads[t] && s'.jobs[t] == s.jobs[t];
  }

  lemma WorkKeepsCrediting(s: Sys, t: Tid, ok: bool, unit: real, k: Key)
    requires DataInv(s, unit) && Possible(s, Work(t, ok)) && Crediting(s, k)
    requires IsCreditCall(s, Work(t, ok), k) ==> Succeeds(s, Work(t, ok), k, unit)
    ensures var s' := Do(s, Work(t, ok), unit); Crediting(s', k) || Credited(s', k)
  {
    var s' := Do(s, Work(t, ok), unit);
    var u :| u in s.jobs && u in s.lock.threads && s.lock.threads[u].pc.Inside? && s.lock.threads[u].key == k
             && s.jobs[u].stage.Credit?;
    WorkFrame(s, t, s.lock.threads[t].key, ok, unit);
    if u == t {
      CreditCall(s, t, ok, unit, k);
    } else {
      assert s'.jobs[u] == s.jobs[u] && s'.lock == s.lock;
    }
  }

  lemma CreditStays(s: Sys, e: Event, unit: real, k: Key)
    requires Possible(s, e) && Credited(s, k)
    ensures Credited(Do(s, e, unit), k)
  {
    var i :| 0 <= i < |s.ledger| && s.ledger[i].key == k;
    var s' := Do(s, e, unit);
    assert s'.ledger[i].key == k;
  }

  /** What was paid before the event is still credited or about to be, and so is what the event makes a success. */
  lemma DoKeepsDue(s: Sys, e: Event, unit: real, before: map<Key, Order>, k: Key)
    requires DataInv(s, unit) && Possible(s, e) && (IsCreditCall(s, e, k) ==> Succeeds(s, e, k, unit))
    requires Settles(before, s.orders)
    requires Paid(s, before, k) ==> Credited(s, k) || Crediting(s, k)
    requires Paid(Do(s, e, unit), before, k)
    ensures var s' := Do(s, e, unit); Credited(s', k) || Crediting(s', k)
  {
    if Paid(s, before, k) {
      if Credited(s, k) {
        CreditStays(s, e, unit, k);
      } else if e.Work? {
        WorkKeepsCrediting(s, e.t, e.ok, unit, k);
      } else {
        OthersKeepCrediting(s, e, unit, k);
      }
    } else if e.Work? {
      WorkFrame(s, e.t, s.lock.threads[e.t].key, e.ok, unit);
      WorkKeepsLedger(s, e.t, e.ok, unit);
      SuccessComesFromSave(s, e.t, e.ok, unit);
      assert k == s.lock.threads[e.t].key by { assert Lookup(s.orders, k) != Lookup(Do(s, e, unit).orders, k); }
    }
  }

  lemma PaidStep(run: seq<Sys>, events: seq<Event>, unit: real, i: nat, k: Key)
    requires IsHistory(run, events, unit) && 0 < i < |run| && CreditsSucceed(run, events, unit, i, k) && Paid(run[i], run[0].orders, k)
    requires Paid(run[i - 1], run[0].orders, k) ==> Credited(run[i - 1], k) || Crediting(run[i - 1], k)
    ensures Credited(run[i], k) || Crediting(run[i], k)
  {
    var s, e := run[i - 1], events[i - 1];
    HistoryKeepsInv(run, events, unit, i - 1);
    OrdersSettleOnce(run, events, unit, 0, i - 1);
    assert run[i] == Do(s, e, unit);
    assert IsCreditCall(s, e, k) ==> Succeeds(s, e, k, unit);
    DoKeepsDue(s, e, unit, run[0].orders, k);
  }

  /** Whatever else fails, an EPay order that became a success and whose credit call does not fail has been credited,
      unless its handler is still inside its section with that call to come. */
  lemma {:induction false} PaidIsCredited(run: seq<Sys>, events: seq<Event>, unit: real, i: nat, k: Key)
    requires IsHistory(run, events, unit) && i < |run| && CreditsSucceed(run, events, unit, i, k) && Paid(run[i], run[0].orders, k)
    ensures Credited(run[i], k) || Crediting(run[i], k)
  {
    if i > 0 {
      if Paid(run[i - 1], run[0].orders, k) {
        PaidIsCredited(run, events, unit, i - 1, k);
      }
      PaidStep(run, events, unit, i, k);
    }
  }

  /** The order is settled, has not been credited and nobody is about to. */
  ghost predicate Lost(s: Sys, k: Key) {
    k in s.orders && s.orders[k].status != Pending && !Credited(s, k) && !Crediting(s, k)
  }

  lemma FailedCreditIsLost(s: Sys, e: Event, unit: real, k: Key)
    requires DataInv(s, unit) && Exclusive(s.lock) && Possible(s, e) && IsCreditCall(s, e, k) && !Succeeds(s, e, k, unit)
    ensures Lost(Do(s, e, unit), k)
  {
    CreditCall(s, e.t, e.ok, unit, k);
    assert StageInv(s, k, s.jobs[e.t]);
    WorkFrame(s, e.t, k, e.ok, unit);
  }

  lemma LostStays(s: Sys, e: Event, unit: real, k: Key)
    requires DataInv(s, unit) && Possible(s, e) && Lost(s, k)
    ensures Lost(Do(s, e, unit), k)
  {
    var s' := Do(s, e, unit);
    if e.Work? {
      var j := s.lock.threads[e.t].key;
      assert StageInv(s, j, s.jobs[e.t]);
      WorkFrame(s, e.t, j, e.ok, unit);
      assert j != k ==> Lookup(s'.orders, k) == Lookup(s.orders, k);
    } else {
      assert s'.ledger == s.ledger;
    }
  }

  lemma {:induction false} LostForever(run: seq<Sys>, events: seq<Event>, unit: real, i: nat, j: nat, k: Key)
    requires IsHistory(run, events, unit) && i <= j < |run| && Lost(run[i], k)
    ensures Lost(run[j], k)
    decreases j
  {
    if i < j {
      LostForever(run, events, unit, i, j - 1, k);
      HistoryKeepsInv(run, events, unit, j - 1);
      LostStays(run[j - 1], events[j - 1], unit, k);
    }
  }

  /** An EPay order that became a success, and whose handler has left its section, has been credited exactly when no
      credit call for it failed.  A paid order whose credit call failed is never credited. */
  lemma CreditedIff(run: seq<Sys>, events: seq<Event>, unit: real, i: nat, k: Key)
    requires IsHistory(run, events, unit) && i < |run| && Paid(run[i], run[0].orders, k) && !Crediting(run[i], k)
    ensures Credited(run[i], k) <==> CreditsSucceed(run, events, unit, i, k)
  {
    if CreditsSucceed(run, events, unit, i, k) {
      PaidIsCredited(run, events, unit, i, k);
    } else {
      var j :| 0 <= j < i && IsCreditCall(run[j], events[j], k) && !Succeeds(run[j], events[j], k, unit);
      HistoryKeepsInv(run, events, unit, j);
      ExclusiveFromInv(run[j].lock);
      FailedCreditIsLost(run[j], events[j], unit, k);
      LostForever(run, events, unit, j + 1, i, k);
    }
  }

  /** The buyer then receives the whole part of amount × unit. */
  lemma PaidInFull(run: seq<Sys>, events: seq<Event>, unit: real, i: nat, k: Key)
    requires IsHistory(run, events, unit) && i < |run| && Paid(run[i], run[0].orders, k) && !Crediting(run[i], k)
    requires CreditsSucceed(run, events, unit, i, k)
    ensures var o := run[i].orders[k]; Entry(k, o.user, QuotaOf(o, unit)) in run[i].ledger
  {
    CreditedIff(run, events, unit, i, k);
    var a :| 0 <= a < |run[i].ledger| && run[i].ledger[a].key == k;
    HistoryKeepsInv(run, events, unit, i);
    assert run[i].ledger[a] in run[i].ledger;
  }

  // ---- The locked sections as they are written -----------------------------------------------------------------------

  /** Thread `t` makes its database calls for order `k` one after the other; calls after the end do nothing. */
  function Section(s: Sys, t: Tid, k: Key, readOk: bool, saveOk: bool, creditOk: bool, unit: real): (s': Sys)
    requires t in s.jobs
  {
    DoWork(DoWork(DoWork(s, t, k, readOk, unit), t, k, saveOk, unit), t, k, creditOk, unit)
  }

  /** The order is there and pending, and belongs to the provider. */
  predicate Open(orders: map<Key, Order>, k: Key, p: Provider) {
    k in orders && orders[k].status == Pending && orders[k].provider == p
  }

  /** The balances and credits after a credit of order `k`: the whole part of amount × unit goes to the buyer, unless
      the write fails, the buyer has no account, or the amount is negative. */
  ghost predicate IsCredited(balance': map<int, int>, ledger': seq<Entry>, balance: map<int, int>, ledger: seq<Entry>,
                             k: Key, user: int, amount: int, unit: real, ok: bool) {
    var worth := amount as real * unit;
    if ok && user in balance && worth > -1.0 then
      var q := if worth >= 0.0 then worth.Floor else 0;
      balance' == balance[user := balance[user] + q] && ledger' == ledger + [Entry(k, user, q)]
    else balance' == balance && ledger' == ledger
  }

  /** What the section of `EpayNotify` leaves in the tables. */
  ghost predicate IsNotified(orders': map<Key, Order>, balance': map<int, int>, ledger': seq<Entry>,
                             orders: map<Key, Order>, balance: map<int, int>, ledger: seq<Entry>,
                             k: Key, paidBy: string, readOk: bool, saveOk: bool, creditOk: bool, unit: real) {
    if readOk && saveOk && Open(orders, k, Epay) then
      && orders' == orders[k := orders[k].(status := Success, paymentMethod := paidBy)]
      && IsCredited(balance', ledger', balance, ledger, k, orders[k].user, orders[k].amount, unit, creditOk)
    else orders' == orders && balance' == balance && ledger' == ledger
  }

  lemma CreditStep(s: Sys, t: Tid, k: Key, row: Order, ok: bool, unit: real)
    requires t in s.jobs && s.jobs[t].stage == Credit(row)
    ensures var s' := DoWork(s, t, k, ok, unit);
            && s'.jobs[t].stage.Finished? && t in s'.jobs && s'.orders == s.orders
            && IsCredited(s'.balance, s'.ledger, s.balance, s.ledger, k, row.user, row.amount, unit, ok)
  {
    QuotaIsWholePart(row, unit);
  }

  lemma FinishedStays(s: Sys, t: Tid, k: Key, a: bool, b: bool, unit: real)
    requires t in s.jobs && s.jobs[t].stage.Finished?
    ensures DoWork(s, t, k, a, unit) == s && DoWork(DoWork(s, t, k, a, unit), t, k, b, unit) == s
  {
  }

  /** The three steps of the state machine, in terms of the tables. */
  lemma EpaySection(s: Sys, t: Tid, k: Key, paidBy: string, readOk: bool, saveOk: bool, creditOk: bool, unit: real)
    requires t in s.jobs && s.jobs[t] == Job(EpaySuccess(paidBy), Start)
    ensures var s' := Section(s, t, k, readOk, saveOk, creditOk, unit);
            && s'.jobs[t].stage.Finished?
            && IsNotified(s'.orders, s'.balance, s'.ledger, s.orders, s.balance, s.ledger, k, paidBy, readOk, saveOk, creditOk, unit)
  {
    var s1 := DoWork(s, t, k, readOk, unit);
    if readOk && Open(s.orders, k, Epay) {
      var row := s.orders[k].(paymentMethod := paidBy, status := Success);
      assert s1 == After(s, t, Save(row));
      var s2 := DoWork(s1, t, k, saveOk, unit);
      if saveOk {
        assert s2.jobs[t].stage == Credit(row) && s2.orders == s.orders[k := row];
        CreditStep(s2, t, k, row, creditOk, unit);
      } else {
        FinishedStays(s2, t, k, creditOk, creditOk, unit);
      }
    } else {
      FinishedStays(s1, t, k, saveOk, creditOk, unit);
    }
  }

  lemma NotifiedIsUnique(o1: map<Key, Order>, b1: map<int, int>, l1: seq<Entry>, o2: map<Key, Order>, b2: map<int, int>, l2: seq<Entry>,
                     orders: map<Key, Order>, balance: map<int, int>, ledger: seq<Entry>,
                     k: Key, paidBy: string, readOk: bool, saveOk: bool, creditOk: bool, unit: real)
    requires IsNotified(o1, b1, l1, orders, balance, ledger, k, paidBy, readOk, saveOk, creditOk, unit)
    requires IsNotified(o2, b2, l2, orders, balance, ledger, k, paidBy, readOk, saveOk, creditOk, unit)
    ensures o1 == o2 && b1 == b2 && l1 == l2
  {
  }

  /** The tables the handlers read and write; the ledger records the successful credits. */
  class Tables {
    var orders: map<Key, Order>
    var balance: map<int, int>
    var ledger: seq<Entry>

    ghost predicate Holds(s: Sys)
      reads this
    {
      orders == s.orders && balance == s.balance && ledger == s.ledger
    }

    /** `GetTopUpByTradeNo`: a failed read looks like a missing row. */
    function Find(k: Key, ok: bool): (o: Option<Order>)
      reads this
      ensures o.Some? <==> ok && k in orders
      ensures o.Some? ==> o.value == orders[k]
    {
      if ok && k in orders then Some(orders[k]) else None
    }

    /** `IncreaseUserQuota` for order `k`. */
    method Increase(k: Key, user: int, quota: int, ok: bool)
      modifies this`balance, this`ledger
      ensures if ok && quota >= 0 && user in old(balance)
              then balance == old(balance)[user := old(balance)[user] + quota] && ledger == old(ledger) + [Entry(k, user, quota)]
              else balance == old(balance) && ledger == old(ledger)
    {
      if quota < 0 || !ok || user !in balance {
        return;
      }
      balance := balance[user := balance[user] + quota];
      ledger := ledger + [Entry(k, user, quota)];
    }

    /** The credit of a paid order. */
    method Credit(k: Key, o: Order, unit: real, ok: bool)
      modifies this`balance, this`ledger
      ensures IsCredited(balance, ledger, old(balance), old(ledger), k, o.user, o.amount, unit, ok)
    {
      QuotaIsWholePart(o, unit);
      Increase(k, o.user, QuotaOf(o, unit), ok);
    }

    /** The section of `EpayNotify`. */
    method EpayNotify(k: Key, paidBy: string, readOk: bool, saveOk: bool, creditOk: bool, unit: real)
      modifies this
      ensures IsNotified(orders, balance, ledger, old(orders), old(balance), old(ledger), k, paidBy, readOk, saveOk, creditOk, unit)
    {
      var found := Find(k, readOk);
      if found == None || found.value.provider != Epay {
        return;
      }
      var topUp := found.value;
      if topUp.status == Pending {
        if topUp.paymentMethod != paidBy {
          topUp := topUp.(paymentMethod := paidBy);
        }
        topUp := topUp.(status := Success);
        if !saveOk {
          return;
        }
        orders := orders[k := topUp];
        Credit(k, topUp, unit, creditOk);
      }
    }

    /** The section leaves the tables as its three steps do. */
    method EpayNotifySteps(k: Key, paidBy: string, readOk: bool, saveOk: bool, creditOk: bool, unit: real, ghost s: Sys, ghost t: Tid)
      requires t in s.jobs && s.jobs[t] == Job(EpaySuccess(paidBy), Start) && Holds(s)
      modifies this
      ensures Holds(Section(s, t, k, readOk, saveOk, creditOk, unit))
    {
      EpayNotify(k, paidBy, readOk, saveOk, creditOk, unit);
      EpaySection(s, t, k, paidBy, readOk, saveOk, creditOk, unit);
      ghost var s' := Section(s, t, k, readOk, saveOk, creditOk, unit);
      NotifiedIsUnique(orders, balance, ledger, s'.orders, s'.balance, s'.ledger, s.orders, s.balance, s.ledger,
                   k, paidBy, readOk, saveOk, creditOk, unit);
    }

    /** The section of `sessionAsyncPaymentFailed`. */
    method AsyncPaymentFailed(k: Key, readOk: bool, saveOk: bool, unit: real, ghost s: Sys, ghost t: Tid)
      requires t in s.jobs && s.jobs[t] == Job(StripeFailed, Start) && Holds(s)
      modifies this`orders
      ensures var s' := Section(s, t, k, readOk, saveOk, true, unit); Holds(s') && s'.jobs[t].stage.Finished?
      ensures if readOk && saveOk && k in old(orders) && old(orders)[k].provider == Stripe && old(orders)[k].status == Pending
              then orders == old(orders)[k := old(orders)[k].(status := Failed)] else orders == old(orders)
    {
      var found := Find(k, readOk);
      if found == None || found.value.provider != Stripe || found.value.status != Pending {
        return;
      }
      if saveOk {
        orders := orders[k := found.value.(status := Failed)];
      }
    }

    /** The transaction of `sessionExpired`, which commits or changes nothing. */
    method Expire(k: Key, ok: bool, unit: real, ghost s: Sys, ghost t: Tid)
      requires t in s.jobs && s.jobs[t] == Job(StripeExpired, Start) && Holds(s)
      modifies this`orders
      ensures var s' := Section(s, t, k, ok, true, true, unit); Holds(s') && s'.jobs[t].stage.Finished?
      ensures if ok && k in old(orders) && old(orders)[k].provider == Stripe && old(orders)[k].status == Pending
              then orders == old(orders)[k := old(orders)[k].(status := Expired)] else orders == old(orders)
    {
      var found := Find(k, ok);
      if found == None || found.value.provider != Stripe || found.value.status != Pending {
        return;
      }
      orders := orders[k := found.value.(status := Expired)];
    }
  }
}
