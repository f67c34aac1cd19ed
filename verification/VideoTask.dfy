/** Settlement of an asynchronous video task: what polling its upstream does to the task row and to the
    user's quota (`updateVideoSingleTask`), and the bulk failure of `updateVideoTaskAll`.

    Every write may fail.  Quota adjustments are written before the task row, refunds after it. */
module VideoTask {
  import opened Wrappers

  datatype Status = NotStart | Submitted | Queued | InProgress | Success | Failure | Unknown

  /** The stored task and its user's balance; `opening` is the balance before the task was charged, and
      `refunds` lists the amounts given back for failures. */
  datatype State = State(status: Status, quota: nat, balance: int, opening: int, refunds: seq<nat>)

  /** `actual` is the price recomputed from the token count, when it applies.  An empty status counts as
      Failure, and an answer that cannot be fetched or parsed as Unknown. */
  datatype Event =
    | Poll(result: Status, actual: Option<nat>, adjustOk: bool, updateOk: bool, refundOk: bool)
    | BulkFail(updateOk: bool)

  /** What the task has cost the user so far. */
  function Charge(s: State): (c: int) {
    s.opening - s.balance
  }

  /** Statuses the switch knows; the others end the call before anything is written. */
  predicate Handled(r: Status) {
    r.Submitted? || r.Queued? || r.InProgress? || r.Success? || r.Failure?
  }

  /** The quota store accepts the difference: a debit also needs enough balance. */
  predicate Adjusts(s: State, e: Event) {
    && e.Poll? && e.result.Success? && e.actual.Some? && e.actual.value != s.quota && e.adjustOk
    && (e.actual.value > s.quota ==> s.balance >= e.actual.value - s.quota)
  }

  /** The price in the task that the call is about to store. */
  function NewQuota(s: State, e: Event): (q: nat) {
    if Adjusts(s, e) then e.actual.value else s.quota
  }

  predicate Refunds(s: State, e: Event) {
    && e.Poll? && e.result.Failure? && e.updateOk && s.quota != 0 && !s.status.Failure? && e.refundOk
  }

  function Step(s: State, e: Event): (s': State) {
    match e
    case BulkFail(ok) => if ok then s.(status := Failure) else s
    case Poll(result, _, _, updateOk, _) =>
      if !Handled(result) then s
      else
        var adjusted := s.(balance := s.balance - (NewQuota(s, e) - s.quota));
        var updated := if updateOk then adjusted.(status := result, quota := NewQuota(s, e)) else adjusted;
        if Refunds(s, e) then updated.(balance := updated.balance + s.quota, refunds := updated.refunds + [s.quota])
        else updated
  }

  /** What one poll leaves: the status of a known result is stored; a success is charged the recomputed price, giving back
      or taking the difference if the quota store allows; the first failure gives everything back. */
  ghost predicate IsPolled(s': State, s: State, result: Status, actual: Option<nat>, adjustOk: bool, updateOk: bool, refundOk: bool) {
    if result.NotStart? || result.Unknown? then s' == s
    else
      && s'.opening == s.opening
      && s'.status == (if updateOk then result else s.status)
      && match result
         case Success =>
           var pays := actual.Some? && adjustOk && (actual.value <= s.quota || s.balance >= actual.value - s.quota);
           && s'.refunds == s.refunds
           && s'.balance == (if pays then s.balance + s.quota - actual.value else s.balance)
           && s'.quota == (if pays && updateOk then actual.value else s.quota)
         case Failure =>
           var gives := updateOk && refundOk && s.status != Failure && s.quota > 0;
           && s'.quota == s.quota
           && s'.balance == (if gives then s.balance + s.quota else s.balance)
           && s'.refunds == (if gives then s.refunds + [s.quota] else s.refunds)
         case _ => s'.quota == s.quota && s'.balance == s.balance && s'.refunds == s.refunds
  }

  lemma StepIsPolled(s: State, result: Status, actual: Option<nat>, adjustOk: bool, updateOk: bool, refundOk: bool)
    ensures IsPolled(Step(s, Poll(result, actual, adjustOk, updateOk, refundOk)), s, result, actual, adjustOk, updateOk, refundOk)
  {
  }

  class Settlement {
    var status: Status
    var quota: nat
    var balance: int
    ghost var opening: int
    ghost var refunds: seq<nat>

    constructor (quota: nat, balance: int)
      ensures Value() == State(NotStart, quota, balance, balance + quota, [])
    {
      status, this.quota, this.balance := NotStart, quota, balance;
      opening, refunds := balance + quota, [];
    }

    ghost function Value(): (s: State)
      reads this
    {
      State(status, quota, balance, opening, refunds)
    }

    method IncreaseUserQuota(amount: nat, ok: bool) returns (done: bool)
      modifies this`balance
      ensures done == ok && balance == old(balance) + (if done then amount else 0)
    {
      if ok { balance := balance + amount; }
      return ok;
    }

    method DecreaseUserQuota(amount: nat, ok: bool) returns (done: bool)
      modifies this`balance
      ensures done == (ok && old(balance) >= amount) && balance == old(balance) - (if done then amount else 0)
    {
      done := ok && balance >= amount;
      if done { balance := balance - amount; }
    }

    /** One poll of the task; `known` is false when the status was not one the switch handles. */
    method UpdateSingleTask(result: Status, actual: Option<nat>, adjustOk: bool, updateOk: bool, refundOk: bool)
      returns (known: bool)
      modifies this
      ensures Value() == Step(old(Value()), Poll(result, actual, adjustOk, updateOk, refundOk))
      ensures IsPolled(Value(), old(Value()), result, actual, adjustOk, updateOk, refundOk)
      ensures known <==> result in {Submitted, Queued, InProgress, Success, Failure}
    {
      var shouldRefund := false;
      var preConsumed, preStatus := quota, status;
      var newQuota := quota;
      match result {
        case Submitted =>
        case Queued =>
        case InProgress =>
        case Success =>
          if actual.Some? {
            if actual.value > preConsumed {
              var done := DecreaseUserQuota(actual.value - preConsumed, adjustOk);
              if done { newQuota := actual.value; }
            } else if actual.value < preConsumed {
              var done := IncreaseUserQuota(preConsumed - actual.value, adjustOk);
              if done { newQuota := actual.value; }
            }
          }
        case Failure =>
          if preConsumed != 0 && preStatus != Failure {
            shouldRefund := true;
          }
        case NotStart => return false;
        case Unknown => return false;
      }
      if updateOk {
        status, quota := result, newQuota;
      } else {
        shouldRefund := false;
      }
      if shouldRefund {
        var done := IncreaseUserQuota(preConsumed, refundOk);
        if done { refunds := refunds + [preConsumed]; }
      }
      return true;
    }

    /** The channel is gone: its tasks are marked failed, and nothing is refunded. */
    method FailWithoutChannel(updateOk: bool)
      modifies this
      ensures Value() == Step(old(Value()), BulkFail(updateOk))
    {
      if updateOk { status := Failure; }
    }
  }

  // ---- The charge follows the row ---------------------------------------------------------------------------

  /** The user has paid the recorded price, or nothing once the task has failed. */
  predicate Settled(s: State) {
    Charge(s) == if s.status.Failure? then 0 else s.quota
  }

  /** When a call keeps the accounts settled, decided before it is made. */
  predicate Harmless(s: State, e: Event) {
    match e
    case BulkFail(ok) => ok ==> s.status.Failure? || s.quota == 0
    case Poll(result, _, _, updateOk, refundOk) =>
      if !Handled(result) then true
      else if !updateOk then !Adjusts(s, e)
      else if s.status.Failure? then result.Failure? || s.quota == 0
      else result.Failure? ==> s.quota == 0 || refundOk
  }

  /** Exactly the harmless calls keep settled accounts settled. */
  lemma SettledKeptIff(s: State, e: Event)
    requires Settled(s)
    ensures Settled(Step(s, e)) <==> Harmless(s, e)
  {
  }

  function Exec(s: State, events: seq<Event>): (s': State) {
    if events == [] then s else Step(Exec(s, events[..|events| - 1]), events[|events| - 1])
  }

  /** All row writes and refunds succeed and no task is failed in bulk; adjustments may still fail. */
  predicate WritesSucceed(events: seq<Event>) {
    forall k :: 0 <= k < |events| ==> events[k].Poll? && events[k].updateOk && events[k].refundOk
  }

  /** Once failed, a task is not polled into another status. */
  ghost predicate NeverRevived(s: State, events: seq<Event>) {
    forall k :: 0 <= k < |events| && events[k].Poll? && Exec(s, events[..k]).status.Failure? ==>
      events[k].result.Failure? || !Handled(events[k].result)
  }

  /** Over every such run the net charge is the recorded price, or zero after a failure. */
  lemma {:induction false} RunsStaySettled(s: State, events: seq<Event>)
    requires Settled(s) && WritesSucceed(events) && NeverRevived(s, events)
    ensures Settled(Exec(s, events))
  {
    if events != [] {
      var n := |events| - 1;
      NeverRevivedPrefix(s, events, n);
      RunsStaySettled(s, events[..n]);
      SettledKeptIff(Exec(s, events[..n]), events[n]);
    }
  }

  /** After a poll that reports success with a recomputed price the user has paid exactly that price, more or less than
      what was charged before, over every run in which the writes succeed and no failed task is revived. */
  lemma SuccessCostsItsPrice(s: State, events: seq<Event>, price: nat)
    requires Settled(s) && WritesSucceed(events) && NeverRevived(s, events) && events != []
    requires var e, before := events[|events| - 1], Exec(s, events[..|events| - 1]);
             && e.result.Success? && e.actual == Some(price) && e.adjustOk && !before.status.Failure?
             && (price > before.quota ==> before.balance >= price - before.quota)
    ensures var s' := Exec(s, events); Charge(s') == price == s'.quota && s'.status.Success?
  {
    var e, before := events[|events| - 1], Exec(s, events[..|events| - 1]);
    RunsStaySettled(s, events);
    StepIsPolled(before, e.result, e.actual, e.adjustOk, e.updateOk, e.refundOk);
  }

  lemma NeverRevivedPrefix(s: State, events: seq<Event>, n: nat)
    requires n <= |events| && NeverRevived(s, events)
    ensures NeverRevived(s, events[..n])
  {
    forall k | 0 <= k < n ensures events[..n][..k] == events[..k] && events[..n][k] == events[k] { }
  }

  // ---- Refunds ------------------------------------------------------------------------------------------------

  /** A refund is only ever given by the call that persisted the failure, and for the price then recorded. */
  lemma RefundFollowsFailure(s: State, e: Event)
    requires Step(s, e).refunds != s.refunds
    ensures !s.status.Failure? && Step(s, e).status.Failure? && e.Poll? && e.updateOk
    ensures Step(s, e).refunds == s.refunds + [s.quota]
  {
  }

  lemma {:induction false} FailedStaysFailed(s: State, events: seq<Event>, k: nat)
    requires NeverRevived(s, events) && k <= |events| && Exec(s, events[..k]).status.Failure?
    ensures Exec(s, events).status.Failure? && Exec(s, events).refunds == Exec(s, events[..k]).refunds
  {
    var n := |events| - 1;
    if k <= n {
      NeverRevivedPrefix(s, events, n);
      assert events[..n][..k] == events[..k];
      FailedStaysFailed(s, events[..n], k);
    } else {
      assert events[..k] == events;
    }
  }

  /** Whatever writes fail, a task that is never revived is refunded at most once. */
  lemma {:induction false} RefundedAtMostOnce(s: State, events: seq<Event>)
    requires s.refunds == [] && NeverRevived(s, events)
    ensures |Exec(s, events).refunds| <= 1
    ensures Exec(s, events).refunds != [] ==> Exec(s, events).status.Failure?
  {
    if events != [] {
      var n := |events| - 1;
      NeverRevivedPrefix(s, events, n);
      RefundedAtMostOnce(s, events[..n]);
    }
  }

  // ---- What goes wrong otherwise --------------------------------------------------------------------------------

  /** A revived task can be refunded twice: the user ends up paid for it. */
  lemma RevivalRefundsTwice(s: State)
    requires Settled(s) && !s.status.Failure? && s.quota > 0 && s.refunds == []
    ensures var fail := Poll(Failure, None, true, true, true); var revive := Poll(InProgress, None, true, true, true);
            var s' := Step(Step(Step(s, fail), revive), fail);
            s'.refunds == [s.quota, s.quota] && Charge(s') == 0 - s.quota
  {
  }

  /** A row write that fails after a recalculation lets the next poll charge the difference again. */
  lemma LostUpdateChargesTwice(s: State, actual: nat)
    requires Settled(s) && !s.status.Failure? && actual > s.quota && s.balance >= 2 * (actual - s.quota)
    ensures var lost := Poll(Success, Some(actual), true, false, true); var kept := Poll(Success, Some(actual), true, true, true);
            var s' := Step(Step(s, lost), kept);
            s'.quota == actual && Charge(s') == actual + (actual - s.quota)
  {
  }

  /** A bulk failure keeps the charge of a task that will never be refunded. */
  lemma BulkFailureKeepsCharge(s: State, e: Event)
    requires Settled(s) && !s.status.Failure? && e.Poll? && e.result.Failure?
    ensures Charge(Step(Step(s, BulkFail(true)), e)) == s.quota
  {
  }
}
