/** One request's billing session: pre-consume, reserve more, then settle or refund (`BillingSession` over
    `WalletFunding` or `SubscriptionFunding`).

    `fundCharge` and `tokenCharge` are what the wallet or subscription and the token have been debited, net.
    Every store call may fail, in which case it debits or credits nothing. */
module Billing {
  import opened Wrappers

  /** Where the money comes from, and whether the request comes from the playground, which has no token. */
  datatype Kind = Kind(subscription: bool, playground: bool)

  datatype Session = Session(
    kind: Kind,
    pre: int,              // preConsumedQuota
    tokenConsumed: int,
    funded: int,           // WalletFunding.consumed or SubscriptionFunding.preConsumed
    extra: int,            // extraReserved
    trusted: bool,
    settled: bool,
    refunded: bool,
    fundCharge: int,
    tokenCharge: int,
    leaked: int)           // what failed rollbacks have left debited

  datatype Call =
    | Reserve(target: int, fundOk: bool, tokenOk: bool, rollbackOk: bool)
    | Settle(actual: int, fundOk: bool, tokenOk: bool)
    | Refund(fundOk: bool, extraOk: bool, tokenOk: bool)

  /** A playground request never touches a token. */
  function TokenPart(k: Kind, n: int): (m: int) {
    if k.playground then 0 else n
  }

  /** What pre-consuming `quota` takes: a subscription at least one, a trusted wallet nothing. */
  function Taken(k: Kind, quota: nat, trust: bool): (q: nat) {
    if k.subscription then (if quota == 0 then 1 else quota) else if trust then 0 else quota
  }

  function Blank(k: Kind): (s: Session) {
    Session(k, 0, 0, 0, 0, false, false, false, 0, 0, 0)
  }

  /** A session that has pre-consumed. */
  function Opened(k: Kind, quota: nat, trust: bool): (s: Session) {
    var q := Taken(k, quota, trust);
    Session(k, q, q, q, 0, trust && !k.subscription, false, false, q, TokenPart(k, q), 0)
  }

  predicate NeedsRefund(s: Session) {
    !s.settled && !s.refunded && (s.tokenConsumed > 0 || (s.kind.subscription && s.funded > 0))
  }

  function Step(s: Session, c: Call): (s': Session) {
    match c
    case Reserve(target, fundOk, tokenOk, rollbackOk) =>
      if s.settled || s.refunded || s.trusted || target <= s.pre || !fundOk then s
      else
        var delta := target - s.pre;
        var funded := if s.kind.subscription then s.funded else s.funded + delta;
        if s.kind.playground || tokenOk then
          s.(pre := target, tokenConsumed := s.tokenConsumed + delta, funded := funded, extra := s.extra + delta,
             fundCharge := s.fundCharge + delta, tokenCharge := s.tokenCharge + TokenPart(s.kind, delta))
        else if rollbackOk then s
        else s.(funded := funded, fundCharge := s.fundCharge + delta, leaked := s.leaked + delta)
    case Settle(actual, fundOk, tokenOk) =>
      if s.settled then s
      else if actual == s.pre then s.(settled := true)
      else if !fundOk then s
      else
        var delta := actual - s.pre;
        s.(settled := true, fundCharge := s.fundCharge + delta,
           tokenCharge := s.tokenCharge + (if tokenOk then TokenPart(s.kind, delta) else 0))
    case Refund(fundOk, extraOk, tokenOk) =>
      if !NeedsRefund(s) then s
      else s.(refunded := true,
              fundCharge := s.fundCharge - (if fundOk && s.funded > 0 then s.funded else 0)
                            - (if extraOk && s.kind.subscription && s.extra > 0 then s.extra else 0),
              tokenCharge := s.tokenCharge - (if tokenOk && s.tokenConsumed > 0 then TokenPart(s.kind, s.tokenConsumed) else 0))
  }

  class BillingSession {
    const kind: Kind
    var pre: int
    var tokenConsumed: int
    var funded: int
    var extra: int
    var trusted: bool
    var fundingSettled: bool
    var settled: bool
    var refunded: bool
    var fundCharge: int
    var tokenCharge: int
    ghost var leaked: int

    ghost function Value(): (s: Session)
      reads this
    {
      Session(kind, pre, tokenConsumed, funded, extra, trusted, settled, refunded, fundCharge, tokenCharge, leaked)
    }

    /** `fundingSettled` is only set together with `settled`. */
    ghost predicate Valid()
      reads this
    {
      fundingSettled ==> settled
    }

    constructor (kind: Kind)
      ensures Valid() && this.kind == kind && Value() == Blank(kind)
    {
      this.kind := kind;
      pre, tokenConsumed, funded, extra := 0, 0, 0, 0;
      trusted, fundingSettled, settled, refunded := false, false, false, false;
      fundCharge, tokenCharge, leaked := 0, 0, 0;
    }

    /** Token first, then the funding; a funding that refuses puts the token back. */
    method PreConsume(quota: nat, trust: bool, tokenOk: bool, fundOk: bool, rollbackOk: bool) returns (ok: bool)
      requires Valid() && Value() == Blank(kind)
      modifies this
      ensures Valid()
      ensures ok <==> Taken(kind, quota, trust) == 0 || ((kind.playground || tokenOk) && fundOk)
      ensures ok ==> Value() == Opened(kind, quota, trust)
      ensures ok ==>
                && pre == fundCharge == (if kind.subscription then (if quota == 0 then 1 else quota) else if trust then 0 else quota)
                && tokenCharge == (if kind.playground then 0 else pre)
      ensures !ok ==> fundCharge == 0 && tokenCharge == (if tokenOk && !rollbackOk then TokenPart(kind, Taken(kind, quota, trust)) else 0)
    {
      var effective := if kind.subscription && quota == 0 then 1 else quota;
      if trust && !kind.subscription {
        trusted := true;
        effective := 0;
      }
      if effective > 0 {
        if !kind.playground {
          if !tokenOk { return false; }
          tokenCharge := tokenCharge + effective;
        }
        tokenConsumed := effective;
      }
      if kind.subscription || effective > 0 {
        if !fundOk {
          if tokenConsumed > 0 && !kind.playground {
            if rollbackOk { tokenCharge := tokenCharge - tokenConsumed; }
            tokenConsumed := 0;
          }
          return false;
        }
        fundCharge := fundCharge + effective;
        funded := effective;
      }
      pre := effective;
      return true;
    }

    method ReserveMore(target: int, fundOk: bool, tokenOk: bool, rollbackOk: bool) returns (ok: bool)
      requires Valid()
      modifies this
      ensures Valid() && Value() == Step(old(Value()), Reserve(target, fundOk, tokenOk, rollbackOk))
      ensures ok <==> old(settled || refunded || trusted) || target <= old(pre) || (fundOk && (kind.playground || tokenOk))
      ensures if ok && !old(settled || refunded || trusted) && target > old(pre) then
                && pre == target && fundCharge == old(fundCharge) + target - old(pre)
                && tokenCharge == old(tokenCharge) + (if kind.playground then 0 else target - old(pre))
              else
                && pre == old(pre) && tokenCharge == old(tokenCharge)
                && (ok || rollbackOk || !fundOk ==> fundCharge == old(fundCharge))
    {
      if settled || refunded || trusted || target <= pre {
        return true;
      }
      var delta := target - pre;
      if !fundOk { return false; }
      fundCharge := fundCharge + delta;
      if !kind.subscription { funded := funded + delta; }
      if !kind.playground {
        if !tokenOk {
          if rollbackOk {
            fundCharge := fundCharge - delta;
            if !kind.subscription { funded := funded - delta; }
          } else {
            leaked := leaked + delta;
          }
          return false;
        }
        tokenCharge := tokenCharge + delta;
      }
      pre, tokenConsumed, extra := pre + delta, tokenConsumed + delta, extra + delta;
      return true;
    }

    method SettleTo(actual: int, fundOk: bool, tokenOk: bool) returns (ok: bool)
      requires Valid()
      modifies this
      ensures Valid() && Value() == Step(old(Value()), Settle(actual, fundOk, tokenOk))
      ensures ok <==> old(settled) || actual == old(pre) || (fundOk && (kind.playground || tokenOk))
      ensures ok && !old(settled) ==>
                && settled && fundCharge == old(fundCharge) + actual - old(pre)
                && tokenCharge == old(tokenCharge) + (if kind.playground then 0 else actual - old(pre))
    {
      if settled { return true; }
      var delta := actual - pre;
      if delta == 0 {
        settled := true;
        return true;
      }
      if !fundingSettled {
        if !fundOk { return false; }
        fundCharge := fundCharge + delta;
        fundingSettled := true;
      }
      ok := true;
      if !kind.playground {
        if tokenOk { tokenCharge := tokenCharge + delta; } else { ok := false; }
      }
      settled := true;
    }

    method RefundAll(fundOk: bool, extraOk: bool, tokenOk: bool)
      requires Valid()
      modifies this
      ensures Valid() && Value() == Step(old(Value()), Refund(fundOk, extraOk, tokenOk))
    {
      if settled || refunded || fundingSettled || (tokenConsumed <= 0 && !(kind.subscription && funded > 0)) {
        return;
      }
      refunded := true;
      if funded > 0 && fundOk { fundCharge := fundCharge - funded; }
      if extra > 0 && kind.subscription && extraOk { fundCharge := fundCharge - extra; }
      if tokenConsumed > 0 && !kind.playground && tokenOk { tokenCharge := tokenCharge - tokenConsumed; }
    }
  }

  // ---- Conservation -------------------------------------------------------------------------------------------

  function Exec(s: Session, calls: seq<Call>): (s': Session) {
    if calls == [] then s else Step(Exec(s, calls[..|calls| - 1]), calls[|calls| - 1])
  }

  /** After a refund each store has given everything back, or nothing where its write failed. */
  ghost predicate GivenBack(s: Session) {
    && (if s.kind.subscription
        then var left := s.fundCharge - s.leaked; left == 0 || left == s.funded || left == s.extra || left == s.funded + s.extra
        else s.fundCharge == 0 || s.fundCharge == s.funded)
    && (s.tokenCharge == 0 || s.tokenCharge == TokenPart(s.kind, s.pre))
  }

  /** `wanted` is the amount of the settlement that took effect. */
  ghost predicate Books(s: Session, wanted: Option<int>) {
    && s.pre >= 0 && s.funded >= 0 && s.extra >= 0 && s.leaked >= 0 && s.tokenConsumed == s.pre
    && (if s.kind.subscription then s.funded + s.extra == s.pre else s.funded == s.pre + s.leaked)
    && !(s.settled && s.refunded)
    && (s.settled <==> wanted.Some?)
    && (!s.settled && !s.refunded ==> s.fundCharge == s.pre + s.leaked && s.tokenCharge == TokenPart(s.kind, s.pre))
    && (s.settled ==> s.fundCharge == wanted.value + s.leaked
                      && (s.tokenCharge == TokenPart(s.kind, s.pre) || s.tokenCharge == TokenPart(s.kind, wanted.value)))
    && (s.refunded ==> GivenBack(s))
  }

  /** A settlement that takes effect on a session already refunded. */
  predicate Spoils(s: Session, c: Call) {
    c.Settle? && s.refunded && !s.settled && (c.actual == s.pre || c.fundOk)
  }

  ghost predicate NeverSpoiled(s: Session, calls: seq<Call>) {
    forall k :: 0 <= k < |calls| ==> !Spoils(Exec(s, calls[..k]), calls[k])
  }

  /** The amount of the settlement that takes effect in a sequence of calls. */
  function Wanted(s: Session, calls: seq<Call>): (w: Option<int>) {
    if calls == [] then None
    else
      var front, c := calls[..|calls| - 1], calls[|calls| - 1];
      WantedAfter(Exec(s, front), c, Wanted(s, front))
  }

  function WantedAfter(s: Session, c: Call, wanted: Option<int>): (w: Option<int>) {
    if c.Settle? && !s.settled && Step(s, c).settled then Some(c.actual) else wanted
  }

  /** One call keeps the books exactly when it does not settle what was given back. */
  lemma StepKeepsBooksIff(s: Session, c: Call, wanted: Option<int>)
    requires Books(s, wanted)
    ensures Books(Step(s, c), WantedAfter(s, c, wanted)) <==> !Spoils(s, c)
  {
  }

  lemma {:induction false} FlagsPersist(s: Session, calls: seq<Call>, n: nat)
    requires n <= |calls|
    ensures Exec(s, calls[..n]).settled ==> Exec(s, calls).settled
    ensures Exec(s, calls[..n]).refunded ==> Exec(s, calls).refunded
    decreases |calls|
  {
    if n < |calls| {
      var front := calls[..|calls| - 1];
      assert front[..n] == calls[..n];
      FlagsPersist(s, front, n);
    } else {
      assert calls[..n] == calls;
    }
  }

  lemma NeverSpoiledSnoc(s: Session, calls: seq<Call>)
    requires calls != []
    ensures var n := |calls| - 1;
            NeverSpoiled(s, calls) <==> NeverSpoiled(s, calls[..n]) && !Spoils(Exec(s, calls[..n]), calls[n])
  {
    var n := |calls| - 1;
    forall k | 0 <= k < n ensures calls[..n][..k] == calls[..k] && calls[..n][k] == calls[k] { }
  }

  /** A spoiled session stays both settled and refunded. */
  lemma SpoiledForever(s: Session, calls: seq<Call>)
    requires !NeverSpoiled(s, calls)
    ensures Exec(s, calls).settled && Exec(s, calls).refunded
  {
    var j :| 0 <= j < |calls| && Spoils(Exec(s, calls[..j]), calls[j]);
    assert calls[..j + 1][..j] == calls[..j];
    FlagsPersist(s, calls, j + 1);
  }

  /** Over every sequence of calls and failures the books balance if and only if no settlement takes effect after a
      refund: settlement and refund exclude each other, the funding is debited what the session says until one of
      them happens, the settled amount afterwards, and what its failed writes left after a refund. */
  lemma {:induction false} BooksBalanceIff(k: Kind, quota: nat, trust: bool, calls: seq<Call>)
    ensures var s := Opened(k, quota, trust);
            Books(Exec(s, calls), Wanted(s, calls)) <==> NeverSpoiled(s, calls)
  {
    var s := Opened(k, quota, trust);
    if calls != [] {
      var n := |calls| - 1;
      BooksBalanceIff(k, quota, trust, calls[..n]);
      NeverSpoiledSnoc(s, calls);
      if NeverSpoiled(s, calls[..n]) {
        StepKeepsBooksIff(Exec(s, calls[..n]), calls[n], Wanted(s, calls[..n]));
      } else {
        SpoiledForever(s, calls);
      }
    }
  }

  predicate AllOk(calls: seq<Call>) {
    forall k :: 0 <= k < |calls| ==> CallOk(calls[k])
  }

  /** Settlements, refunds and rollbacks go through; a reservation may be refused by either store. */
  predicate CallOk(c: Call) {
    match c
    case Reserve(_, _, _, r) => r
    case Settle(_, f, t) => f && t
    case Refund(f, e, t) => f && e && t
  }

  /** Funding and token are charged the settled amount, nothing after a refund, and the reserved amount before. */
  ghost predicate ExactBooks(s: Session, wanted: Option<int>) {
    var due := if s.settled && wanted.Some? then wanted.value else if s.refunded then 0 else s.pre;
    Books(s, wanted) && s.leaked == 0 && s.fundCharge == due && s.tokenCharge == TokenPart(s.kind, due)
  }

  lemma StepKeepsExact(s: Session, c: Call, wanted: Option<int>)
    requires ExactBooks(s, wanted) && CallOk(c)
    ensures ExactBooks(Step(s, c), WantedAfter(s, c, wanted)) <==> !Spoils(s, c)
  {
    StepKeepsBooksIff(s, c, wanted);
  }

  /** When those writes go through, both stores are charged exactly what is due if and only if no settlement
      takes effect after a refund. */
  lemma {:induction false} ChargesAreExactIff(k: Kind, quota: nat, trust: bool, calls: seq<Call>)
    requires AllOk(calls)
    ensures var s := Opened(k, quota, trust);
            ExactBooks(Exec(s, calls), Wanted(s, calls)) <==> NeverSpoiled(s, calls)
  {
    var s := Opened(k, quota, trust);
    if calls != [] {
      var n := |calls| - 1;
      ChargesAreExactIff(k, quota, trust, calls[..n]);
      NeverSpoiledSnoc(s, calls);
      if NeverSpoiled(s, calls[..n]) {
        StepKeepsExact(Exec(s, calls[..n]), calls[n], Wanted(s, calls[..n]));
      } else {
        BooksBalanceIff(k, quota, trust, calls);
      }
    }
  }

  /** The failing input: settling after a refund charges the difference to a price already given back. */
  lemma SettleAfterRefundIsWrong(k: Kind, quota: nat, actual: int)
    requires quota > 0
    ensures var calls := [Refund(true, true, true), Settle(actual, true, true)];
            Exec(Opened(k, quota, false), calls).fundCharge == actual - quota && !NeverSpoiled(Opened(k, quota, false), calls)
  {
    var s := Opened(k, quota, false);
    var calls := [Refund(true, true, true), Settle(actual, true, true)];
    assert calls[..1] == [Refund(true, true, true)] && calls[..1][..0] == [];
    assert Exec(s, calls[..1]) == Step(s, Refund(true, true, true));
    assert Spoils(Exec(s, calls[..1]), calls[1]);
  }
}
