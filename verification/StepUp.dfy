/** Step-up verification: the session markers written by the passkey assertion, by `UniversalVerify` and by the
    checks that require a verification.

    The session is one authoritative map.  Every handler saves it, and a save may fail, in which case the
    stored session stays as it was.  Clock readings are parameters; a passkey verification reads the clock
    twice, once to test the ready marker and once to stamp the session. */
module StepUp {
  import opened Wrappers

  const VERIFICATION_TIMEOUT := 300
  const READY_TIMEOUT := 60
  const PASSKEY := "passkey"
  const TWO_FACTOR := "2fa"

  /** A stored value that should be a time stamp. */
  datatype Stamp = At(time: int) | Malformed

  datatype Session = Session(ready: Option<Stamp>, verifiedAt: Option<Stamp>, means: Option<string>)

  const EMPTY := Session(None, None, None)

  datatype Event =
    | Finish(at: int, saved: bool)                                    // PasskeyVerifyFinish accepted an assertion
    | TwoFactor(valid: bool, at: int, saved: bool)                    // UniversalVerify with a 2FA code
    | Passkey(checkedAt: int, at: int, consumed: bool, saved: bool)   // UniversalVerify with method "passkey"
    | Check(means: string, at: int, saved: bool)                     // requireSecureVerificationMethod
    | Clear(at: int, saved: bool)                                     // ClearSecureVerification

  predicate Live(stamp: Option<Stamp>, now: int, timeout: int) {
    stamp.Some? && stamp.value.At? && now - stamp.value.time < timeout
  }

  function Verified(at: int, means: string): (s: Session) {
    Session(None, Some(At(at)), Some(means))
  }

  predicate Passes(s: Session, means: string, at: int) {
    Live(s.verifiedAt, at, VERIFICATION_TIMEOUT) && s.means == Some(means)
  }

  /** The verification call succeeds. */
  predicate Accepts(s: Session, e: Event) {
    match e
    case TwoFactor(valid, _, saved) => valid && saved
    case Passkey(checkedAt, _, consumed, saved) => consumed && saved && Live(s.ready, checkedAt, READY_TIMEOUT)
    case _ => false
  }

  function Step(s: Session, e: Event): (s': Session) {
    match e
    case Finish(at, saved) => if saved then Session(Some(At(at)), None, None) else s
    case TwoFactor(valid, at, saved) => if valid && saved then Verified(at, TWO_FACTOR) else s
    case Passkey(checkedAt, at, consumed, saved) =>
      if s.ready == None || !consumed then s
      else if Live(s.ready, checkedAt, READY_TIMEOUT) && saved then Verified(at, PASSKEY)
      else s.(ready := None)
    case Check(_, at, saved) =>
      if !Live(s.verifiedAt, at, VERIFICATION_TIMEOUT) && saved then s.(verifiedAt := None, means := None) else s
    case Clear(_, saved) => if saved then s.(verifiedAt := None, means := None) else s
  }

  /** The session after a trace that begins with nothing stored. */
  function Exec(events: seq<Event>): (s: Session) {
    if events == [] then EMPTY else Step(Exec(events[..|events| - 1]), events[|events| - 1])
  }

  // ---- The handlers ---------------------------------------------------------------------------------------

  class SessionStore {
    var ready: Option<Stamp>
    var verifiedAt: Option<Stamp>
    var verifiedMethod: Option<string>

    constructor ()
      ensures Value() == EMPTY
    {
      ready, verifiedAt, verifiedMethod := None, None, None;
    }

    ghost function Value(): (s: Session)
      reads this
    {
      Session(ready, verifiedAt, verifiedMethod)
    }

    method PasskeyVerifyFinish(now: int, saved: bool)
      modifies this
      ensures Value() == Step(old(Value()), Finish(now, saved))
    {
      if saved {
        ready, verifiedAt, verifiedMethod := Some(At(now)), None, None;
      }
    }

    method SetSecureVerification(means: string, now: int, saved: bool)
      modifies this
      ensures Value() == if saved then Verified(now, means) else old(Value())
    {
      if saved {
        ready, verifiedAt, verifiedMethod := None, Some(At(now)), Some(means);
      }
    }

    /** The marker is deleted before its age is tested, so it is spent even when it has expired. */
    method ConsumePasskeyReady(now: int, saved: bool) returns (ok: bool)
      modifies this
      ensures ok <==> saved && Live(old(ready), now, READY_TIMEOUT)
      ensures Value() == if saved then old(Value()).(ready := None) else old(Value())
    {
      if ready == None {
        return false;
      }
      var readyAt := ready.value;
      if readyAt.Malformed? {
        if saved { ready := None; }
        return false;
      }
      if !saved {
        return false;
      }
      ready := None;
      return now - readyAt.time < READY_TIMEOUT;
    }

    method VerifyPasskey(checkedAt: int, now: int, consumed: bool, saved: bool) returns (ok: bool)
      modifies this
      ensures Value() == Step(old(Value()), Passkey(checkedAt, now, consumed, saved))
      ensures ok == Accepts(old(Value()), Passkey(checkedAt, now, consumed, saved))
    {
      ok := ConsumePasskeyReady(checkedAt, consumed);
      if ok {
        SetSecureVerification(PASSKEY, now, saved);
        ok := saved;
      }
    }

    method VerifyTwoFactor(valid: bool, now: int, saved: bool) returns (ok: bool)
      modifies this
      ensures Value() == Step(old(Value()), TwoFactor(valid, now, saved))
      ensures ok == Accepts(old(Value()), TwoFactor(valid, now, saved))
    {
      if !valid {
        return false;
      }
      SetSecureVerification(TWO_FACTOR, now, saved);
      return saved;
    }

    method RequireMethod(means: string, now: int, saved: bool) returns (ok: bool)
      modifies this
      ensures Value() == Step(old(Value()), Check(means, now, saved))
      ensures ok == Passes(old(Value()), means, now)
    {
      if verifiedAt == None || verifiedAt.value.Malformed? || now - verifiedAt.value.time >= VERIFICATION_TIMEOUT {
        if saved { verifiedAt, verifiedMethod := None, None; }
        return false;
      }
      return verifiedMethod == Some(means);
    }
  }

  // ---- Traces -----------------------------------------------------------------------------------------------

  /** An assertion was accepted and its marker stored. */
  predicate Asserts(e: Event) {
    e.Finish? && e.saved
  }

  /** The k-th event is a successful verification. */
  predicate Succeeds(events: seq<Event>, k: nat)
    requires k < |events|
  {
    Accepts(Exec(events[..k]), events[k])
  }

  /** The k-th event spends a ready marker. */
  predicate Spends(events: seq<Event>, k: nat)
    requires k < |events|
  {
    events[k].Passkey? && events[k].consumed && Exec(events[..k]).ready.Some?
  }

  /** From `from` on, no assertion, no successful verification, and no spent marker: the marker stands. */
  ghost predicate MarkerStands(events: seq<Event>, from: nat) {
    forall k :: from <= k < |events| ==> !Asserts(events[k]) && !Succeeds(events, k) && !Spends(events, k)
  }

  /** From `from` on, no assertion, no successful verification, and nobody asks for the verification to be cleared. */
  ghost predicate VerificationStands(events: seq<Event>, from: nat) {
    forall k :: from <= k < |events| ==>
      !Asserts(events[k]) && !Succeeds(events, k) && !(events[k].Clear? && events[k].saved)
  }

  /** The i-th event is an assertion, the j-th its verification less than a minute later, and the check at
      time `at` follows less than five minutes after that, with nothing in between replacing either. */
  ghost predicate Backs(events: seq<Event>, i: nat, j: nat, at: int) {
    && i < j < |events|
    && Asserts(events[i]) && MarkerStands(events[..j], i + 1)
    && events[j].Passkey? && events[j].consumed && events[j].saved
    && events[j].checkedAt - events[i].at < 60
    && VerificationStands(events, j + 1)
    && at - events[j].at < 300
  }

  predicate Ordered(events: seq<Event>, at: int) {
    && (forall k, l :: 0 <= k < l < |events| ==> events[k].at <= events[l].at)
    && forall k :: 0 <= k < |events| ==> events[k].at <= at
  }

  lemma PrefixOfPrefix(events: seq<Event>, n: nat, k: nat)
    requires k <= n <= |events|
    ensures events[..n][..k] == events[..k]
  {
  }

  lemma SameInPrefix(events: seq<Event>, n: nat, k: nat)
    requires k < n <= |events|
    ensures events[..n][k] == events[k]
    ensures Succeeds(events[..n], k) == Succeeds(events, k) && Spends(events[..n], k) == Spends(events, k)
  {
    PrefixOfPrefix(events, n, k);
  }

  lemma StandsInPrefix(events: seq<Event>, n: nat, from: nat)
    requires n <= |events|
    ensures MarkerStands(events, from) ==> MarkerStands(events[..n], from)
    ensures VerificationStands(events, from) ==> VerificationStands(events[..n], from)
  {
    forall k | from <= k < n { SameInPrefix(events, n, k); }
  }

  /** A step that neither asserts nor verifies leaves a verification alone or clears it. */
  lemma StepOnVerification(s: Session, e: Event)
    requires !Asserts(e) && !Accepts(s, e)
    ensures var s' := Step(s, e);
            || (s'.verifiedAt == s.verifiedAt && s'.means == s.means)
            || (s'.verifiedAt == None && s'.means == None && e.saved
                && (e.Clear? || (e.Check? && !Live(s.verifiedAt, e.at, VERIFICATION_TIMEOUT))))
  {
  }

  /** A stored ready marker was written by an assertion that still stands... */
  lemma {:induction false} ReadySource(events: seq<Event>) returns (i: nat)
    requires Exec(events).ready.Some?
    ensures i < |events| && Asserts(events[i]) && MarkerStands(events, i + 1)
    ensures Exec(events).ready == Some(At(events[i].at))
  {
    var n := |events| - 1;
    var front, e := events[..n], events[n];
    if Asserts(e) {
      i := n;
    } else {
      i := ReadySource(front);
      forall k | i < k < n { SameInPrefix(events, n, k); }
    }
  }

  /** ... and a stored verification by a successful call that still stands. */
  lemma {:induction false} VerifiedSource(events: seq<Event>) returns (j: nat)
    requires Exec(events).verifiedAt.Some? || Exec(events).means.Some?
    ensures j < |events| && Succeeds(events, j) && VerificationStands(events, j + 1)
    ensures Exec(events).verifiedAt == Some(At(events[j].at))
    ensures Exec(events).means == Some(if events[j].Passkey? then PASSKEY else TWO_FACTOR)
  {
    var n := |events| - 1;
    var front, e := events[..n], events[n];
    if Succeeds(events, n) {
      j := n;
    } else {
      StepOnVerification(Exec(front), e);
      j := VerifiedSource(front);
      forall k | j <= k < n { SameInPrefix(events, n, k); }
    }
  }

  /** Soundness: a passkey check that passes rests on one assertion and one verification of it, both recent,
      and nothing since either of them has replaced it. */
  lemma PasskeyCheckIsBacked(events: seq<Event>, at: int)
    requires Passes(Exec(events), PASSKEY, at)
    ensures exists i, j :: Backs(events, i, j, at)
  {
    var j := VerifiedSource(events);
    assert PASSKEY != TWO_FACTOR by { assert |PASSKEY| != |TWO_FACTOR|; }
    var i := ReadySource(events[..j]);
    assert events[..j][i] == events[i];
    assert Backs(events, i, j, at);
  }

  /** The marker survives as long as it stands. */
  lemma {:induction false} ReadyPersists(events: seq<Event>, i: nat)
    requires i < |events| && Asserts(events[i]) && MarkerStands(events, i + 1)
    ensures Exec(events).ready == Some(At(events[i].at))
  {
    var n := |events| - 1;
    if i < n {
      StandsInPrefix(events, n, i + 1);
      ReadyPersists(events[..n], i);
      assert !Asserts(events[n]) && !Succeeds(events, n) && !Spends(events, n);
    }
  }

  lemma {:induction false} VerifiedPersists(events: seq<Event>, j: nat, at: int)
    requires j < |events| && Succeeds(events, j) && VerificationStands(events, j + 1)
    requires Ordered(events, at) && at - events[j].at < VERIFICATION_TIMEOUT
    ensures Exec(events).verifiedAt == Some(At(events[j].at))
    ensures Exec(events).means == Some(if events[j].Passkey? then PASSKEY else TWO_FACTOR)
  {
    var n := |events| - 1;
    if j < n {
      SameInPrefix(events, n, j);
      StandsInPrefix(events, n, j + 1);
      VerifiedPersists(events[..n], j, at);
      assert !Asserts(events[n]) && !Succeeds(events, n);
      StepOnVerification(Exec(events[..n]), events[n]);
    }
  }

  lemma BackedCheckPasses(events: seq<Event>, i: nat, j: nat, at: int)
    requires Ordered(events, at) && Backs(events, i, j, at)
    ensures Passes(Exec(events), PASSKEY, at)
  {
    assert events[..j][i] == events[i];
    ReadyPersists(events[..j], i);
    VerifiedPersists(events, j, at);
  }

  /** With a clock that never goes back, a passkey check passes exactly when it is backed. */
  lemma PasskeyCheckIff(events: seq<Event>, at: int)
    requires Ordered(events, at)
    ensures Passes(Exec(events), PASSKEY, at) <==> exists i, j :: Backs(events, i, j, at)
  {
    forall i: nat, j: nat | Backs(events, i, j, at) ensures Passes(Exec(events), PASSKEY, at) {
      BackedCheckPasses(events, i, j, at);
    }
    if Passes(Exec(events), PASSKEY, at) {
      PasskeyCheckIsBacked(events, at);
    }
  }

  /** The j-th event is a valid code less than five minutes before the check, and nothing since has replaced it. */
  ghost predicate CodeBacks(events: seq<Event>, j: nat, at: int) {
    && j < |events| && events[j].TwoFactor? && events[j].valid && events[j].saved
    && VerificationStands(events, j + 1) && at - events[j].at < 300
  }

  /** With a clock that never goes back, a two-factor check passes exactly when a recent code backs it. */
  lemma TwoFactorCheckIff(events: seq<Event>, at: int)
    requires Ordered(events, at)
    ensures Passes(Exec(events), TWO_FACTOR, at) <==> exists j :: CodeBacks(events, j, at)
  {
    assert PASSKEY != TWO_FACTOR by { assert |PASSKEY| != |TWO_FACTOR|; }
    forall j: nat | CodeBacks(events, j, at) ensures Passes(Exec(events), TWO_FACTOR, at) {
      VerifiedPersists(events, j, at);
    }
    if Passes(Exec(events), TWO_FACTOR, at) {
      var j := VerifiedSource(events);
      assert CodeBacks(events, j, at);
    }
  }

  /** Each assertion supports at most one verification: between two successful passkey verifications there is
      another assertion. */
  lemma AssertionUsedOnce(events: seq<Event>, j: nat, k: nat)
    requires j < k < |events| && events[j].Passkey? && events[k].Passkey? && Succeeds(events, j) && Succeeds(events, k)
    ensures exists i :: j < i < k && Asserts(events[i]) && events[k].checkedAt - events[i].at < 60
  {
    var i := ReadySource(events[..k]);
    assert events[..k][i] == events[i] && events[..k][j] == events[j];
    PrefixOfPrefix(events, k, j);
    assert Succeeds(events[..k], j);
    assert !Succeeds(events, i);
  }
}
