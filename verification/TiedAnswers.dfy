/**
 * Two provider answers in one millisecond (packages/core/src/accounts.ts): single use of refresh tokens
 * depends on exactly the order in which the store compares them.
 */
module TiedAnswers {
  import opened Prelude
  import opened Credentials
  import opened RefreshProtocol

  // ---------------------------------------------------------------------------
  // Runs from any state
  // ---------------------------------------------------------------------------

  predicate CanRun(s: State, steps: seq<Step>)
    decreases |steps|
  {
    steps == [] || (Enabled(s, steps[0]) && CanRun(Next(s, steps[0]), steps[1..]))
  }

  function StateAfter(s: State, steps: seq<Step>): State
    requires CanRun(s, steps)
    decreases |steps|
  {
    if steps == [] then s else StateAfter(Next(s, steps[0]), steps[1..])
  }

  lemma FirstStep(s: State, step: Step, later: seq<Step>)
    requires Enabled(s, step) && CanRun(Next(s, step), later)
    ensures CanRun(s, [step] + later) && StateAfter(s, [step] + later) == StateAfter(Next(s, step), later)
  {
    assert ([step] + later)[1..] == later;
  }

  /** Every token sent was the one the provider had issued last. */
  predicate AllCurrent(s: State) {
    forall i :: 0 <= i < |s.sent| ==> s.sent[i].current
  }

  lemma {:induction false} StaysCurrent(s: State, newest: Credential, steps: seq<Step>)
    requires Knows(s, newest) && CanRun(s, steps)
    ensures AllCurrent(StateAfter(s, steps))
    decreases |steps|
  {
    if steps != [] {
      StepKeepsKnowledge(s, steps[0], newest);
      StaysCurrent(Next(s, steps[0]), NewestAfter(s, steps[0], newest), steps[1..]);
    }
  }

  // ---------------------------------------------------------------------------
  // What a tie leads to
  // ---------------------------------------------------------------------------

  /**
   * `p` has read `account`, the current credential, and the provider is about to rotate its token: any
   * answer with a token not issued before, whatever it says of its expiry.
   */
  predicate AboutToRotate(s: State, p: Pid, refresh: Token) {
    && s.lock == Some(p) && PhaseOf(s, p).Reloaded?
    && PhaseOf(s, p).account.refresh == Some(s.provider)
    && refresh != s.provider && refresh !in s.spent
  }

  /** The steps that bring the spent token back and send it. */
  function BringBack(p: Pid, account: Credential): seq<Step> {
    [SaveRefreshed(p, 0), SaveCopy(account, 0), ReleaseLock(p), AcquireLock(p), ReloadUnderLock(p), ProviderFails(p)]
  }

  /** After an answer that is not later is saved, a save of the old copy puts the old token back. */
  lemma OldTokenComesBack(stored: Credential, account: Credential, answer: Credential, now: int)
    requires SameToken(stored, account) && account.refresh != answer.refresh && !Later(answer, account)
    requires answer.lastRefreshedAt == Some(now) && 0 <= LastAnswer(account) <= now
    ensures NewerCredential(NewerCredential(stored, answer, now), account, now).refresh == account.refresh
  {
  }

  /** The store holds the spent token and nobody holds the lock: the next refresh sends it. */
  lemma SpentTokenIsSent(s: State, p: Pid)
    requires s.lock.None? && s.store.refresh != Some(s.provider)
    ensures var steps := [AcquireLock(p), ReloadUnderLock(p), ProviderFails(p)];
            CanRun(s, steps) && !AllCurrent(StateAfter(s, steps))
  {
    var locked := Next(s, AcquireLock(p));
    var reloaded := Next(locked, ReloadUnderLock(p));
    var sent := Next(reloaded, ProviderFails(p));
    FirstStep(reloaded, ProviderFails(p), []);
    FirstStep(locked, ReloadUnderLock(p), [ProviderFails(p)]);
    FirstStep(s, AcquireLock(p), [ReloadUnderLock(p), ProviderFails(p)]);
    assert [ProviderFails(p)] == [ProviderFails(p)] + [];
    assert [ReloadUnderLock(p), ProviderFails(p)] == [ReloadUnderLock(p)] + [ProviderFails(p)];
    assert [AcquireLock(p), ReloadUnderLock(p), ProviderFails(p)]
        == [AcquireLock(p)] + [ReloadUnderLock(p), ProviderFails(p)];
    assert !sent.sent[|s.sent|].current;
  }

  lemma TieSendsSpentToken(s: State, newest: Credential, p: Pid, answer: Credential, refresh: Token)
    requires Knows(s, newest) && AboutToRotate(s, p, refresh)
    requires answer.refresh == Some(refresh) && answer.lastRefreshedAt == Some(s.clock)
    requires !Later(answer, PhaseOf(s, p).account)
    ensures var t := Rotated(s, p, answer, refresh);
            var steps := BringBack(p, PhaseOf(s, p).account);
            CanRun(t, steps) && !AllCurrent(StateAfter(t, steps))
  {
    var account := PhaseOf(s, p).account;
    assert p in s.phases && PhaseHolds(s, newest, p);
    var t := Rotated(s, p, answer, refresh);
    OldTokenComesBack(s.store, account, answer, s.clock);
    var saved := Next(t, SaveRefreshed(p, 0));
    var overwritten := Next(saved, SaveCopy(account, 0));
    var free := Next(overwritten, ReleaseLock(p));
    var later := [AcquireLock(p), ReloadUnderLock(p), ProviderFails(p)];
    SpentTokenIsSent(free, p);
    FirstStep(overwritten, ReleaseLock(p), later);
    FirstStep(saved, SaveCopy(account, 0), [ReleaseLock(p)] + later);
    FirstStep(t, SaveRefreshed(p, 0), [SaveCopy(account, 0)] + ([ReleaseLock(p)] + later));
    assert BringBack(p, account) == [SaveRefreshed(p, 0)] + ([SaveCopy(account, 0)] + ([ReleaseLock(p)] + later));
  }

  /**
   * The order is exact. Whatever the provider answers to a refresh, no later step of the protocol can send
   * a spent token if and only if the answer is later than the credential it replaces.
   */
  lemma SingleUseExactly(
      s: State, newest: Credential, p: Pid, access: string, refresh: Token, expiresInMs: int)
    requires Knows(s, newest) && AboutToRotate(s, p, refresh)
    ensures var answer := Answer(s, access, refresh, expiresInMs);
            Later(answer, PhaseOf(s, p).account) <==>
              forall steps :: CanRun(Rotated(s, p, answer, refresh), steps) ==>
                AllCurrent(StateAfter(Rotated(s, p, answer, refresh), steps))
  {
    var answer := Answer(s, access, refresh, expiresInMs);
    var t := Rotated(s, p, answer, refresh);
    if Later(answer, PhaseOf(s, p).account) {
      var rotate := ProviderRotates(p, access, refresh, expiresInMs);
      StepKeepsKnowledge(s, rotate, newest);
      forall steps | CanRun(t, steps) ensures AllCurrent(StateAfter(t, steps)) {
        StaysCurrent(t, NewestAfter(s, rotate, newest), steps);
      }
    } else {
      TieSendsSpentToken(s, newest, p, answer, refresh);
    }
  }

  /** In every reachable state, then, whatever the provider answers next. */
  lemma SingleUseInEveryRun(
      states: seq<State>, steps: seq<Step>, i: nat, p: Pid, access: string, refresh: Token, expiresInMs: int)
    requires IsRun(states, steps) && i < |states| && AboutToRotate(states[i], p, refresh)
    ensures var answer := Answer(states[i], access, refresh, expiresInMs);
            var t := Rotated(states[i], p, answer, refresh);
            Later(answer, PhaseOf(states[i], p).account) <==>
              forall later :: CanRun(t, later) ==> AllCurrent(StateAfter(t, later))
  {
    var newest := RunKnows(states, steps, i);
    SingleUseExactly(states[i], newest, p, access, refresh, expiresInMs);
  }

  // ---------------------------------------------------------------------------
  // Two answers in one millisecond
  // ---------------------------------------------------------------------------

  const OLD := Credential(Some("a0"), Some("r0"), Some(100), Some(10), None)
  const NEW := Credential(Some("a1"), Some("r1"), Some(100), Some(10), None)

  const SIGNED_IN := State("r0", {}, OLD, None, map[], {OLD}, 10, [])
  const HELD := SIGNED_IN.(lock := Some(0), phases := map[0 := Locked])
  const READ := HELD.(phases := map[0 := Reloaded(OLD)])
  const TIED := READ.(
    provider := "r1", spent := {"r0"}, phases := map[0 := Answered(NEW)], copies := {OLD, NEW},
    sent := [Sent(Some("r0"), true)])
  const STORED := TIED.(store := NEW, phases := map[0 := Locked])
  const FREE := STORED.(lock := None, phases := map[0 := Outside])
  const OVERWRITTEN := FREE.(store := OLD)
  const HELD_AGAIN := OVERWRITTEN.(lock := Some(0), phases := map[0 := Locked])
  const READ_AGAIN := HELD_AGAIN.(phases := map[0 := Reloaded(OLD)])

  predicate Leads(s: State, step: Step, t: State) {
    Enabled(s, step) && Next(s, step) == t
  }

  lemma TieIsStored()
    ensures Initial(SIGNED_IN)
    ensures Leads(SIGNED_IN, AcquireLock(0), HELD) && Leads(HELD, ReloadUnderLock(0), READ)
    ensures Leads(TIED, SaveRefreshed(0, 0), STORED) && Leads(STORED, ReleaseLock(0), FREE)
  {
  }

  lemma TieIsOverwritten()
    ensures Leads(FREE, SaveCopy(OLD, 0), OVERWRITTEN)
    ensures Leads(OVERWRITTEN, AcquireLock(0), HELD_AGAIN) && Leads(HELD_AGAIN, ReloadUnderLock(0), READ_AGAIN)
  {
  }

  /**
   * The order is needed. A token is rotated in the millisecond of the last answer and with its expiry; a
   * process saves its copy of the old credential, which counts as just as new, and the next refresh sends
   * the spent token.
   */
  lemma TiedAnswerIsLost()
    ensures Initial(SIGNED_IN)
    ensures Leads(SIGNED_IN, AcquireLock(0), HELD) && Leads(HELD, ReloadUnderLock(0), READ)
    ensures Answer(READ, "a1", "r1", 90) == NEW && !Later(NEW, OLD) && TIED == Rotated(READ, 0, NEW, "r1")
    ensures Leads(TIED, SaveRefreshed(0, 0), STORED) && Leads(STORED, ReleaseLock(0), FREE)
    ensures Leads(FREE, SaveCopy(OLD, 0), OVERWRITTEN)
    ensures Leads(OVERWRITTEN, AcquireLock(0), HELD_AGAIN) && Leads(HELD_AGAIN, ReloadUnderLock(0), READ_AGAIN)
    ensures Enabled(READ_AGAIN, ProviderFails(0))
    ensures Next(READ_AGAIN, ProviderFails(0)).sent[1] == Sent(Some("r0"), false) && "r0" in READ_AGAIN.spent
  {
    TieIsStored();
    TieIsOverwritten();
  }
}
