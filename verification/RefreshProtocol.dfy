/**
 * Rotating refresh tokens (packages/core/src/accounts.ts): many processes refresh one account under
 * a cross-process lock and save snapshots of any age, against a provider whose refresh tokens are
 * spent by use. Each locked stretch, provider call and file write is one atomic step.
 *
 * The environment: the lock is exclusive; a provider answer that rotated the token reaches its caller,
 * whose save lands before the lock is released; one clock never goes back, and an answer within the
 * millisecond of the last one expires later than it; and each saver's own clock is at most the store's
 * tolerance behind it.
 */
module RefreshProtocol {
  import opened Prelude
  import opened Credentials

  type Pid = nat
  type Token = string

  datatype Phase =
    | Outside
    | Locked
    | Reloaded(account: Credential)
    | Answered(answer: Credential)

  /** A token sent to the provider, and whether the provider still took it then. */
  datatype Sent = Sent(token: Option<Token>, current: bool)

  datatype State = State(
    provider: Token,
    spent: set<Token>,
    store: Credential,
    lock: Option<Pid>,
    phases: map<Pid, Phase>,
    // Every copy of the credential some process may still hold and save.
    copies: set<Credential>,
    clock: int,
    sent: seq<Sent>)

  datatype Step =
    | Wait(ms: nat)
    | AcquireLock(p: Pid)
    | ReloadUnderLock(p: Pid)
    | ProviderRotates(p: Pid, access: string, refresh: Token, expiresInMs: int)
    | ProviderFails(p: Pid)
    | SaveRefreshed(p: Pid, skew: int)
    | ReleaseLock(p: Pid)
    | SaveCopy(copy: Credential, skew: int)
    | RecordError(copy: Credential, error: OperationError)

  function PhaseOf(s: State, p: Pid): Phase {
    if p in s.phases then s.phases[p] else Outside
  }

  /** The time of the last provider answer in the store, 0 when none is recorded. */
  function LastAnswer(c: Credential): int {
    c.lastRefreshedAt.GetOr(0)
  }

  /** `a` is the later answer: by the time it was given, and within one millisecond by its expiry. */
  predicate Later(a: Credential, b: Credential) {
    || LastAnswer(a) > LastAnswer(b)
    || (LastAnswer(a) == LastAnswer(b) && a.expires.GetOr(0) > b.expires.GetOr(0))
  }

  /** What the provider's answer says now. */
  function Answer(s: State, access: string, refresh: Token, expiresInMs: int): Credential {
    Credential(Some(access), Some(refresh), Some(s.clock + expiresInMs), Some(s.clock), None)
  }

  predicate Enabled(s: State, step: Step) {
    match step
    case Wait(_) => true
    case AcquireLock(p) => s.lock.None?
    case ReloadUnderLock(p) => s.lock == Some(p) && PhaseOf(s, p) == Locked
    case ProviderRotates(p, access, refresh, expiresInMs) =>
      && s.lock == Some(p) && PhaseOf(s, p).Reloaded?
      && PhaseOf(s, p).account.refresh == Some(s.provider)
      && refresh != s.provider && refresh !in s.spent
      && Later(Answer(s, access, refresh, expiresInMs), PhaseOf(s, p).account)
    case ProviderFails(p) => s.lock == Some(p) && PhaseOf(s, p).Reloaded?
    case SaveRefreshed(p, skew) =>
      s.lock == Some(p) && PhaseOf(s, p).Answered? && skew >= -FUTURE_REFRESH_STAMP_TOLERANCE_MS
    case ReleaseLock(p) => s.lock == Some(p) && !PhaseOf(s, p).Answered?
    case SaveCopy(copy, skew) => copy in s.copies && skew >= -FUTURE_REFRESH_STAMP_TOLERANCE_MS
    case RecordError(copy, _) => copy in s.copies
  }

  /** The provider takes the token `p` read and issues the next one. */
  function Rotated(s: State, p: Pid, answer: Credential, refresh: Token): State
    requires PhaseOf(s, p).Reloaded?
  {
    var sentToken := PhaseOf(s, p).account.refresh;
    s.(sent := s.sent + [Sent(sentToken, sentToken == Some(s.provider))],
       spent := s.spent + {s.provider}, provider := refresh,
       phases := s.phases[p := Answered(answer)], copies := s.copies + {answer})
  }

  function Next(s: State, step: Step): State
    requires Enabled(s, step)
  {
    match step
    case Wait(ms) => s.(clock := s.clock + ms)
    case AcquireLock(p) => s.(lock := Some(p), phases := s.phases[p := Locked])
    case ReloadUnderLock(p) =>
      s.(phases := s.phases[p := Reloaded(s.store)], copies := s.copies + {s.store})
    case ProviderRotates(p, access, refresh, expiresInMs) =>
      Rotated(s, p, Answer(s, access, refresh, expiresInMs), refresh)
    case ProviderFails(p) =>
      var sentToken := PhaseOf(s, p).account.refresh;
      s.(sent := s.sent + [Sent(sentToken, sentToken == Some(s.provider))], phases := s.phases[p := Locked])
    case SaveRefreshed(p, skew) =>
      var stored := NewerCredential(s.store, PhaseOf(s, p).answer, s.clock + skew);
      s.(store := stored, copies := s.copies + {stored}, phases := s.phases[p := Locked])
    case ReleaseLock(p) => s.(lock := None, phases := s.phases[p := Outside])
    case SaveCopy(copy, skew) =>
      var stored := NewerCredential(s.store, copy, s.clock + skew);
      s.(store := stored, copies := s.copies + {stored})
    case RecordError(copy, error) =>
      s.(copies := s.copies + {copy.(lastRefreshError := Some(error))})
  }

  /**
   * The account as it stands: the store holds the provider's current token, and processes may hold
   * copies of it or older ones.
   */
  predicate Initial(s: State) {
    && s.store.refresh == Some(s.provider) && s.provider !in s.spent
    && 0 <= LastAnswer(s.store) <= s.clock
    && s.lock.None? && s.phases == map[] && s.sent == []
    && forall c :: c in s.copies ==> CurrentOrOlder(s.store, c)
  }

  predicate IsRun(states: seq<State>, steps: seq<Step>) {
    && |states| == |steps| + 1
    && Initial(states[0])
    && forall i :: 0 <= i < |steps| ==> Enabled(states[i], steps[i]) && states[i + 1] == Next(states[i], steps[i])
  }

  // ---------------------------------------------------------------------------
  // The invariant
  // ---------------------------------------------------------------------------

  /** Every copy is the current credential (whatever error it records) or older than it. */
  predicate CurrentOrOlder(newest: Credential, c: Credential) {
    SameToken(c, newest) || (0 <= LastAnswer(c) && Later(newest, c))
  }

  /** `newest` is the provider's last answer; the store has it, or the lock holder still carries it. */
  predicate Knows(s: State, newest: Credential) {
    && newest.refresh == Some(s.provider) && s.provider !in s.spent
    && 0 <= LastAnswer(newest) <= s.clock
    && (forall c :: c in s.copies ==> CurrentOrOlder(newest, c))
    && CurrentOrOlder(newest, s.store)
    && (SameToken(s.store, newest)
        || (s.lock.Some? && PhaseOf(s, s.lock.value).Answered?))
    && (forall p :: p in s.phases ==> PhaseHolds(s, newest, p))
    && (forall i :: 0 <= i < |s.sent| ==> s.sent[i].current)
  }

  predicate PhaseHolds(s: State, newest: Credential, p: Pid) {
    match PhaseOf(s, p)
    case Outside => s.lock != Some(p)
    case Locked => s.lock == Some(p)
    case Reloaded(c) => s.lock == Some(p) && SameToken(c, newest) && c in s.copies
    case Answered(c) => s.lock == Some(p) && SameToken(c, newest)
  }

  /** A trusted save never loses the newest credential, and never prefers an older one. */
  lemma SaveKeepsNewest(newest: Credential, stored: Credential, incoming: Credential, now: int)
    requires CurrentOrOlder(newest, stored) && CurrentOrOlder(newest, incoming)
    requires LastAnswer(newest) >= 0 && LastAnswer(newest) <= now + FUTURE_REFRESH_STAMP_TOLERANCE_MS
    ensures var kept := NewerCredential(stored, incoming, now);
            && CurrentOrOlder(newest, kept)
            && (SameToken(stored, newest) || SameToken(incoming, newest) ==> SameToken(kept, newest))
  {
    assert Stamp(stored, now) == LastAnswer(stored);
    assert Stamp(incoming, now) == LastAnswer(incoming);
  }

  /**
   * The order the environment needs is exactly the store's: a save of another token leaves `newest`
   * in the file if and only if `newest` is the later answer.
   */
  lemma SurvivesExactlyWhenLater(newest: Credential, incoming: Credential, now: int)
    requires !SameToken(newest, incoming)
    requires 0 <= LastAnswer(newest) <= now + FUTURE_REFRESH_STAMP_TOLERANCE_MS
    requires 0 <= LastAnswer(incoming) <= now + FUTURE_REFRESH_STAMP_TOLERANCE_MS
    ensures NewerCredential(newest, incoming, now) == newest <==> Later(newest, incoming)
  {
    assert Stamp(newest, now) == LastAnswer(newest);
    assert Stamp(incoming, now) == LastAnswer(incoming);
  }

  /** What the provider issued last, after a step. */
  function NewestAfter(s: State, step: Step, newest: Credential): Credential
    requires Enabled(s, step)
  {
    if step.ProviderRotates? then PhaseOf(Next(s, step), step.p).answer else newest
  }

  lemma PhasesKept(s: State, step: Step, newest: Credential)
    requires Knows(s, newest) && Enabled(s, step)
    ensures var t := Next(s, step);
            forall q :: q in t.phases ==> PhaseHolds(t, NewestAfter(s, step, newest), q)
  {
    var t := Next(s, step);
    forall q | q in t.phases ensures PhaseHolds(t, NewestAfter(s, step, newest), q) {
      if q in s.phases {
        assert PhaseHolds(s, newest, q);
      }
    }
  }

  lemma StepKeepsKnowledge(s: State, step: Step, newest: Credential)
    requires Knows(s, newest) && Enabled(s, step)
    ensures Knows(Next(s, step), NewestAfter(s, step, newest))
  {
    PhasesKept(s, step, newest);
    match step
    case SaveRefreshed(p, skew) =>
      assert PhaseHolds(s, newest, p);
      SaveKeepsNewest(newest, s.store, PhaseOf(s, p).answer, s.clock + skew);
    case SaveCopy(copy, skew) =>
      SaveKeepsNewest(newest, s.store, copy, s.clock + skew);
    case ProviderFails(p) =>
      assert PhaseHolds(s, newest, p);
    case ProviderRotates(p, _, _, _) =>
      assert PhaseHolds(s, newest, p);
    case _ =>
  }

  lemma {:induction false} RunKnows(states: seq<State>, steps: seq<Step>, i: nat) returns (newest: Credential)
    requires IsRun(states, steps) && i < |states|
    ensures Knows(states[i], newest)
  {
    if i == 0 {
      newest := states[0].store;
    } else {
      var earlier := RunKnows(states, steps, i - 1);
      StepKeepsKnowledge(states[i - 1], steps[i - 1], earlier);
      newest := NewestAfter(states[i - 1], steps[i - 1], earlier);
    }
  }

  /**
   * In every run of any number of processes refreshing and saving copies of any age: every token
   * ever sent was the one the provider had issued last, so none was sent after it was spent; and
   * whenever the lock is free the store holds the current token.
   */
  lemma TokensAreSingleUse(states: seq<State>, steps: seq<Step>, i: nat)
    requires IsRun(states, steps) && i < |states|
    ensures forall k :: 0 <= k < |states[i].sent| ==> states[i].sent[k].current
    ensures states[i].lock.None? ==> states[i].store.refresh == Some(states[i].provider)
    ensures states[i].provider !in states[i].spent
  {
    var newest := RunKnows(states, steps, i);
  }
}
