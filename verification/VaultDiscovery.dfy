/**
 * Roster discovery sharing in the vault view (packages/core/src/vault.ts): concurrent callers share
 * one in-flight discovery, and a refresh resolves only after one that began after it was called.
 * Each stretch of code between two awaits is one atomic step.
 */
module VaultDiscovery {
  import opened Prelude

  /** Discoveries are numbered in the order they begin. */
  type DiscoveryId = nat
  type CallId = nat

  /**
   * A `refresh` call. `begunBefore` is how many discoveries had begun when it was made, so discovery
   * `d` began after the call exactly when `d >= begunBefore`.
   */
  datatype Call =
    | WaitingEarlier(begunBefore: nat, earlier: DiscoveryId)
    | Sharing(begunBefore: nat, discovery: DiscoveryId)
    | Resolved(begunBefore: nat, discovery: DiscoveryId)

  datatype Poll = Idle | Awaiting(discovery: DiscoveryId) | TimerArmed | Ended

  datatype State = State(
    discovery: Option<DiscoveryId>,
    polling: bool,
    closed: bool,
    poll: Poll,
    begun: nat,
    finished: set<DiscoveryId>,
    calls: map<CallId, Call>)

  const FRESH := State(None, false, false, Idle, 0, {}, map[])

  datatype Step =
    | Start
    | TimerFires
    | PollResumes(delayPositive: bool)
    | RefreshCalled(call: CallId)
    | CallResumes(call: CallId)
    | DiscoverySettles
    | Close

  /** The shared discovery: the one in flight, or a new one. */
  function SharedDiscovery(s: State): (State, DiscoveryId) {
    match s.discovery
    case Some(d) => (s, d)
    case None => (s.(discovery := Some(s.begun), begun := s.begun + 1), s.begun)
  }

  predicate Enabled(s: State, step: Step) {
    match step
    case Start => true
    case TimerFires => s.poll == TimerArmed
    case PollResumes(_) => s.poll.Awaiting? && s.poll.discovery in s.finished
    case RefreshCalled(c) => c !in s.calls
    case CallResumes(c) =>
      && c in s.calls
      && (match s.calls[c]
          case WaitingEarlier(_, e) => e in s.finished
          case Sharing(_, d) => d in s.finished
          case Resolved(_, _) => false)
    case DiscoverySettles => s.discovery.Some?
    case Close => true
  }

  function Next(s: State, step: Step): State
    requires Enabled(s, step)
  {
    match step
    case Start =>
      if s.polling || s.closed then s
      else
        var (t, d) := SharedDiscovery(s.(polling := true));
        t.(poll := Awaiting(d))
    case TimerFires =>
      var (t, d) := SharedDiscovery(s);
      t.(poll := Awaiting(d))
    case PollResumes(delayPositive) =>
      s.(poll := if s.closed || !delayPositive then Ended else TimerArmed)
    case RefreshCalled(c) =>
      if s.discovery.Some? then s.(calls := s.calls[c := WaitingEarlier(s.begun, s.discovery.value)])
      else
        var (t, d) := SharedDiscovery(s);
        t.(calls := t.calls[c := Sharing(s.begun, d)])
    case CallResumes(c) =>
      (match s.calls[c]
       case WaitingEarlier(n, _) =>
         var (t, d) := SharedDiscovery(s);
         t.(calls := t.calls[c := Sharing(n, d)])
       case Sharing(n, d) => s.(calls := s.calls[c := Resolved(n, d)])
       case Resolved(_, _) => s)
    case DiscoverySettles =>
      s.(discovery := None, finished := s.finished + {s.discovery.value})
    case Close => s.(closed := true, poll := if s.poll == TimerArmed then Ended else s.poll)
  }

  // ---------------------------------------------------------------------------
  // The code
  // ---------------------------------------------------------------------------

  class OpenAiVault {
    var discovery: Option<DiscoveryId>
    var polling: bool
    var closed: bool
    /** Where the poll loop and each `refresh` call stand, and which discoveries began and ended. */
    var poll: Poll
    var calls: map<CallId, Call>
    var begun: nat
    var finished: set<DiscoveryId>

    ghost function AsState(): State
      reads this
    {
      State(discovery, polling, closed, poll, begun, finished, calls)
    }

    constructor ()
      ensures AsState() == FRESH
    {
      discovery, polling, closed, poll, calls, begun, finished := None, false, false, Idle, map[], 0, {};
    }

    method Discover() returns (d: DiscoveryId)
      modifies this`discovery, this`begun
      ensures (AsState(), d) == SharedDiscovery(old(AsState()))
    {
      if discovery.None? {
        discovery := Some(begun);
        begun := begun + 1;
      }
      d := discovery.value;
    }

    method Start()
      modifies this
      ensures AsState() == Next(old(AsState()), Step.Start)
    {
      if polling || closed { return; }
      polling := true;
      var d := Discover();
      poll := Awaiting(d);
    }

    /** The poll timer fires and the next tick begins. */
    method OnTimer()
      requires poll == TimerArmed
      modifies this
      ensures AsState() == Next(old(AsState()), TimerFires)
    {
      var d := Discover();
      poll := Awaiting(d);
    }

    /** The tick's await returns. */
    method ResumePoll(pollIntervalMs: int)
      requires Enabled(AsState(), PollResumes(pollIntervalMs > 0))
      modifies this
      ensures AsState() == Next(old(AsState()), PollResumes(pollIntervalMs > 0))
    {
      if closed || pollIntervalMs <= 0 {
        poll := Ended;
        return;
      }
      poll := TimerArmed;
    }

    /** `refresh` up to its first await. */
    method Refresh(call: CallId)
      requires call !in calls
      modifies this
      ensures AsState() == Next(old(AsState()), RefreshCalled(call))
    {
      var earlier, n := discovery, begun;
      if earlier.Some? {
        calls := calls[call := WaitingEarlier(n, earlier.value)];
        return;
      }
      var d := Discover();
      calls := calls[call := Sharing(n, d)];
    }

    /** `refresh` from one of its awaits to the next, or to its end. */
    method ResumeRefresh(call: CallId)
      requires Enabled(AsState(), CallResumes(call))
      modifies this
      ensures AsState() == Next(old(AsState()), CallResumes(call))
    {
      match calls[call]
      case WaitingEarlier(n, _) =>
        var d := Discover();
        calls := calls[call := Sharing(n, d)];
      case Sharing(n, d) =>
        calls := calls[call := Resolved(n, d)];
      case Resolved(_, _) =>
    }

    /** The in-flight discovery settles and its `finally` clears the slot. */
    method SettleDiscovery()
      requires discovery.Some?
      modifies this
      ensures AsState() == Next(old(AsState()), DiscoverySettles)
    {
      finished := finished + {discovery.value};
      discovery := None;
    }

    method Close()
      modifies this
      ensures AsState() == Next(old(AsState()), Step.Close)
    {
      closed := true;
      if poll == TimerArmed {
        poll := Ended;
      }
    }
  }

  // ---------------------------------------------------------------------------
  // Every interleaving
  // ---------------------------------------------------------------------------

  /** The states a run of steps passes through, each step enabled where it is taken. */
  predicate IsRun(states: seq<State>, steps: seq<Step>) {
    && |states| == |steps| + 1
    && states[0] == FRESH
    && forall i :: 0 <= i < |steps| ==> Enabled(states[i], steps[i]) && states[i + 1] == Next(states[i], steps[i])
  }

  /** The discovery a call waits for, or resolved on. */
  function Awaited(c: Call): DiscoveryId {
    match c
    case WaitingEarlier(_, e) => e
    case Sharing(_, d) => d
    case Resolved(_, d) => d
  }

  /** At most the recorded discovery is in flight. */
  predicate OneInFlight(s: State) {
    && (forall d :: d in s.finished ==> d < s.begun)
    && (forall d :: 0 <= d < s.begun && d !in s.finished ==> s.discovery == Some(d))
    && (s.discovery.Some? ==> s.discovery.value < s.begun && s.discovery.value !in s.finished)
  }

  predicate CallInOrder(s: State, c: Call) {
    && Awaited(c) < s.begun && c.begunBefore <= s.begun
    && (match c
        case WaitingEarlier(n, e) => s.discovery.Some? ==> s.discovery.value == e || n <= s.discovery.value
        case Sharing(n, d) => n <= d
        case Resolved(n, d) => n <= d && d in s.finished)
  }

  predicate Inv(s: State) {
    && OneInFlight(s)
    && (forall c :: c in s.calls ==> CallInOrder(s, s.calls[c]))
    && (s.poll.Awaiting? ==> s.poll.discovery < s.begun)
  }

  lemma StepKeepsOneInFlight(s: State, step: Step)
    requires Inv(s) && Enabled(s, step)
    ensures var t := Next(s, step);
            OneInFlight(t) && (t.poll.Awaiting? ==> t.poll.discovery < t.begun)
  {
  }

  lemma StepKeepsInv(s: State, step: Step)
    requires Inv(s) && Enabled(s, step)
    ensures Inv(Next(s, step))
  {
    StepKeepsOneInFlight(s, step);
    StepKeepsCalls(s, step);
  }

  lemma StepKeepsCalls(s: State, step: Step)
    requires Inv(s) && Enabled(s, step)
    ensures var t := Next(s, step); forall c :: c in t.calls ==> CallInOrder(t, t.calls[c])
  {
    var t := Next(s, step);
    forall c | c in t.calls ensures CallInOrder(t, t.calls[c]) {
      if c in s.calls {
        assert CallInOrder(s, s.calls[c]);
      }
    }
  }

  lemma {:induction false} RunKeepsInv(states: seq<State>, steps: seq<Step>, i: nat)
    requires IsRun(states, steps) && i < |states|
    ensures Inv(states[i])
  {
    if i > 0 {
      RunKeepsInv(states, steps, i - 1);
      StepKeepsInv(states[i - 1], steps[i - 1]);
    }
  }

  /** `begunBefore` is set by the call and never changes afterwards. */
  lemma {:induction false} CallRemembersItsStart(states: seq<State>, steps: seq<Step>, k: nat, i: nat, call: CallId)
    requires IsRun(states, steps) && k < |steps| && k < i < |states| && steps[k] == RefreshCalled(call)
    ensures call in states[i].calls && states[i].calls[call].begunBefore == states[k].begun
    decreases i
  {
    if i > k + 1 {
      CallRemembersItsStart(states, steps, k, i - 1, call);
      assert Enabled(states[i - 1], steps[i - 1]) && states[i] == Next(states[i - 1], steps[i - 1]);
    } else {
      assert Enabled(states[k], steps[k]) && states[k + 1] == Next(states[k], steps[k]);
    }
  }

  /**
   * In every interleaving: a refresh that has resolved did so after a discovery that had not begun
   * when it was called and has ended since; at most one discovery is in flight; and no caller is
   * stuck, for what it waits on either is in flight or has ended.
   */
  lemma RefreshIsFresh(states: seq<State>, steps: seq<Step>, k: nat, i: nat, call: CallId)
    requires IsRun(states, steps) && k < |steps| && k < i < |states| && steps[k] == RefreshCalled(call)
    ensures var s := states[i];
            && call in s.calls
            && var c := s.calls[call];
            && (c.Resolved? ==> states[k].begun <= c.discovery < s.begun && c.discovery in s.finished)
            && (forall d, e :: 0 <= d < s.begun && 0 <= e < s.begun && d !in s.finished && e !in s.finished ==> d == e)
            && (s.discovery == Some(Awaited(c)) || Awaited(c) in s.finished)
  {
    RunKeepsInv(states, steps, i);
    CallRemembersItsStart(states, steps, k, i, call);
    assert CallInOrder(states[i], states[i].calls[call]);
  }

  // ---------------------------------------------------------------------------
  // Nothing stalls, and nothing is begun twice
  // ---------------------------------------------------------------------------

  /** The loop waits for a discovery in flight or ended, or for its timer. */
  predicate LoopAlive(s: State) {
    s.poll == TimerArmed
    || (s.poll.Awaiting? && (s.discovery == Some(s.poll.discovery) || s.poll.discovery in s.finished))
  }

  lemma StepKeepsLoop(s: State, step: Step)
    requires Inv(s) && Enabled(s, step) && LoopAlive(s) && s.polling && !s.closed
    requires step != Close && step != PollResumes(false)
    ensures LoopAlive(Next(s, step)) && Next(s, step).polling && !Next(s, step).closed
  {
  }

  /** Started before it is closed, and with a positive interval, the poll loop goes on until the vault is closed. */
  lemma {:induction false} PollGoesOn(states: seq<State>, steps: seq<Step>, k: nat, i: nat)
    requires IsRun(states, steps) && k < |steps| && k < i < |states|
    requires steps[k] == Start && !states[k].polling && !states[k].closed
    requires forall m :: k < m < i ==> steps[m] != Close && steps[m] != PollResumes(false)
    ensures LoopAlive(states[i]) && states[i].polling && !states[i].closed
    decreases i
  {
    assert Enabled(states[i - 1], steps[i - 1]);
    if k + 1 < i {
      PollGoesOn(states, steps, k, i - 1);
      RunKeepsInv(states, steps, i - 1);
      StepKeepsLoop(states[i - 1], steps[i - 1]);
    } else {
      StartsLoop(states[k]);
    }
  }

  lemma StartsLoop(s: State)
    requires !s.polling && !s.closed
    ensures LoopAlive(Next(s, Start)) && Next(s, Start).polling && !Next(s, Start).closed
  {
  }

  /** A tick, the first or a later one, shares the discovery in flight or else begins one, and the loop waits for it. */
  lemma TickAwaitsDiscovery(states: seq<State>, steps: seq<Step>, k: nat)
    requires IsRun(states, steps) && k < |steps|
    requires steps[k] == TimerFires || (steps[k] == Start && !states[k].polling && !states[k].closed)
    ensures var s, t := states[k], states[k + 1];
            && t.poll.Awaiting? && t.discovery == Some(t.poll.discovery)
            && (s.discovery.Some? ==> t.discovery == s.discovery && t.begun == s.begun)
            && (s.discovery.None? ==> t.poll.discovery == s.begun && t.begun == s.begun + 1)
  {
    assert Enabled(states[k], steps[k]) && states[k + 1] == Next(states[k], steps[k]);
  }

  /** There is one loop: starting again does nothing, nor does starting a closed vault. */
  lemma StartsOnce(states: seq<State>, steps: seq<Step>, k: nat)
    requires IsRun(states, steps) && k < |steps| && steps[k] == Start && (states[k].polling || states[k].closed)
    ensures states[k + 1] == states[k]
  {
    assert Enabled(states[k], steps[k]) && states[k + 1] == Next(states[k], steps[k]);
  }

  /** Once closed, the timer is never armed, and only refreshes begin discoveries. */
  lemma {:induction false} ClosedStaysQuiet(states: seq<State>, steps: seq<Step>, k: nat, i: nat)
    requires IsRun(states, steps) && k < |steps| && k < i < |states| && steps[k] == Close
    ensures states[i].closed && states[i].poll != TimerArmed
    ensures i < |steps| ==> steps[i] != TimerFires
    ensures i < |steps| && states[i + 1].begun != states[i].begun ==> steps[i].RefreshCalled? || steps[i].CallResumes?
    decreases i
  {
    assert Enabled(states[i - 1], steps[i - 1]) && states[i] == Next(states[i - 1], steps[i - 1]);
    if k + 1 < i {
      ClosedStaysQuiet(states, steps, k, i - 1);
    }
    if i < |steps| {
      assert Enabled(states[i], steps[i]) && states[i + 1] == Next(states[i], steps[i]);
    }
  }

  /** A discovery that settles has ended, and the next caller begins another. */
  lemma SettlingEnds(states: seq<State>, steps: seq<Step>, k: nat)
    requires IsRun(states, steps) && k < |steps| && steps[k] == DiscoverySettles
    ensures states[k].discovery.Some? && states[k + 1].discovery.None?
    ensures states[k + 1].finished == states[k].finished + {states[k].discovery.value}
    ensures states[k + 1].begun == states[k].begun
  {
    assert Enabled(states[k], steps[k]) && states[k + 1] == Next(states[k], steps[k]);
  }

  /**
   * A refresh takes at most two awaits: with a discovery in flight it waits that one out first and then has one
   * that is in flight; without, it begins one at once; and when the one it shares ends it resolves.
   */
  lemma RefreshTakesTwoAwaits(states: seq<State>, steps: seq<Step>, k: nat, call: CallId)
    requires IsRun(states, steps) && k < |steps| && (steps[k] == RefreshCalled(call) || steps[k] == CallResumes(call))
    ensures var s, t := states[k], states[k + 1];
            && call in t.calls
            && var c := t.calls[call];
            && (steps[k].RefreshCalled? ==>
                  if s.discovery.Some? then c == WaitingEarlier(s.begun, s.discovery.value) && t.begun == s.begun
                  else c.Sharing? && t.discovery == Some(c.discovery) && c.discovery == s.begun < t.begun)
            && (steps[k].CallResumes? ==>
                  && call in s.calls
                  && (s.calls[call].WaitingEarlier? ==> c.Sharing? && t.discovery == Some(c.discovery))
                  && (s.calls[call].Sharing? ==> c == Resolved(s.calls[call].begunBefore, s.calls[call].discovery)))
  {
    assert Enabled(states[k], steps[k]) && states[k + 1] == Next(states[k], steps[k]);
  }
}
