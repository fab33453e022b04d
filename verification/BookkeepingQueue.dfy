/**
 * The background write queue of the sidebar file (packages/opencode/src/sidebar-state.ts): writes
 * start at once, a failed one is retried from a timer, and a newer write under the same key
 * supersedes it. Each callback is one atomic step.
 */
module BookkeepingQueue {
  import opened Prelude

  type Key = string
  /** Stands for a write closure. */
  type Write = nat

  /** One started write, under the generation its key had then. */
  datatype Attempt = Attempt(key: Key, write: Write, generation: nat)

  datatype Delays = Delays(base: nat, max: nat)

  datatype State = State(
    generation: map<Key, nat>,
    retries: map<Key, Write>,
    failing: set<Key>,
    sequence: nat,
    delayMs: nat,
    timerArmed: bool,
    stopped: bool,
    inFlight: set<Attempt>)

  function Initial(delays: Delays): State {
    State(map[], map[], {}, 0, delays.base, false, false, {})
  }

  datatype Step =
    | Enqueue(key: Key, write: Write)
    | Cancel(key: Key)
    | Stop
    | TimerFires
    | Succeeds(attempt: Attempt)
    | Fails(attempt: Attempt)

  predicate Live(s: State, a: Attempt) {
    a.key in s.generation && s.generation[a.key] == a.generation
  }

  predicate Enabled(s: State, step: Step) {
    match step
    case TimerFires => s.timerArmed
    case Succeeds(a) => a in s.inFlight
    case Fails(a) => a in s.inFlight
    case _ => true
  }

  /** The attempts that restart the due retries of `keys` that still have a generation. */
  function Restarts(due: map<Key, Write>, generation: map<Key, nat>, keys: set<Key>): set<Attempt> {
    set k | k in keys && k in due && k in generation :: Attempt(k, due[k], generation[k])
  }

  /** The attempts a step starts. */
  function StartedBy(s: State, step: Step): set<Attempt> {
    match step
    case Enqueue(k, w) => {Attempt(k, w, s.sequence + 1)}
    case TimerFires => Restarts(s.retries, s.generation, s.retries.Keys)
    case _ => {}
  }

  function Next(delays: Delays, s: State, step: Step): State
    requires Enabled(s, step)
  {
    match step
    case Enqueue(k, w) =>
      s.(sequence := s.sequence + 1, generation := s.generation[k := s.sequence + 1],
         retries := s.retries - {k}, inFlight := s.inFlight + StartedBy(s, step))
    case Cancel(k) =>
      s.(generation := s.generation - {k}, retries := s.retries - {k}, failing := s.failing - {k})
    case Stop =>
      s.(stopped := true, timerArmed := false, retries := map[])
    case TimerFires =>
      s.(timerArmed := false, retries := map[], delayMs := Min(s.delayMs * 2, delays.max),
         inFlight := s.inFlight + StartedBy(s, step))
    case Succeeds(a) =>
      var t := s.(inFlight := s.inFlight - {a});
      if !Live(s, a) then t
      else
        var failing := s.failing - {a.key};
        t.(generation := s.generation - {a.key}, failing := failing,
           delayMs := if failing == {} then delays.base else s.delayMs)
    case Fails(a) =>
      var t := s.(inFlight := s.inFlight - {a});
      if !Live(s, a) then t
      else if s.stopped then t.(generation := s.generation - {a.key})
      else t.(failing := s.failing + {a.key}, retries := s.retries[a.key := a.write], timerArmed := true)
  }

  // ---------------------------------------------------------------------------
  // The code
  // ---------------------------------------------------------------------------

  class SidebarBookkeepingQueue {
    const delays: Delays
    var generation: map<Key, nat>
    var retries: map<Key, Write>
    var failing: set<Key>
    var sequence: nat
    var delayMs: nat
    var timerArmed: bool
    var stopped: bool
    /** The writes running now. */
    var inFlight: set<Attempt>

    ghost function AsState(): State
      reads this
    {
      State(generation, retries, failing, sequence, delayMs, timerArmed, stopped, inFlight)
    }

    constructor (delays: Delays)
      ensures this.delays == delays && AsState() == Initial(delays)
    {
      this.delays := delays;
      generation, retries, failing, sequence := map[], map[], {}, 0;
      delayMs, timerArmed, stopped, inFlight := delays.base, false, false, {};
    }

    method Schedule()
      modifies this`timerArmed
      ensures timerArmed == (old(timerArmed) || (!stopped && retries != map[]))
    {
      if timerArmed || stopped || |retries| == 0 { return; }
      timerArmed := true;
    }

    method StartAttempt(key: Key, write: Write, ownGeneration: nat)
      modifies this`inFlight
      ensures inFlight == old(inFlight) + {Attempt(key, write, ownGeneration)}
    {
      inFlight := inFlight + {Attempt(key, write, ownGeneration)};
    }

    method Enqueue(key: Key, write: Write)
      modifies this
      ensures AsState() == Next(delays, old(AsState()), Step.Enqueue(key, write))
    {
      sequence := sequence + 1;
      generation := generation[key := sequence];
      retries := retries - {key};
      StartAttempt(key, write, sequence);
    }

    method Cancel(key: Key)
      modifies this
      ensures AsState() == Next(delays, old(AsState()), Step.Cancel(key))
    {
      generation := generation - {key};
      retries := retries - {key};
      failing := failing - {key};
    }

    method Stop()
      modifies this
      ensures AsState() == Next(delays, old(AsState()), Step.Stop)
    {
      stopped := true;
      timerArmed := false;
      retries := map[];
    }

    /** The retry timer: everything pending is started again. */
    method OnTimer()
      requires timerArmed
      modifies this
      ensures AsState() == Next(delays, old(AsState()), TimerFires)
    {
      timerArmed := false;
      var due := retries;
      retries := map[];
      delayMs := Min(delayMs * 2, delays.max);
      var left := due.Keys;
      while left != {}
        invariant left <= due.Keys
        invariant inFlight == old(inFlight) + Restarts(due, generation, due.Keys - left)
        modifies this`inFlight
        decreases left
      {
        var key :| key in left;
        if key in generation {
          StartAttempt(key, due[key], generation[key]);
        }
        left := left - {key};
      }
    }

    method OnSuccess(a: Attempt)
      requires a in inFlight
      modifies this
      ensures AsState() == Next(delays, old(AsState()), Succeeds(a))
    {
      inFlight := inFlight - {a};
      if a.key !in generation || generation[a.key] != a.generation { return; }
      generation := generation - {a.key};
      failing := failing - {a.key};
      if |failing| == 0 {
        delayMs := delays.base;
      }
    }

    method OnFailure(a: Attempt)
      requires a in inFlight
      modifies this
      ensures AsState() == Next(delays, old(AsState()), Fails(a))
    {
      inFlight := inFlight - {a};
      if a.key !in generation || generation[a.key] != a.generation { return; }
      if stopped {
        generation := generation - {a.key};
        return;
      }
      failing := failing + {a.key};
      retries := retries[a.key := a.write];
      assert a.key in retries;
      Schedule();
    }
  }

  // ---------------------------------------------------------------------------
  // Every reachable state
  // ---------------------------------------------------------------------------

  predicate IsRun(delays: Delays, states: seq<State>, steps: seq<Step>) {
    && |states| == |steps| + 1
    && states[0] == Initial(delays)
    && forall i :: 0 <= i < |steps| ==>
         Enabled(states[i], steps[i]) && states[i + 1] == Next(delays, states[i], steps[i])
  }

  /** The key's current write is running. */
  predicate Running(s: State, k: Key) {
    exists a :: a in s.inFlight && a.key == k && Live(s, a)
  }

  /** Generations are handed out once. */
  predicate Numbered(s: State) {
    && (forall k :: k in s.generation ==> s.generation[k] <= s.sequence)
    && (forall a :: a in s.inFlight ==> a.generation <= s.sequence)
    && (forall a, b :: a in s.inFlight && b in s.inFlight && a.key == b.key && a.generation == b.generation ==> a == b)
  }

  /** A pending retry belongs to a live generation that is not running. */
  predicate RetriesPending(s: State) {
    && (forall k :: k in s.retries ==> k in s.generation && k in s.failing && !Running(s, k))
    && (s.stopped ==> s.retries == map[] && !s.timerArmed)
    && (s.retries != map[] ==> s.timerArmed)
  }

  predicate NoneDropped(s: State) {
    !s.stopped ==>
      && s.failing <= s.generation.Keys
      && forall k :: k in s.generation ==> Running(s, k) || k in s.retries
  }

  predicate DelayBounded(delays: Delays, s: State) {
    Min(delays.base, delays.max) <= s.delayMs <= Max(delays.base, delays.max)
  }

  predicate Inv(delays: Delays, s: State) {
    Numbered(s) && RetriesPending(s) && NoneDropped(s) && DelayBounded(delays, s)
  }

  lemma StepKeepsNumbered(delays: Delays, s: State, step: Step)
    requires Numbered(s) && RetriesPending(s) && Enabled(s, step)
    ensures Numbered(Next(delays, s, step))
  {
    var t := Next(delays, s, step);
    forall a, b | a in t.inFlight && b in t.inFlight && a.key == b.key && a.generation == b.generation
      ensures a == b
    {
      if step.TimerFires? && (a !in s.inFlight || b !in s.inFlight) {
        assert !Running(s, a.key);
      }
    }
  }

  lemma StepKeepsRetries(delays: Delays, s: State, step: Step)
    requires Numbered(s) && RetriesPending(s) && NoneDropped(s) && Enabled(s, step)
    ensures RetriesPending(Next(delays, s, step))
  {
    var t := Next(delays, s, step);
    forall k | k in t.retries ensures k in t.generation && k in t.failing && !Running(t, k) {
      if Running(t, k) {
        var a :| a in t.inFlight && a.key == k && Live(t, a);
        assert a in s.inFlight && Live(s, a);
        assert Running(s, k);
      }
    }
  }

  lemma StepKeepsProgress(delays: Delays, s: State, step: Step)
    requires RetriesPending(s) && NoneDropped(s) && Enabled(s, step)
    ensures NoneDropped(Next(delays, s, step))
  {
    var t := Next(delays, s, step);
    forall k | k in t.generation && !t.stopped ensures Running(t, k) || k in t.retries {
      if step.Enqueue? && k == step.key {
        assert Attempt(k, step.write, t.sequence) in t.inFlight;
      } else if Running(s, k) {
        var a :| a in s.inFlight && a.key == k && Live(s, a);
        assert a in t.inFlight || k in t.retries;
      } else if step.TimerFires? {
        assert Attempt(k, s.retries[k], s.generation[k]) in t.inFlight;
      }
    }
  }

  lemma StepKeepsInv(delays: Delays, s: State, step: Step)
    requires Inv(delays, s) && Enabled(s, step)
    ensures Inv(delays, Next(delays, s, step))
  {
    StepKeepsNumbered(delays, s, step);
    StepKeepsRetries(delays, s, step);
    StepKeepsProgress(delays, s, step);
  }

  lemma {:induction false} RunKeepsInv(delays: Delays, states: seq<State>, steps: seq<Step>, i: nat)
    requires IsRun(delays, states, steps) && i < |states|
    ensures Inv(delays, states[i])
  {
    if i > 0 {
      RunKeepsInv(delays, states, steps, i - 1);
      StepKeepsInv(delays, states[i - 1], steps[i - 1]);
    }
  }

  /**
   * In every reachable state: until it is stopped, each key with a live generation has exactly one
   * of a running write and a pending retry, and its running write is unique; a pending retry always
   * has the timer armed; and the delay stays between the base and the maximum.
   */
  lemma NothingIsLost(delays: Delays, states: seq<State>, steps: seq<Step>, i: nat)
    requires IsRun(delays, states, steps) && i < |states|
    ensures var s := states[i];
            && (!s.stopped ==> forall k :: k in s.generation ==> (Running(s, k) <==> k !in s.retries))
            && (forall a, b :: a in s.inFlight && b in s.inFlight && a.key == b.key && Live(s, a) && Live(s, b) ==>
                  a == b)
            && (s.retries != map[] ==> s.timerArmed && !s.stopped)
            && s.retries.Keys <= s.generation.Keys
            && Min(delays.base, delays.max) <= s.delayMs <= Max(delays.base, delays.max)
  {
    RunKeepsInv(delays, states, steps, i);
  }

  /** The timer restarts every pending retry, under the generation it failed with. */
  lemma TimerRestartsAll(delays: Delays, states: seq<State>, steps: seq<Step>, i: nat, k: Key)
    requires IsRun(delays, states, steps) && i < |steps| && steps[i] == TimerFires && k in states[i].retries
    ensures k in states[i].generation
    ensures Attempt(k, states[i].retries[k], states[i].generation[k]) in StartedBy(states[i], steps[i])
    ensures Running(states[i + 1], k)
  {
    RunKeepsInv(delays, states, steps, i);
    assert Attempt(k, states[i].retries[k], states[i].generation[k]) in states[i + 1].inFlight;
  }

  /** Once a generation is not its key's live one, it never is again. */
  lemma {:induction false} RetiredStaysRetired(
      delays: Delays, states: seq<State>, steps: seq<Step>, i: nat, j: nat, a: Attempt)
    requires IsRun(delays, states, steps) && i <= j < |states|
    requires a.generation <= states[i].sequence && !Live(states[i], a)
    ensures a.generation <= states[j].sequence && !Live(states[j], a)
    decreases j
  {
    if i < j {
      RetiredStaysRetired(delays, states, steps, i, j - 1, a);
      assert states[j] == Next(delays, states[j - 1], steps[j - 1]);
    }
  }

  /** What a step starts is live, and only an enqueue makes a new generation. */
  lemma StartedIsLive(delays: Delays, s: State, step: Step, a: Attempt)
    requires Inv(delays, s) && Enabled(s, step) && a in StartedBy(s, step)
    ensures Live(Next(delays, s, step), a)
    ensures step.TimerFires? ==> Live(s, a) && a.generation <= s.sequence
    ensures step.Enqueue? ==> a.generation == s.sequence + 1
  {
  }

  /**
   * A write superseded by a newer one under its key, cancelled, or landed is never started again:
   * whatever starts under that key later was enqueued later.
   */
  lemma SupersededNeverRestarts(
      delays: Delays, states: seq<State>, steps: seq<Step>, i: nat, j: nat, a: Attempt)
    requires IsRun(delays, states, steps) && i < j < |steps|
    requires match steps[i]
             case Enqueue(k, _) => k == a.key
             case Cancel(k) => k == a.key
             case Succeeds(b) => b.key == a.key && Live(states[i], b)
             case _ => false
    requires a.generation <= states[i].sequence
    ensures a !in StartedBy(states[j], steps[j])
  {
    RunKeepsInv(delays, states, steps, i);
    RunKeepsInv(delays, states, steps, j);
    assert states[i + 1] == Next(delays, states[i], steps[i]);
    RetiredStaysRetired(delays, states, steps, i + 1, j, a);
    if a in StartedBy(states[j], steps[j]) {
      StartedIsLive(delays, states[j], steps[j], a);
      assert false;
    }
  }

  /** `a` is the write that the `m`-th step enqueued. */
  predicate EnqueuedAt(states: seq<State>, steps: seq<Step>, m: nat, a: Attempt)
    requires m < |steps| && m < |states|
  {
    steps[m] == Enqueue(a.key, a.write) && a.generation == states[m].sequence + 1
  }

  /** Every pending retry and every running write holds the closure enqueued under its generation. */
  lemma {:induction false} EveryAttemptWasEnqueued(
      delays: Delays, states: seq<State>, steps: seq<Step>, i: nat, a: Attempt)
    requires IsRun(delays, states, steps) && i < |states|
    requires a in states[i].inFlight
          || (a.key in states[i].retries && states[i].retries[a.key] == a.write && Live(states[i], a))
    ensures exists m :: 0 <= m < i && EnqueuedAt(states, steps, m, a)
  {
    if i > 0 {
      var s, step := states[i - 1], steps[i - 1];
      RunKeepsInv(delays, states, steps, i - 1);
      assert Enabled(s, step) && states[i] == Next(delays, s, step);
      if a in s.inFlight || (a.key in s.retries && s.retries[a.key] == a.write && Live(s, a)) {
        EveryAttemptWasEnqueued(delays, states, steps, i - 1, a);
      } else {
        assert step.Enqueue?;
        assert EnqueuedAt(states, steps, i - 1, a);
      }
    }
  }

  // ---------------------------------------------------------------------------
  // What each callback brings about
  // ---------------------------------------------------------------------------

  /** What the queue holds under `k` and what runs under it are as they were. */
  ghost predicate SameFor(s: State, t: State, k: Key) {
    && (k in s.generation <==> k in t.generation) && (k in s.generation ==> s.generation[k] == t.generation[k])
    && (k in s.retries <==> k in t.retries) && (k in s.retries ==> s.retries[k] == t.retries[k])
    && (k in s.failing <==> k in t.failing)
    && forall a: Attempt :: a.key == k ==> (a in s.inFlight <==> a in t.inFlight)
  }

  /**
   * An enqueued write is running at once, as its key's only live one, with no retry pending, whatever was running
   * or waiting under the key before; the other keys are untouched.
   */
  lemma EnqueueStartsNow(delays: Delays, states: seq<State>, steps: seq<Step>, i: nat, k: Key, w: Write)
    requires IsRun(delays, states, steps) && i < |steps| && steps[i] == Enqueue(k, w)
    ensures var s, t := states[i], states[i + 1];
            var a := Attempt(k, w, s.sequence + 1);
            && a in t.inFlight && a !in s.inFlight && Live(t, a) && k !in t.retries
            && (forall b :: b in t.inFlight && b.key == k && Live(t, b) ==> b == a)
            && (forall b :: b in s.inFlight ==> b in t.inFlight)
            && forall other :: other != k ==> SameFor(s, t, other)
  {
    RunKeepsInv(delays, states, steps, i);
    RunKeepsInv(delays, states, steps, i + 1);
    assert Enabled(states[i], steps[i]) && states[i + 1] == Next(delays, states[i], steps[i]);
  }

  /** A cancelled key is forgotten, though its write runs on; the other keys are untouched. */
  lemma CancelForgets(delays: Delays, states: seq<State>, steps: seq<Step>, i: nat, k: Key)
    requires IsRun(delays, states, steps) && i < |steps| && steps[i] == Cancel(k)
    ensures var s, t := states[i], states[i + 1];
            && k !in t.generation && k !in t.retries && k !in t.failing && t.inFlight == s.inFlight
            && forall other :: other != k ==> SameFor(s, t, other)
  {
    assert Enabled(states[i], steps[i]) && states[i + 1] == Next(delays, states[i], steps[i]);
  }

  /**
   * The outcome of a write that is not its key's live one is ignored. A live one that lands ends its key; one that
   * fails is due again, with the timer armed, until the queue is stopped.
   */
  lemma OutcomesCountWhenLive(delays: Delays, states: seq<State>, steps: seq<Step>, i: nat, a: Attempt)
    requires IsRun(delays, states, steps) && i < |steps| && (steps[i] == Succeeds(a) || steps[i] == Fails(a))
    ensures var s, t := states[i], states[i + 1];
            && t.inFlight == s.inFlight - {a}
            && (!Live(s, a) ==> t == s.(inFlight := s.inFlight - {a}))
            && (Live(s, a) && steps[i].Succeeds? ==>
                  a.key !in t.generation && a.key !in t.retries && a.key !in t.failing)
            && (Live(s, a) && steps[i].Fails? && !s.stopped ==>
                  Live(t, a) && a.key in t.retries && t.retries[a.key] == a.write && a.key in t.failing && t.timerArmed)
            && (Live(s, a) && steps[i].Fails? && s.stopped ==> a.key !in t.generation)
            && forall other :: other != a.key ==> SameFor(s, t, other)
  {
    RunKeepsInv(delays, states, steps, i);
    assert Enabled(states[i], steps[i]) && states[i + 1] == Next(delays, states[i], steps[i]);
    assert Live(states[i], a) ==> Running(states[i], a.key);
  }

  /** Once stopped, the queue retries nothing: only what is enqueued from then on is started. */
  lemma {:induction false} StoppedStaysQuiet(delays: Delays, states: seq<State>, steps: seq<Step>, i: nat, j: nat)
    requires IsRun(delays, states, steps) && i < |steps| && i < j < |states| && steps[i] == Stop
    ensures states[j].stopped && states[j].retries == map[] && !states[j].timerArmed
    ensures j < |steps| ==> steps[j] != TimerFires
    ensures j < |steps| && !steps[j].Enqueue? ==> states[j + 1].inFlight <= states[j].inFlight
    decreases j
  {
    assert Enabled(states[j - 1], steps[j - 1]) && states[j] == Next(delays, states[j - 1], steps[j - 1]);
    RunKeepsInv(delays, states, steps, j);
    if i + 1 < j {
      StoppedStaysQuiet(delays, states, steps, i, j - 1);
    }
    if j < |steps| {
      assert Enabled(states[j], steps[j]) && states[j + 1] == Next(delays, states[j], steps[j]);
    }
  }

  // ---------------------------------------------------------------------------
  // Backing off
  // ---------------------------------------------------------------------------

  /** The `m`-th step is a live write of `k` that fails, before the queue is stopped. */
  predicate FailsAt(states: seq<State>, steps: seq<Step>, m: nat, k: Key)
    requires m < |steps| && m < |states|
  {
    steps[m].Fails? && steps[m].attempt.key == k && Live(states[m], steps[m].attempt) && !states[m].stopped
  }

  /** The `m`-th step cancels `k`, or is a live write of `k` that lands. */
  predicate RecoversAt(states: seq<State>, steps: seq<Step>, m: nat, k: Key)
    requires m < |steps| && m < |states|
  {
    || steps[m] == Cancel(k)
    || (steps[m].Succeeds? && steps[m].attempt.key == k && Live(states[m], steps[m].attempt))
  }

  /** `k` failed at `m` and has not recovered before `i`. */
  predicate FailingSince(states: seq<State>, steps: seq<Step>, m: nat, i: nat, k: Key)
    requires m < i <= |steps| && i < |states|
  {
    FailsAt(states, steps, m, k) && forall n :: m < n < i ==> !RecoversAt(states, steps, n, k)
  }

  /** The failing keys are those with a failure since which they have neither landed nor been cancelled. */
  lemma {:induction false} FailingExactly(delays: Delays, states: seq<State>, steps: seq<Step>, i: nat, k: Key)
    requires IsRun(delays, states, steps) && i < |states|
    ensures k in states[i].failing <==> exists m :: 0 <= m < i && FailingSince(states, steps, m, i, k)
  {
    if i > 0 {
      var s, step := states[i - 1], steps[i - 1];
      assert Enabled(s, step) && states[i] == Next(delays, s, step);
      FailingExactly(delays, states, steps, i - 1, k);
      if FailsAt(states, steps, i - 1, k) {
        assert FailingSince(states, steps, i - 1, i, k);
      } else if k in s.failing && !RecoversAt(states, steps, i - 1, k) {
        var m :| 0 <= m < i - 1 && FailingSince(states, steps, m, i - 1, k);
        assert FailingSince(states, steps, m, i, k);
      } else {
        forall m | 0 <= m < i && FailingSince(states, steps, m, i, k)
          ensures m < i - 1 && FailingSince(states, steps, m, i - 1, k) && !RecoversAt(states, steps, i - 1, k)
        {
        }
      }
    }
  }

  /** The `m`-th step is a live write that lands and leaves no key failing. */
  predicate AllRecoverAt(states: seq<State>, steps: seq<Step>, m: nat)
    requires m < |steps| && m < |states|
  {
    steps[m].Succeeds? && Live(states[m], steps[m].attempt) && states[m].failing <= {steps[m].attempt.key}
  }

  /** How often the timer fires in the steps from `i` up to `j`. */
  function Firings(steps: seq<Step>, i: nat, j: nat): nat
    requires i <= j <= |steps|
    decreases j
  {
    if i == j then 0 else Firings(steps, i, j - 1) + if steps[j - 1] == TimerFires then 1 else 0
  }

  function Doubled(delay: nat, times: nat): nat {
    if times == 0 then delay else 2 * Doubled(delay, times - 1)
  }

  /**
   * The delay doubles each time the timer fires, up to the maximum, and goes back to the base when a write lands
   * that leaves no key failing, and only then.
   */
  lemma {:induction false} BackoffExactly(delays: Delays, states: seq<State>, steps: seq<Step>, i: nat, j: nat)
    requires IsRun(delays, states, steps) && i <= j < |states|
    requires forall m :: i <= m < j ==> !AllRecoverAt(states, steps, m)
    ensures var n := Firings(steps, i, j);
            states[j].delayMs
            == if n == 0 then states[i].delayMs else Min(Doubled(states[i].delayMs, n), delays.max)
    ensures j < |steps| && AllRecoverAt(states, steps, j) ==> states[j + 1].delayMs == delays.base
    decreases j
  {
    if i < j {
      BackoffExactly(delays, states, steps, i, j - 1);
      assert Enabled(states[j - 1], steps[j - 1]) && states[j] == Next(delays, states[j - 1], steps[j - 1]);
      assert !AllRecoverAt(states, steps, j - 1);
    }
    if j < |steps| {
      assert Enabled(states[j], steps[j]) && states[j + 1] == Next(delays, states[j], steps[j]);
    }
  }
}
