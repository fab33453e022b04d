/**
 * The cache of the sidebar file (packages/opencode/src/sidebar-state.ts): a snapshot kept under the
 * stat key the file had before it was read, and reads shared by callers who saw the same key. Each
 * stretch of code between two awaits is one atomic step.
 *
 * The file's contents are numbered by version. Its stat key stands for its version: atomic writes
 * give the file a new inode, so a key does not come back once the file has changed.
 */
module SidebarCache {
  import opened Prelude

  type Version = nat
  type ReadId = nat
  type CallId = nat

  /** A read of the file: the key seen before it began, and when it began. */
  datatype Read = Read(key: Version, readAt: int)

  /** What a finished read left: the version it found, under the key seen before. */
  datatype Cached = Cached(version: Version, readAt: int, key: Version)

  /** A `get`: since which version the caller has looked, and what it waits for or was given. */
  datatype Call =
    | Waiting(since: Version, read: ReadId)
    | Served(since: Version, version: Version, readAt: int)
    | OverBudget(since: Version, previous: Option<Cached>)

  datatype State = State(
    snapshot: Option<Cached>,
    inflight: Option<ReadId>,
    begun: seq<Read>,
    finished: map<ReadId, Version>,
    version: Version,
    clock: int,
    calls: map<CallId, Call>)

  datatype Step =
    | FileChanges
    | Tick(now: int)
    | GetCalled(call: CallId)
    | RefreshInBackground
    // A read finds the file as it was at some moment since it began.
    | ReadFinishes(read: ReadId, found: Version)
    | CallResumes(call: CallId)
    | BudgetRunsOut(call: CallId)

  /** The read in flight for the key, or a new one. */
  function StartedRead(s: State, key: Version): (State, ReadId) {
    if s.inflight.Some? && s.inflight.value < |s.begun| && s.begun[s.inflight.value].key == key
    then (s, s.inflight.value)
    else (s.(inflight := Some(|s.begun|), begun := s.begun + [Read(key, s.clock)]), |s.begun|)
  }

  predicate Hit(s: State, key: Version) {
    s.snapshot.Some? && s.snapshot.value.key == key
  }

  predicate Enabled(s: State, step: Step) {
    match step
    case FileChanges => true
    case Tick(now) => now >= s.clock
    case GetCalled(call) => call !in s.calls
    case RefreshInBackground => true
    case ReadFinishes(r, found) => r < |s.begun| && r !in s.finished && s.begun[r].key <= found <= s.version
    case CallResumes(call) => call in s.calls && s.calls[call].Waiting? && s.calls[call].read in s.finished
    case BudgetRunsOut(call) => call in s.calls && s.calls[call].Waiting?
  }

  function Next(s: State, step: Step): State
    requires Enabled(s, step)
  {
    match step
    case FileChanges => s.(version := s.version + 1)
    case Tick(now) => s.(clock := now)
    case GetCalled(call) =>
      if Hit(s, s.version) then
        s.(calls := s.calls[call := Served(s.version, s.snapshot.value.version, s.snapshot.value.readAt)])
      else
        var (t, r) := StartedRead(s, s.version);
        t.(calls := t.calls[call := Waiting(s.version, r)])
    case RefreshInBackground => if Hit(s, s.version) then s else StartedRead(s, s.version).0
    case ReadFinishes(r, found) => Finished(s, r, found)
    case CallResumes(call) =>
      var c := s.calls[call];
      s.(calls := s.calls[call :=
        Served(c.since, s.finished[c.read], if c.read < |s.begun| then s.begun[c.read].readAt else 0)])
    case BudgetRunsOut(call) =>
      s.(calls := s.calls[call := OverBudget(s.calls[call].since, s.snapshot)])
  }

  /** A finished read replaces the snapshot unless that one was read later. */
  function Finished(s: State, r: ReadId, found: Version): State
    requires r < |s.begun|
  {
    var read := s.begun[r];
    s.(snapshot := if s.snapshot.None? || s.snapshot.value.readAt <= read.readAt
                   then Some(Cached(found, read.readAt, read.key)) else s.snapshot,
       inflight := if s.inflight == Some(r) then None else s.inflight,
       finished := s.finished[r := found])
  }

  // ---------------------------------------------------------------------------
  // The code
  // ---------------------------------------------------------------------------

  class SidebarStateCache {
    var snapshot: Option<Cached>
    var inflight: Option<ReadId>
    /** The reads begun so far, what the finished ones found, and where each `get` stands. */
    var begun: seq<Read>
    var finished: map<ReadId, Version>
    var calls: map<CallId, Call>

    ghost function AsState(version: Version, clock: int): State
      reads this
    {
      State(snapshot, inflight, begun, finished, version, clock, calls)
    }

    constructor ()
      ensures forall version, clock :: AsState(version, clock) == State(None, None, [], map[], version, clock, map[])
    {
      snapshot, inflight, begun, finished, calls := None, None, [], map[], map[];
    }

    method StartRead(key: Version, now: int) returns (r: ReadId)
      modifies this`inflight, this`begun
      ensures forall version :: (AsState(version, now), r) == StartedRead(old(AsState(version, now)), key)
    {
      if inflight.Some? && inflight.value < |begun| && begun[inflight.value].key == key {
        return inflight.value;
      }
      r := |begun|;
      begun := begun + [Read(key, now)];
      inflight := Some(r);
    }

    /** `get` up to its await; `key` is the stat key the file has now. */
    method Get(call: CallId, key: Version, now: int)
      requires call !in calls
      modifies this
      ensures AsState(key, now) == Next(old(AsState(key, now)), GetCalled(call))
    {
      if snapshot.Some? && snapshot.value.key == key {
        calls := calls[call := Served(key, snapshot.value.version, snapshot.value.readAt)];
        return;
      }
      var r := StartRead(key, now);
      assert (AsState(key, now), r) == StartedRead(old(AsState(key, now)), key);
      calls := calls[call := Waiting(key, r)];
    }

    method BackgroundRefresh(key: Version, now: int)
      modifies this
      ensures AsState(key, now) == Next(old(AsState(key, now)), RefreshInBackground)
    {
      if snapshot.Some? && snapshot.value.key == key { return; }
      var r := StartRead(key, now);
      assert (AsState(key, now), r) == StartedRead(old(AsState(key, now)), key);
    }

    /** The read found the file as it was at `found`. */
    method FinishRead(r: ReadId, found: Version, version: Version, now: int)
      requires Enabled(AsState(version, now), ReadFinishes(r, found))
      modifies this
      ensures AsState(version, now) == Next(old(AsState(version, now)), ReadFinishes(r, found))
    {
      var readAt := begun[r].readAt;
      if snapshot.None? || snapshot.value.readAt <= readAt {
        snapshot := Some(Cached(found, readAt, begun[r].key));
      }
      if inflight == Some(r) {
        inflight := None;
      }
      finished := finished[r := found];
    }

    /** The read settled within the budget: its own result is returned, not the snapshot kept since. */
    method ServeRead(call: CallId, version: Version, now: int)
      requires Enabled(AsState(version, now), CallResumes(call))
      modifies this`calls
      ensures AsState(version, now) == Next(old(AsState(version, now)), CallResumes(call))
    {
      var c := calls[call];
      var readAt := if c.read < |begun| then begun[c.read].readAt else 0;
      calls := calls[call := Served(c.since, finished[c.read], readAt)];
    }

    /** The budget ran out: the previous snapshot is served, if there is one. */
    method ServePrevious(call: CallId, version: Version, now: int)
      requires Enabled(AsState(version, now), BudgetRunsOut(call))
      modifies this`calls
      ensures AsState(version, now) == Next(old(AsState(version, now)), BudgetRunsOut(call))
    {
      calls := calls[call := OverBudget(calls[call].since, snapshot)];
    }
  }

  // ---------------------------------------------------------------------------
  // Every interleaving
  // ---------------------------------------------------------------------------

  predicate IsRun(states: seq<State>, steps: seq<Step>) {
    && |states| == |steps| + 1
    && states[0] == State(None, None, [], map[], states[0].version, states[0].clock, map[])
    && forall i :: 0 <= i < |steps| ==> Enabled(states[i], steps[i]) && states[i + 1] == Next(states[i], steps[i])
  }

  /** A read finds the version its key stood for, or a later one. */
  predicate ReadsSound(s: State) {
    && (forall r :: 0 <= r < |s.begun| ==> s.begun[r].key <= s.version && s.begun[r].readAt <= s.clock)
    && (forall r :: r in s.finished ==> r < |s.begun| && s.begun[r].key <= s.finished[r] <= s.version)
    && (s.inflight.Some? ==> s.inflight.value < |s.begun| && s.inflight.value !in s.finished)
  }

  predicate SnapshotSound(s: State) {
    s.snapshot.Some? ==>
      s.snapshot.value.key <= s.snapshot.value.version <= s.version && s.snapshot.value.readAt <= s.clock
  }

  predicate CallSound(s: State, c: Call) {
    c.since <= s.version
    && match c
       case Waiting(since, r) => r < |s.begun| && s.begun[r].key == since
       case Served(since, version, readAt) => since <= version <= s.version && readAt <= s.clock
       case OverBudget(_, _) => true
  }

  predicate Inv(s: State) {
    ReadsSound(s) && SnapshotSound(s) && forall c :: c in s.calls ==> CallSound(s, s.calls[c])
  }

  lemma StepKeepsReads(s: State, step: Step)
    requires Inv(s) && Enabled(s, step)
    ensures ReadsSound(Next(s, step)) && SnapshotSound(Next(s, step))
  {
  }

  lemma StepKeepsInv(s: State, step: Step)
    requires Inv(s) && Enabled(s, step)
    ensures Inv(Next(s, step))
  {
    StepKeepsReads(s, step);
    var t := Next(s, step);
    forall c | c in t.calls ensures CallSound(t, t.calls[c]) {
      if c in s.calls {
        assert CallSound(s, s.calls[c]);
      }
    }
  }

  lemma {:induction false} RunKeepsInv(states: seq<State>, steps: seq<Step>, i: nat)
    requires IsRun(states, steps) && i < |states|
    ensures Inv(states[i])
  {
    if i > 0 {
      RunKeepsInv(states, steps, i - 1);
      StepKeepsInv(states[i - 1], steps[i - 1]);
    }
  }

  /** A call remembers the version the file had when it looked. */
  lemma {:induction false} CallRemembersItsVersion(states: seq<State>, steps: seq<Step>, k: nat, i: nat, call: CallId)
    requires IsRun(states, steps) && k < |steps| && k < i < |states| && steps[k] == GetCalled(call)
    ensures call in states[i].calls && states[i].calls[call].since == states[k].version
    decreases i
  {
    if i > k + 1 {
      CallRemembersItsVersion(states, steps, k, i - 1, call);
      assert Enabled(states[i - 1], steps[i - 1]) && states[i] == Next(states[i - 1], steps[i - 1]);
    } else {
      assert Enabled(states[k], steps[k]) && states[k + 1] == Next(states[k], steps[k]);
    }
  }

  /**
   * Whoever gets an answer within the budget gets the file as it was when they looked or newer, though
   * they may have joined a read another caller began; and an answer without a read is the file as it is.
   */
  lemma GetIsFresh(states: seq<State>, steps: seq<Step>, k: nat, i: nat, call: CallId)
    requires IsRun(states, steps) && k < |steps| && k < i < |states| && steps[k] == GetCalled(call)
    ensures call in states[i].calls
    ensures var c := states[i].calls[call];
            && (c.Served? ==> states[k].version <= c.version <= states[i].version)
            && (i == k + 1 && c.Served? ==> c.version == states[k].version)
  {
    RunKeepsInv(states, steps, i);
    RunKeepsInv(states, steps, k);
    CallRemembersItsVersion(states, steps, k, i, call);
    assert CallSound(states[i], states[i].calls[call]);
    assert Enabled(states[k], steps[k]) && states[k + 1] == Next(states[k], steps[k]);
  }

  /** The snapshot served past the budget is one that was kept, and the kept one never goes back in time. */
  lemma {:induction false} SnapshotNeverGoesBack(states: seq<State>, steps: seq<Step>, i: nat, j: nat)
    requires IsRun(states, steps) && i <= j < |states| && states[i].snapshot.Some?
    ensures states[j].snapshot.Some? && states[i].snapshot.value.readAt <= states[j].snapshot.value.readAt
    decreases j
  {
    if i < j {
      SnapshotNeverGoesBack(states, steps, i, j - 1);
      assert Enabled(states[j - 1], steps[j - 1]) && states[j] == Next(states[j - 1], steps[j - 1]);
    }
  }

  // ---------------------------------------------------------------------------
  // What a read time says
  // ---------------------------------------------------------------------------

  /** Some read began at `readAt`, when the file was at `version` or before it. */
  ghost predicate FromRead(s: State, readAt: int, version: Version) {
    exists r :: 0 <= r < |s.begun| && s.begun[r].readAt == readAt && s.begun[r].key <= version
  }

  ghost predicate CachedFromRead(s: State, c: Option<Cached>) {
    c.Some? ==> FromRead(s, c.value.readAt, c.value.version)
  }

  ghost predicate CallFromRead(s: State, c: Call) {
    match c
    case Waiting(_, _) => true
    case Served(_, version, readAt) => FromRead(s, readAt, version)
    case OverBudget(_, previous) => CachedFromRead(s, previous)
  }

  ghost predicate AllFromReads(s: State) {
    CachedFromRead(s, s.snapshot) && forall c :: c in s.calls ==> CallFromRead(s, s.calls[c])
  }

  /** A step goes on in time, and a read it begins is of the file as it is now. */
  lemma StepGrows(s: State, step: Step)
    requires Enabled(s, step)
    ensures var t := Next(s, step);
            && s.version <= t.version && s.clock <= t.clock
            && (t.begun == s.begun || t.begun == s.begun + [Read(s.version, s.clock)])
  {
  }

  lemma FromReadStays(s: State, t: State, readAt: int, version: Version)
    requires s.begun <= t.begun && FromRead(s, readAt, version)
    ensures FromRead(t, readAt, version)
  {
    var r :| 0 <= r < |s.begun| && s.begun[r].readAt == readAt && s.begun[r].key <= version;
    assert t.begun[r] == s.begun[r];
  }

  lemma CachedStays(s: State, t: State, c: Option<Cached>)
    requires s.begun <= t.begun && CachedFromRead(s, c)
    ensures CachedFromRead(t, c)
  {
    if c.Some? {
      FromReadStays(s, t, c.value.readAt, c.value.version);
    }
  }

  lemma CallStays(s: State, t: State, c: Call)
    requires s.begun <= t.begun && CallFromRead(s, c)
    ensures CallFromRead(t, c)
  {
    match c
    case Waiting(_, _) =>
    case Served(_, version, readAt) => FromReadStays(s, t, readAt, version);
    case OverBudget(_, previous) => CachedStays(s, t, previous);
  }

  /** The answer a step gives is from a read, when it gives one. */
  lemma AnswerFromRead(s: State, step: Step, call: CallId)
    requires Inv(s) && AllFromReads(s) && Enabled(s, step)
    requires step == GetCalled(call) || step == CallResumes(call) || step == BudgetRunsOut(call)
    ensures call in Next(s, step).calls && CallFromRead(s, Next(s, step).calls[call])
  {
    if step.CallResumes? {
      var r := s.calls[call].read;
      assert CallSound(s, s.calls[call]) && s.begun[r].key <= s.finished[r];
    }
  }

  lemma StepKeepsFromReads(s: State, step: Step)
    requires Inv(s) && AllFromReads(s) && Enabled(s, step)
    ensures AllFromReads(Next(s, step))
  {
    var t := Next(s, step);
    StepGrows(s, step);
    CachedStays(s, t, s.snapshot);
    if step.ReadFinishes? {
      assert t.begun[step.read].key <= step.found;
    }
    forall c | c in t.calls ensures CallFromRead(t, t.calls[c]) {
      if step == GetCalled(c) || step == CallResumes(c) || step == BudgetRunsOut(c) {
        AnswerFromRead(s, step, c);
      } else {
        assert t.calls[c] == s.calls[c] && CallFromRead(s, s.calls[c]);
      }
      CallStays(s, t, t.calls[c]);
    }
  }

  lemma {:induction false} RunKeepsFromReads(states: seq<State>, steps: seq<Step>, i: nat)
    requires IsRun(states, steps) && i < |states|
    ensures Inv(states[i]) && AllFromReads(states[i])
  {
    RunKeepsInv(states, steps, i);
    if i > 0 {
      RunKeepsFromReads(states, steps, i - 1);
      assert Enabled(states[i - 1], steps[i - 1]);
      StepKeepsFromReads(states[i - 1], steps[i - 1]);
    }
  }

  /** A read that began after a moment began with a key no older than the file was at that moment. */
  lemma {:induction false} ReadSeesEarlier(states: seq<State>, steps: seq<Step>, j: nat, i: nat, r: nat)
    requires IsRun(states, steps) && j <= i < |states| && r < |states[i].begun|
    requires states[j].clock < states[i].begun[r].readAt
    ensures states[j].version <= states[i].begun[r].key
    decreases i
  {
    RunKeepsInv(states, steps, i);
    if j < i {
      var s := states[i - 1];
      assert Enabled(s, steps[i - 1]) && states[i] == Next(s, steps[i - 1]);
      StepGrows(s, steps[i - 1]);
      if r < |s.begun| {
        ReadSeesEarlier(states, steps, j, i - 1, r);
      } else {
        VersionGrows(states, steps, j, i - 1);
      }
    }
  }

  lemma {:induction false} VersionGrows(states: seq<State>, steps: seq<Step>, j: nat, i: nat)
    requires IsRun(states, steps) && j <= i < |states|
    ensures states[j].version <= states[i].version && states[j].clock <= states[i].clock
    decreases i
  {
    if j < i {
      VersionGrows(states, steps, j, i - 1);
      assert Enabled(states[i - 1], steps[i - 1]) && states[i] == Next(states[i - 1], steps[i - 1]);
    }
  }

  lemma FromReadSeesEarlier(
      states: seq<State>, steps: seq<Step>, j: nat, i: nat, readAt: int, version: Version)
    requires IsRun(states, steps) && j <= i < |states| && FromRead(states[i], readAt, version)
    requires states[j].clock < readAt
    ensures states[j].version <= version
  {
    var s := states[i];
    var r :| 0 <= r < |s.begun| && s.begun[r].readAt == readAt && s.begun[r].key <= version;
    ReadSeesEarlier(states, steps, j, i, r);
  }

  /**
   * What the overlay relies on when it drops a pin: in every run, whatever the file held at a moment before the
   * read time of an answer is in that answer. So for a caller served within the budget, for the snapshot that is
   * kept, and for the one served past the budget.
   */
  lemma ReadTimeIsSafe(states: seq<State>, steps: seq<Step>, j: nat, i: nat, call: CallId)
    requires IsRun(states, steps) && j <= i < |states|
    ensures call in states[i].calls && states[i].calls[call].Served? ==>
      states[j].clock < states[i].calls[call].readAt ==> states[j].version <= states[i].calls[call].version
    ensures call in states[i].calls && states[i].calls[call].OverBudget? ==>
      var previous := states[i].calls[call].previous;
      previous.Some? && states[j].clock < previous.value.readAt ==> states[j].version <= previous.value.version
    ensures var kept := states[i].snapshot;
      kept.Some? && states[j].clock < kept.value.readAt ==> states[j].version <= kept.value.version
  {
    RunKeepsFromReads(states, steps, i);
    forall readAt, version | FromRead(states[i], readAt, version) && states[j].clock < readAt
      ensures states[j].version <= version
    {
      FromReadSeesEarlier(states, steps, j, i, readAt, version);
    }
    assert call in states[i].calls ==> CallFromRead(states[i], states[i].calls[call]);
  }

  /** `c` waits for the read `r`, was given what it found, or ran out of budget. */
  predicate Follows(s: State, c: Call, since: Version, r: ReadId) {
    && r < |s.begun| && s.begun[r].key == since
    && match c
       case Waiting(_, q) => q == r
       case Served(_, version, readAt) =>
         r in s.finished && version == s.finished[r] && readAt == s.begun[r].readAt
       case OverBudget(_, _) => true
  }

  lemma StepFollows(s: State, step: Step, call: CallId, since: Version, r: ReadId)
    requires Inv(s) && Enabled(s, step) && call in s.calls && Follows(s, s.calls[call], since, r)
    ensures call in Next(s, step).calls && Follows(Next(s, step), Next(s, step).calls[call], since, r)
  {
  }

  lemma {:induction false} RunFollows(states: seq<State>, steps: seq<Step>, k: nat, i: nat, call: CallId)
    requires IsRun(states, steps) && k < i < |states| && call in states[k + 1].calls
    requires var c := states[k + 1].calls[call]; c.Waiting? && Follows(states[k + 1], c, c.since, c.read)
    ensures var c := states[k + 1].calls[call];
            call in states[i].calls && Follows(states[i], states[i].calls[call], c.since, c.read)
    decreases i
  {
    if k + 1 < i {
      RunFollows(states, steps, k, i - 1, call);
      RunKeepsInv(states, steps, i - 1);
      assert Enabled(states[i - 1], steps[i - 1]);
      var c := states[k + 1].calls[call];
      StepFollows(states[i - 1], steps[i - 1], call, c.since, c.read);
    }
  }

  /** An answer that was given stays. */
  lemma {:induction false} AnswerStays(states: seq<State>, steps: seq<Step>, k: nat, i: nat, call: CallId)
    requires IsRun(states, steps) && k <= i < |states|
    requires call in states[k].calls && !states[k].calls[call].Waiting?
    ensures call in states[i].calls && states[i].calls[call] == states[k].calls[call]
    decreases i
  {
    if k < i {
      AnswerStays(states, steps, k, i - 1, call);
      assert Enabled(states[i - 1], steps[i - 1]) && states[i] == Next(states[i - 1], steps[i - 1]);
    }
  }

  /**
   * Each answer is the one promised when the caller looked: an unchanged file gives the kept snapshot at once;
   * otherwise the caller has a read under the key it saw, and within the budget is given what that very read
   * found, with the time at which it began.
   */
  lemma CallFollowsItsRead(states: seq<State>, steps: seq<Step>, k: nat, i: nat, call: CallId)
    requires IsRun(states, steps) && k < |steps| && k < i < |states| && steps[k] == GetCalled(call)
    ensures call in states[k + 1].calls && call in states[i].calls
    ensures var kept, now := states[k].snapshot, states[i].calls[call];
            if kept.Some? && kept.value.key == states[k].version then
              now == Served(states[k].version, kept.value.version, kept.value.readAt)
            else
              && states[k + 1].calls[call].Waiting?
              && Follows(states[i], now, states[k].version, states[k + 1].calls[call].read)
  {
    RunKeepsInv(states, steps, k + 1);
    assert Enabled(states[k], steps[k]) && states[k + 1] == Next(states[k], steps[k]);
    assert CallSound(states[k + 1], states[k + 1].calls[call]);
    if states[k + 1].calls[call].Waiting? {
      RunFollows(states, steps, k, i, call);
    } else {
      AnswerStays(states, steps, k + 1, i, call);
    }
  }

  /** Past the budget the caller has, for good, the snapshot that was kept at that moment. */
  lemma OverBudgetGivesKept(states: seq<State>, steps: seq<Step>, k: nat, i: nat, call: CallId)
    requires IsRun(states, steps) && k < |steps| && k < i < |states| && steps[k] == BudgetRunsOut(call)
    ensures call in states[i].calls
    ensures states[i].calls[call].OverBudget? && states[i].calls[call].previous == states[k].snapshot
  {
    assert Enabled(states[k], steps[k]) && states[k + 1] == Next(states[k], steps[k]);
    AnswerStays(states, steps, k + 1, i, call);
  }

  // ---------------------------------------------------------------------------
  // Which reads are begun and kept
  // ---------------------------------------------------------------------------

  /** The snapshot is what one finished read left. */
  ghost predicate IsKept(s: State, c: Cached) {
    exists r :: r in s.finished && r < |s.begun| && c == Cached(s.finished[r], s.begun[r].readAt, s.begun[r].key)
  }

  ghost predicate KeepsNewest(s: State) {
    && (s.snapshot.Some? ==> IsKept(s, s.snapshot.value))
    && (forall r :: r in s.finished ==>
          r < |s.begun| && s.snapshot.Some? && s.begun[r].readAt <= s.snapshot.value.readAt)
  }

  /** A read begun after one that is still running has a newer key; and the slot holds the last read until it ends. */
  predicate SlotSound(s: State) {
    && (forall q, r :: 0 <= q < r < |s.begun| && q !in s.finished ==> s.begun[q].key < s.begun[r].key)
    && (s.inflight.Some? ==> s.inflight.value == |s.begun| - 1)
    && (s.begun != [] && |s.begun| - 1 !in s.finished ==> s.inflight == Some(|s.begun| - 1))
  }

  lemma StepKeepsNewest(s: State, step: Step)
    requires Inv(s) && KeepsNewest(s) && Enabled(s, step)
    ensures KeepsNewest(Next(s, step))
  {
    var t := Next(s, step);
    StepGrows(s, step);
    if step.ReadFinishes? && (s.snapshot.None? || s.snapshot.value.readAt <= s.begun[step.read].readAt) {
      assert step.read in t.finished;
    } else if s.snapshot.Some? {
      var r :| r in s.finished && r < |s.begun|
        && s.snapshot.value == Cached(s.finished[r], s.begun[r].readAt, s.begun[r].key);
      assert r in t.finished && t.begun[r] == s.begun[r];
    }
  }

  lemma StartKeepsSlot(s: State)
    requires Inv(s) && SlotSound(s)
    ensures SlotSound(StartedRead(s, s.version).0)
  {
    var t := StartedRead(s, s.version).0;
    if t != s {
      forall q | 0 <= q < |s.begun| && q !in s.finished ensures s.begun[q].key < s.version {
        assert q < |s.begun| - 1 ==> s.begun[q].key < s.begun[|s.begun| - 1].key;
      }
    }
  }

  lemma FinishKeepsSlot(s: State, r: ReadId, found: Version)
    requires Inv(s) && SlotSound(s) && r < |s.begun| && r !in s.finished
    ensures SlotSound(Finished(s, r, found))
  {
  }

  lemma StepKeepsSlot(s: State, step: Step)
    requires Inv(s) && SlotSound(s) && Enabled(s, step)
    ensures SlotSound(Next(s, step))
  {
    StartKeepsSlot(s);
    if step.ReadFinishes? {
      FinishKeepsSlot(s, step.read, step.found);
    }
  }

  lemma {:induction false} RunKeepsSlot(states: seq<State>, steps: seq<Step>, i: nat)
    requires IsRun(states, steps) && i < |states|
    ensures Inv(states[i]) && KeepsNewest(states[i]) && SlotSound(states[i])
  {
    RunKeepsInv(states, steps, i);
    if i > 0 {
      RunKeepsSlot(states, steps, i - 1);
      assert Enabled(states[i - 1], steps[i - 1]);
      StepKeepsNewest(states[i - 1], steps[i - 1]);
      StepKeepsSlot(states[i - 1], steps[i - 1]);
    }
  }

  /**
   * Callers who saw the same key share one read: no two reads under a key are ever running at once. And once any
   * read has finished a snapshot is kept, that of a finished read none of the others began after.
   */
  lemma ReadsAreShared(states: seq<State>, steps: seq<Step>, i: nat, q: nat, r: nat)
    requires IsRun(states, steps) && i < |states| && q < r < |states[i].begun|
    ensures var s := states[i];
            && (q !in s.finished && r !in s.finished ==> s.begun[q].key != s.begun[r].key)
            && (r in s.finished ==> s.snapshot.Some? && s.begun[r].readAt <= s.snapshot.value.readAt)
            && (s.snapshot.Some? ==> IsKept(s, s.snapshot.value))
  {
    RunKeepsSlot(states, steps, i);
  }

  /** After a background refresh, a read of the file as it is now is running, or the kept snapshot is of it. */
  lemma RefreshReadsTheFile(states: seq<State>, steps: seq<Step>, k: nat)
    requires IsRun(states, steps) && k < |steps| && steps[k] == RefreshInBackground
    ensures var t := states[k + 1];
            || (t.snapshot.Some? && t.snapshot.value.version == states[k].version)
            || exists r :: 0 <= r < |t.begun| && r !in t.finished && t.begun[r].key == states[k].version
  {
    var s, t := states[k], states[k + 1];
    RunKeepsInv(states, steps, k);
    assert Enabled(s, steps[k]) && t == Next(s, steps[k]);
    if !Hit(s, s.version) {
      var r := StartedRead(s, s.version).1;
      assert r < |t.begun| && r !in t.finished && t.begun[r].key == s.version;
    }
  }
}
