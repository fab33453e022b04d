/**
 * Whether a process reads its own pins back: one session's pin through the overlay, the background
 * write and its retries, and snapshots of the file of any age
 * (packages/opencode/src/index.ts and packages/opencode/src/sidebar-state.ts).
 */
module PinVisibility {
  import opened Prelude
  import opened StickyPins
  import opened PinOverlay

  /** An attempt to write a pin, waiting on the process's write chain. */
  datatype Write = Write(pin: Pin, id: nat, valid: set<string>)

  /** The pin this process last decided for the session, and when its write was seen to have landed. */
  datatype Placed = Placed(pin: Pin, id: nat, valid: set<string>, stamp: Option<int>)

  /** A read of the file under way: when it began, and what the file has held since. */
  datatype Reading = Reading(readAt: int, seen: set<Sidebar>)

  datatype State = State(
    clock: int,
    disk: Sidebar,
    overlay: Overlay,
    nextId: nat,
    writes: seq<Write>,
    landed: set<nat>,
    reading: set<Reading>,
    snapshots: set<Snapshot>,
    used: int,
    placed: Option<Placed>)

  datatype Step =
    | Tick(now: int)
    | OthersWrite(disk: Sidebar)
    | BeginRead
    | FinishRead(reading: Reading, state: Sidebar)
    | Consult(snapshot: Snapshot, input: Input, persist: bool)
    | Retry
    | Land(reported: bool)
    | Fail
    | Stamp(id: nat)

  function OnDisk(s: State, session: string): Option<Pin> { PinOf(s.disk.pins, session) }

  /**
   * What the surroundings may do: time does not go back, nobody else writes or prunes this session's
   * pin, fewer than 257 sessions are remembered, and one attempt at a time is under way for a pin.
   */
  predicate Enabled(session: string, s: State, step: Step) {
    match step
    case Tick(now) => now >= s.clock
    case OthersWrite(disk) => PinOf(disk.pins, session) == OnDisk(s, session) && |Held(disk.pins)| <= MAX_ENTRIES
    case BeginRead => true
    case FinishRead(reading, state) => reading in s.reading && state in reading.seen
    case Consult(snapshot, input, persist) =>
      && snapshot in s.snapshots && input.now == s.clock
      && |s.overlay.Keys + {input.session}| <= MAX_ENTRIES
    case Retry =>
      && s.placed.Some? && s.placed.value.stamp.None? && s.placed.value.id !in s.landed
      && forall i :: 0 <= i < |s.writes| ==> s.writes[i].id != s.placed.value.id
    case Land(_) => s.writes != []
    case Fail => s.writes != []
    case Stamp(id) => id in s.landed
  }

  ghost function Decide(s: State, snapshot: Snapshot, input: Input): Plan {
    PlanFromSnapshot(Applied(snapshot, s.overlay), input)
  }

  /** Applying the overlay drops what the snapshot already shows. */
  function Looked(s: State, snapshot: Snapshot): State {
    s.(overlay := Ahead(s.overlay, snapshot.readAt), used := Max(s.used, snapshot.readAt))
  }

  /** A pin is remembered, and the write of this session's own starts. */
  ghost function Recorded(session: string, s: State, target: string, pin: Pin, valid: set<string>): State {
    var remembered := s.(overlay := Remembered(s.overlay, target, pin, s.nextId), nextId := s.nextId + 1);
    if target != session then remembered
    else remembered.(writes := s.writes + [Write(pin, s.nextId, valid)],
                     placed := Some(Placed(pin, s.nextId, valid, None)))
  }

  ghost function Consulted(session: string, s: State, snapshot: Snapshot, input: Input, persist: bool): State {
    var plan := Decide(s, snapshot, input);
    if !persist || plan.assignment.None? || plan.next.None? then Looked(s, snapshot)
    else Recorded(session, Looked(s, snapshot), input.session, plan.assignment.value, input.valid)
  }

  /** The file changed under the reads: each may find what it held before or what it holds now. */
  function Seeing(reading: set<Reading>, disk: Sidebar): set<Reading> {
    set r | r in reading :: Reading(r.readAt, r.seen + {disk})
  }

  ghost function Landing(session: string, s: State, reported: bool): State
    requires s.writes != []
  {
    var w := s.writes[0];
    s.(disk := AfterPersist(s.disk, session, w.pin, w.valid, s.clock),
       reading := Seeing(s.reading, AfterPersist(s.disk, session, w.pin, w.valid, s.clock)),
       writes := s.writes[1..],
       landed := if reported then s.landed + {w.id} else s.landed)
  }

  function Stamped(session: string, s: State, id: nat): State {
    s.(landed := s.landed - {id},
       overlay := if session in s.overlay && s.overlay[session].id == id
                  then s.overlay[session := s.overlay[session].(persistedAt := Some(s.clock))] else s.overlay,
       placed := if s.placed.Some? && s.placed.value.id == id
                 then Some(s.placed.value.(stamp := Some(s.clock))) else s.placed)
  }

  ghost function Next(session: string, s: State, step: Step): State
    requires Enabled(session, s, step)
  {
    match step
    case Tick(now) => s.(clock := now)
    case OthersWrite(disk) => s.(disk := disk, reading := Seeing(s.reading, disk))
    case BeginRead => s.(reading := s.reading + {Reading(s.clock, {s.disk})})
    case FinishRead(reading, state) =>
      s.(reading := s.reading - {reading}, snapshots := s.snapshots + {Snapshot(state, reading.readAt)})
    case Consult(snapshot, input, persist) => Consulted(session, s, snapshot, input, persist)
    case Retry =>
      var p := s.placed.value;
      s.(writes := s.writes + [Write(p.pin, p.id, p.valid)])
    case Land(reported) => Landing(session, s, reported)
    case Fail => s.(writes := s.writes[1..])
    case Stamp(id) => Stamped(session, s, id)
  }

  /** The state before this process placed the session: any file, and the default snapshot, read at 0. */
  ghost predicate Init(session: string, s: State) {
    && s.clock >= 0 && s.overlay == map[] && s.writes == [] && s.landed == {} && s.reading == {}
    && s.placed.None? && |Held(s.disk.pins)| <= MAX_ENTRIES
    && s.snapshots == {Snapshot(Sidebar(None, 0), 0)}
    && (OnDisk(s, session).Some? ==> OnDisk(s, session).value.assignedAt <= s.clock)
  }

  // ---------------------------------------------------------------------------
  // The invariant
  // ---------------------------------------------------------------------------

  /** `q` is the placement of `p`, with its metadata or newer. */
  predicate Shows(q: Option<Pin>, p: Pin) {
    && q.Some? && q.value.accountId == p.accountId && q.value.assignedAt == p.assignedAt
    && q.value.wireAccountId == p.wireAccountId && q.value.quotaCheckedAt == p.quotaCheckedAt
    && q.value.lastSeenAt >= p.lastSeenAt && q.value.inputBytes >= p.inputBytes
  }

  predicate NotAfter(q: Option<Pin>, time: int) {
    q.Some? ==> q.value.assignedAt <= time
  }

  ghost predicate Untouched(session: string, s: State) {
    && session !in s.overlay && s.writes == []
    && NotAfter(OnDisk(s, session), s.clock)
    && (forall n :: n in s.snapshots ==>
          PinOf(n.state.pins, session).None? || PinOf(n.state.pins, session) == OnDisk(s, session))
    && forall r, state :: r in s.reading && state in r.seen ==> PinOf(state.pins, session) == OnDisk(s, session)
  }

  /** The writes still waiting are of this pin or earlier ones, in the order they were decided. */
  ghost predicate Queued(writes: seq<Write>, p: Placed) {
    && (forall i :: 0 <= i < |writes| ==>
          writes[i].id <= p.id && writes[i].pin.assignedAt <= p.pin.assignedAt
          && (writes[i].id == p.id ==> writes[i].pin == p.pin))
    && forall i, j :: 0 <= i < j < |writes| ==> writes[i].id < writes[j].id
  }

  /** Once the write is known to have landed, the file shows the pin, and so does every later snapshot. */
  ghost predicate Persisted(session: string, s: State, p: Placed) {
    && (p.id in s.landed || p.stamp.Some? ==> s.writes == [] && Shows(OnDisk(s, session), p.pin))
    && (p.stamp.Some? ==> p.id !in s.landed)
    && (p.stamp.Some? ==> forall n :: n in s.snapshots && n.readAt > p.stamp.value ==>
          Shows(PinOf(n.state.pins, session), p.pin))
    && (p.stamp.Some? ==> ReadsShow(session, s.reading, p.stamp.value, p.pin))
  }

  /** Whatever a read begun after `time` may find shows the pin. */
  ghost predicate ReadsShow(session: string, reading: set<Reading>, time: int, pin: Pin) {
    forall r, state :: r in reading && r.readAt > time && state in r.seen ==> Shows(PinOf(state.pins, session), pin)
  }

  /** The pin is in the overlay, or a snapshot that shows it has been used. */
  ghost predicate Covered(session: string, s: State, p: Placed) {
    if session in s.overlay then s.overlay[session] == Entry(p.pin, p.id, p.stamp)
    else p.stamp.Some? && s.used > p.stamp.value
  }

  ghost predicate Holds(session: string, s: State, p: Placed) {
    && p.id < s.nextId && p.pin.assignedAt <= s.clock
    && NotAfter(OnDisk(s, session), p.pin.assignedAt)
    && Queued(s.writes, p) && Persisted(session, s, p) && Covered(session, s, p)
  }

  ghost predicate Inv(session: string, s: State) {
    && WellFormed(s.overlay, s.nextId) && |Held(s.disk.pins)| <= MAX_ENTRIES
    && (forall id :: id in s.landed ==> id < s.nextId)
    && (forall r :: r in s.reading ==> r.readAt <= s.clock)
    && (forall n :: n in s.snapshots ==> n.readAt <= s.clock)
    && if s.placed.None? then Untouched(session, s) else Holds(session, s, s.placed.value)
  }

  /**
   * Once the session is placed, its placements use snapshots no older than any that was used before, or
   * find the pin still in the overlay.
   */
  predicate InOrder(session: string, s: State, step: Step) {
    step.Consult? && step.input.session == session ==>
      step.snapshot.readAt >= s.used || session in s.overlay || s.placed.None?
  }

  // ---------------------------------------------------------------------------
  // Every step keeps it
  // ---------------------------------------------------------------------------

  /** The pin a placement sees. */
  function Seen(s: State, snapshot: Snapshot, session: string): Option<Pin> {
    PinOf(Applied(snapshot, s.overlay).pins, session)
  }

  lemma SeenInOrder(session: string, s: State, snapshot: Snapshot)
    requires Inv(session, s) && s.placed.Some? && snapshot in s.snapshots
    requires snapshot.readAt >= s.used || session in s.overlay
    ensures Shows(Seen(s, snapshot, session), s.placed.value.pin)
  {
    AppliedPin(snapshot, s.overlay, session);
  }

  lemma DecidedPin(s: State, snapshot: Snapshot, input: Input)
    ensures var q := Seen(s, snapshot, input.session);
            var a := Decide(s, snapshot, input).assignment;
            && (q.Some? && MayKeep(q.value, input) ==> a == Some(Kept(q.value, input)))
            && (a.Some? && !(q.Some? && MayKeep(q.value, input)) ==> a.value.assignedAt == input.now)
  {
    var state := Applied(snapshot, s.overlay);
    FastPathRefines(state, input);
    PruneShrinks(state.pins, input.valid, input.now);
    var q := PinOf(state.pins, input.session);
    if q.Some? && MayKeep(q.value, input) {
      assert Keeps(q.value, input.valid, input.now);
    }
  }

  /** A decided pin was placed no earlier than the one on disk, nor than the one decided before. */
  lemma DecidedInTime(session: string, s: State, snapshot: Snapshot, input: Input)
    requires Inv(session, s) && Enabled(session, s, Consult(snapshot, input, true)) && input.session == session
    requires snapshot.readAt >= s.used || session in s.overlay || s.placed.None?
    requires Decide(s, snapshot, input).assignment.Some?
    ensures var a := Decide(s, snapshot, input).assignment.value;
            InTime(session, s, a)
  {
    DecidedPin(s, snapshot, input);
    AppliedPin(snapshot, s.overlay, session);
    if s.placed.Some? {
      SeenInOrder(session, s, snapshot);
    }
  }

  lemma LookingKeepsInv(session: string, s: State, snapshot: Snapshot)
    requires Inv(session, s)
    ensures Inv(session, Looked(s, snapshot))
  {
    AheadValid(s.overlay, s.nextId, snapshot.readAt);
  }

  /** The pin may be recorded: it was not placed before anything this session has. */
  ghost predicate InTime(session: string, s: State, pin: Pin) {
    && pin.assignedAt <= s.clock && NotAfter(OnDisk(s, session), pin.assignedAt)
    && (s.placed.Some? ==> s.placed.value.pin.assignedAt <= pin.assignedAt)
  }

  lemma RecordingKeepsInv(session: string, s: State, target: string, pin: Pin, valid: set<string>)
    requires Inv(session, s) && |s.overlay.Keys + {target}| <= MAX_ENTRIES
    requires target == session ==> InTime(session, s, pin)
    ensures Inv(session, Recorded(session, s, target, pin, valid))
  {
    RememberedHasIt(s.overlay, target, pin, s.nextId);
    if target == session {
      QueuedOneMore(s, pin, valid);
    }
  }

  lemma QueuedOneMore(s: State, pin: Pin, valid: set<string>)
    requires s.placed.Some? ==> Queued(s.writes, s.placed.value)
    requires s.placed.Some? ==> s.placed.value.id < s.nextId && s.placed.value.pin.assignedAt <= pin.assignedAt
    requires s.placed.None? ==> s.writes == []
    ensures Queued(s.writes + [Write(pin, s.nextId, valid)], Placed(pin, s.nextId, valid, None))
  {
  }

  lemma ConsultKeepsInv(session: string, s: State, snapshot: Snapshot, input: Input, persist: bool)
    requires Inv(session, s) && Enabled(session, s, Consult(snapshot, input, persist))
    requires InOrder(session, s, Consult(snapshot, input, persist))
    ensures Inv(session, Consulted(session, s, snapshot, input, persist))
  {
    var plan := Decide(s, snapshot, input);
    var looked := Looked(s, snapshot);
    LookingKeepsInv(session, s, snapshot);
    if persist && plan.assignment.Some? && plan.next.Some? {
      Smaller(looked.overlay.Keys + {input.session}, s.overlay.Keys + {input.session});
      if input.session == session {
        DecidedInTime(session, s, snapshot, input);
      }
      RecordingKeepsInv(session, looked, input.session, plan.assignment.value, input.valid);
    }
  }

  /** A write of the newest pin puts it on disk; an earlier one leaves nothing newer than it there. */
  lemma LandedPin(disk: Sidebar, session: string, w: Write, p: Placed, now: int)
    requires |Held(disk.pins)| <= MAX_ENTRIES && NotAfter(PinOf(disk.pins, session), p.pin.assignedAt)
    requires w.pin.assignedAt <= p.pin.assignedAt && (w.id == p.id ==> w.pin == p.pin)
    ensures var after := AfterPersist(disk, session, w.pin, w.valid, now);
            && |Held(after.pins)| <= MAX_ENTRIES && NotAfter(PinOf(after.pins, session), p.pin.assignedAt)
            && (w.id == p.id ==> Shows(PinOf(after.pins, session), p.pin))
  {
    PersistKeepsNewest(disk, session, w.pin, w.valid, now);
    PruneShrinks(disk.pins, w.valid, now);
    if w.id == p.id {
      PersistShowsIt(disk, session, w.pin, w.valid, now);
    }
  }

  lemma PersistShowsIt(disk: Sidebar, session: string, pin: Pin, valid: set<string>, now: int)
    requires NotAfter(LivePin(disk, session, valid, now), pin.assignedAt)
    ensures Shows(PinOf(AfterPersist(disk, session, pin, valid, now).pins, session), pin)
  {
    var live := LivePin(disk, session, valid, now);
    var planned := Held(Prune(disk.pins, valid, now))[session := Merged(live, pin)];
    LimitedToYoungest(planned, session);
  }

  lemma QueuedRest(writes: seq<Write>, p: Placed)
    requires Queued(writes, p) && writes != []
    ensures Queued(writes[1..], p)
    ensures writes[0].id == p.id ==> writes[1..] == []
  {
    assert |writes| > 1 ==> writes[0].id < writes[1].id;
  }

  lemma LandKeepsInv(session: string, s: State, reported: bool)
    requires Inv(session, s) && s.writes != []
    ensures Inv(session, Landing(session, s, reported))
  {
    assert s.placed.Some?;
    LandedPin(s.disk, session, s.writes[0], s.placed.value, s.clock);
    QueuedRest(s.writes, s.placed.value);
  }

  lemma StampKeepsInv(session: string, s: State, id: nat)
    requires Inv(session, s) && id in s.landed
    ensures Inv(session, Stamped(session, s, id))
  {
  }

  lemma RetryKeepsInv(session: string, s: State)
    requires Inv(session, s) && Enabled(session, s, Retry)
    ensures Inv(session, Next(session, s, Retry))
  {
  }

  lemma ReadKeepsInv(session: string, s: State, reading: Reading, state: Sidebar)
    requires Inv(session, s) && reading in s.reading && state in reading.seen
    ensures Inv(session, Next(session, s, FinishRead(reading, state)))
  {
  }

  lemma BeginKeepsInv(session: string, s: State)
    requires Inv(session, s)
    ensures Inv(session, Next(session, s, BeginRead))
  {
  }

  lemma OthersKeepInv(session: string, s: State, disk: Sidebar)
    requires Inv(session, s) && Enabled(session, s, OthersWrite(disk))
    ensures Inv(session, Next(session, s, OthersWrite(disk)))
  {
  }

  lemma StepKeepsInv(session: string, s: State, step: Step)
    requires Inv(session, s) && Enabled(session, s, step) && InOrder(session, s, step)
    ensures Inv(session, Next(session, s, step))
  {
    match step
    case Consult(snapshot, input, persist) => ConsultKeepsInv(session, s, snapshot, input, persist);
    case Land(reported) => LandKeepsInv(session, s, reported);
    case Stamp(id) => StampKeepsInv(session, s, id);
    case Retry => RetryKeepsInv(session, s);
    case FinishRead(reading, state) => ReadKeepsInv(session, s, reading, state);
    case BeginRead => BeginKeepsInv(session, s);
    case OthersWrite(disk) => OthersKeepInv(session, s, disk);
    case Fail =>
      QueuedRest(s.writes, s.placed.value);
    case _ =>
  }

  // ---------------------------------------------------------------------------
  // Whole runs
  // ---------------------------------------------------------------------------

  ghost predicate IsRun(session: string, states: seq<State>, steps: seq<Step>) {
    && |states| == |steps| + 1 && Init(session, states[0])
    && forall i :: 0 <= i < |steps| ==>
         Enabled(session, states[i], steps[i]) && states[i + 1] == Next(session, states[i], steps[i])
  }

  ghost predicate InOrderUpTo(session: string, states: seq<State>, steps: seq<Step>, n: nat)
    requires |states| == |steps| + 1 && n <= |steps|
  {
    forall i :: 0 <= i < n ==> InOrder(session, states[i], steps[i])
  }

  lemma {:induction false} RunKeepsInv(session: string, states: seq<State>, steps: seq<Step>, n: nat)
    requires IsRun(session, states, steps) && n <= |steps| && InOrderUpTo(session, states, steps, n)
    ensures Inv(session, states[n])
  {
    if n > 0 {
      RunKeepsInv(session, states, steps, n - 1);
      assert InOrder(session, states[n - 1], steps[n - 1]);
      StepKeepsInv(session, states[n - 1], steps[n - 1]);
    }
  }

  lemma KeepsWhatItShows(s: State, snapshot: Snapshot, input: Input, p: Pin)
    requires Shows(Seen(s, snapshot, input.session), p) && MayKeep(p, input)
    ensures var a := Decide(s, snapshot, input).assignment;
            a.Some? && a.value.accountId == p.accountId && a.value.assignedAt == p.assignedAt
  {
    DecidedPin(s, snapshot, input);
  }

  /**
   * A process reads its own pins back. However long the write is delayed, fails or is retried, a
   * placement that may keep the session's pin keeps it: as long as each of the session's placements
   * used a snapshot that did not go back, or found the pin still in the overlay.
   */
  lemma ReadsItsOwnPins(session: string, states: seq<State>, steps: seq<Step>, n: nat)
    requires IsRun(session, states, steps) && n < |steps| && InOrderUpTo(session, states, steps, n + 1)
    requires steps[n].Consult? && steps[n].input.session == session && states[n].placed.Some?
    requires MayKeep(states[n].placed.value.pin, steps[n].input)
    ensures var p := states[n].placed.value.pin;
            var a := Decide(states[n], steps[n].snapshot, steps[n].input).assignment;
            a.Some? && a.value.accountId == p.accountId && a.value.assignedAt == p.assignedAt
  {
    RunKeepsInv(session, states, steps, n);
    assert Enabled(session, states[n], steps[n]) && InOrder(session, states[n], steps[n]);
    SeenInOrder(session, states[n], steps[n].snapshot);
    KeepsWhatItShows(states[n], steps[n].snapshot, steps[n].input, states[n].placed.value.pin);
  }

  /** An entry leaves the overlay only for a snapshot read after its write landed, and that one shows the pin. */
  lemma DroppedOnlyWhenVisible(session: string, s: State, snapshot: Snapshot)
    requires Inv(session, s) && s.placed.Some? && snapshot in s.snapshots
    requires session in s.overlay && session !in Looked(s, snapshot).overlay
    ensures s.placed.value.stamp.Some? && snapshot.readAt > s.placed.value.stamp.value
    ensures Shows(OnDisk(s, session), s.placed.value.pin)
    ensures Shows(PinOf(snapshot.state.pins, session), s.placed.value.pin)
  {
  }

  // ---------------------------------------------------------------------------
  // Snapshots of any age
  // ---------------------------------------------------------------------------

  /** Every placement of the session now that may keep `p` returns the account and the time of `p`. */
  ghost predicate AlwaysReturns(session: string, s: State, n: Snapshot, p: Pin) {
    forall input: Input :: input.session == session && input.now == s.clock && MayKeep(p, input) ==>
      ReturnsPlacement(Decide(s, n, input).assignment, p)
  }

  predicate ReturnsPlacement(a: Option<Pin>, p: Pin) {
    a.Some? && a.value.accountId == p.accountId && a.value.assignedAt == p.assignedAt
  }

  /** The recorded pin is the placement of `p`, unexpired, on a slot not recorded under another ChatGPT account. */
  predicate SamePlace(q: Option<Pin>, p: Pin, now: int) {
    && ReturnsPlacement(q, p) && !Expired(q.value, now)
    && (q.value.wireAccountId.None? || q.value.wireAccountId == p.wireAccountId)
  }

  /** A request of the session for which no account but that of `p` is in the roster, and nothing can be chosen. */
  function OnlyRoomFor(session: string, p: Pin, now: int, wire: map<string, string>): Input {
    Input(session, 0, now, {p.accountId}, {}, map[], wire, _ => None)
  }

  lemma OnlyRoomMayKeep(session: string, p: Pin, now: int, wire: map<string, string>)
    requires !Expired(p, now) && !IdentityMismatch(p, Lookup(wire, p.accountId))
    ensures MayKeep(p, OnlyRoomFor(session, p, now, wire))
  {
  }

  /** With room for `p` only, the pin that is seen is decided, if it is on that account and may be kept. */
  lemma OnlyRoomDecides(s: State, n: Snapshot, session: string, p: Pin, wire: map<string, string>)
    ensures var input := OnlyRoomFor(session, p, s.clock, wire);
            var q := Seen(s, n, session);
            var a := Decide(s, n, input).assignment;
            && (a.Some? ==> q.Some? && MayKeep(q.value, input) && a.value.assignedAt == q.value.assignedAt)
            && (a.Some? ==> q.value.accountId == p.accountId)
  {
    var input := OnlyRoomFor(session, p, s.clock, wire);
    FastPathRefines(Applied(n, s.overlay), input);
    PlanKeepsOrPlaces(Applied(n, s.overlay), input);
  }

  /** A snapshot that shows another placement fails a request that could have kept the pin. */
  lemma OtherPlaceFails(session: string, s: State, n: Snapshot, p: Pin)
    requires !Expired(p, s.clock) && !SamePlace(Seen(s, n, session), p, s.clock)
    ensures !AlwaysReturns(session, s, n, p)
  {
    var q := Seen(s, n, session);
    var wire: map<string, string> :=
      if q.None? || q.value.wireAccountId.None? || q.value.wireAccountId == p.wireAccountId then map[]
      else map[p.accountId := p.wireAccountId.GetOr(q.value.wireAccountId.value + "x")];
    var input := OnlyRoomFor(session, p, s.clock, wire);
    OnlyRoomMayKeep(session, p, s.clock, wire);
    OnlyRoomDecides(s, n, session, p, wire);
    assert input.session == session && input.now == s.clock && MayKeep(p, input);
    assert !ReturnsPlacement(Decide(s, n, input).assignment, p);
  }

  /** Seeing the same placement is enough. */
  lemma SamePlaceReturns(session: string, s: State, n: Snapshot, p: Pin)
    requires SamePlace(Seen(s, n, session), p, s.clock)
    ensures AlwaysReturns(session, s, n, p)
  {
    forall input: Input | input.session == session && input.now == s.clock && MayKeep(p, input)
      ensures ReturnsPlacement(Decide(s, n, input).assignment, p)
    {
      DecidedPin(s, n, input);
    }
  }

  /** In a run whose placements are in order, every read begun after the landing was seen is enough. */
  lemma LandedIsVisible(session: string, s: State, n: Snapshot)
    requires Inv(session, s) && s.placed.Some? && n in s.snapshots && !Expired(s.placed.value.pin, s.clock)
    requires s.placed.value.stamp.Some? && n.readAt > s.placed.value.stamp.value
    ensures AlwaysReturns(session, s, n, s.placed.value.pin)
  {
    AppliedPin(n, s.overlay, session);
    SamePlaceReturns(session, s, n, s.placed.value.pin);
  }

  // ---------------------------------------------------------------------------
  // Every reachable state, in whatever order snapshots were used
  // ---------------------------------------------------------------------------

  /** The overlay holds the last pin remembered for the session, with what is known of its write, or none. */
  ghost predicate Tracked(session: string, s: State) {
    && WellFormed(s.overlay, s.nextId)
    && (forall id :: id in s.landed ==> id < s.nextId)
    && (forall i :: 0 <= i < |s.writes| ==> s.writes[i].id < s.nextId)
    && (session in s.overlay ==> s.placed.Some?)
    && (s.placed.Some? ==> s.placed.value.id < s.nextId)
    && (session in s.overlay ==>
          var p := s.placed.value; s.overlay[session] == Entry(p.pin, p.id, p.stamp))
  }

  lemma LookingKeepsTracked(session: string, s: State, snapshot: Snapshot)
    requires Tracked(session, s)
    ensures Tracked(session, Looked(s, snapshot))
  {
    AheadValid(s.overlay, s.nextId, snapshot.readAt);
  }

  lemma RecordingKeepsTracked(session: string, s: State, target: string, pin: Pin, valid: set<string>)
    requires Tracked(session, s)
    ensures Tracked(session, Recorded(session, s, target, pin, valid))
  {
    RememberedHasIt(s.overlay, target, pin, s.nextId);
  }

  lemma LandingKeepsTracked(session: string, s: State, reported: bool)
    requires Tracked(session, s) && s.writes != []
    ensures Tracked(session, Landing(session, s, reported))
  {
  }

  lemma StampKeepsTracked(session: string, s: State, id: nat)
    requires Tracked(session, s)
    ensures Tracked(session, Stamped(session, s, id))
  {
  }

  /** Whatever snapshots are used. */
  lemma StepKeepsTracked(session: string, s: State, step: Step)
    requires Tracked(session, s) && Enabled(session, s, step)
    ensures Tracked(session, Next(session, s, step))
  {
    match step
    case Consult(snapshot, input, persist) =>
      LookingKeepsTracked(session, s, snapshot);
      var plan := Decide(s, snapshot, input);
      if persist && plan.assignment.Some? && plan.next.Some? {
        RecordingKeepsTracked(session, Looked(s, snapshot), input.session, plan.assignment.value, input.valid);
      }
    case Land(reported) => LandingKeepsTracked(session, s, reported);
    case Stamp(id) => StampKeepsTracked(session, s, id);
    case _ =>
  }

  lemma {:induction false} RunKeepsTracked(session: string, states: seq<State>, steps: seq<Step>, i: nat)
    requires IsRun(session, states, steps) && i < |states|
    ensures Tracked(session, states[i])
  {
    if i > 0 {
      RunKeepsTracked(session, states, steps, i - 1);
      StepKeepsTracked(session, states[i - 1], steps[i - 1]);
    }
  }

  /** The entry is in the overlay and the snapshot does not make it go. */
  predicate Overlaid(session: string, s: State, n: Snapshot) {
    session in s.overlay && s.placed.Some?
    && (s.placed.value.stamp.None? || n.readAt <= s.placed.value.stamp.value)
  }

  /**
   * In every reachable state, in whatever order snapshots were used before, and for a snapshot of any age:
   * while the placed pin has not expired, every placement that may keep it returns its account and time if
   * and only if its entry is in the overlay and not about to go, or the snapshot itself shows that placement.
   */
  lemma VisibleExactly(session: string, states: seq<State>, steps: seq<Step>, i: nat, n: Snapshot)
    requires IsRun(session, states, steps) && i < |states| && states[i].placed.Some?
    requires !Expired(states[i].placed.value.pin, states[i].clock)
    ensures var s := states[i];
            var p := s.placed.value.pin;
            AlwaysReturns(session, s, n, p)
            <==> Overlaid(session, s, n) || SamePlace(PinOf(n.state.pins, session), p, s.clock)
  {
    var s := states[i];
    var p := s.placed.value.pin;
    RunKeepsTracked(session, states, steps, i);
    AppliedPin(n, s.overlay, session);
    if SamePlace(Seen(s, n, session), p, s.clock) {
      SamePlaceReturns(session, s, n, p);
    } else {
      OtherPlaceFails(session, s, n, p);
    }
  }
}
