/**
 * Two runs in which a process does not read its own pin back, because a request uses a snapshot older than
 * one used before (packages/opencode/src/index.ts and packages/opencode/src/sidebar-state.ts).
 */
module StaleSnapshots {
  import opened Prelude
  import opened StickyPins
  import opened PinOverlay
  import opened PinVisibility

  // ---------------------------------------------------------------------------
  // A request that holds an older snapshot
  // ---------------------------------------------------------------------------

  /** A request of session "s" at `now`, for which the chooser picks `account`. */
  function Asking(account: string, now: int): Input {
    Input("s", 1, now, {"a", "b"}, {}, map[], map[], _ => Some(Choice(account, None)))
  }

  const EMPTY := Sidebar(None, 0)
  const FIRST := Pin("a", 10, 10, 1, None, None)
  const WITH_FIRST := Sidebar(Some(map["s" := FIRST]), 10)

  lemma DecidesOnEmpty(account: string, now: int)
    ensures PlanFromSnapshot(EMPTY, Asking(account, now)).assignment == Some(Pin(account, now, now, 1, None, None))
    ensures PlanFromSnapshot(EMPTY, Asking(account, now)).next.Some?
  {
  }

  lemma DecidesOnFirst()
    ensures PlanFromSnapshot(WITH_FIRST, Asking("a", 11)) == Plan(Some(FIRST), None)
  {
    assert IsCurrent(PinOf(WITH_FIRST.pins, "s"), Asking("a", 11));
  }

  lemma WritesFirst()
    ensures AfterPersist(EMPTY, "s", FIRST, {"a", "b"}, 10) == WITH_FIRST
  {
    assert |map["s" := FIRST]| <= MAX_ENTRIES;
  }

  const START := State(10, EMPTY, map[], 0, [], {}, {}, {Snapshot(EMPTY, 0)}, 0, None)
  const PLACED := START.(
    overlay := map["s" := Entry(FIRST, 0, None)], nextId := 1, writes := [Write(FIRST, 0, {"a", "b"})],
    placed := Some(Placed(FIRST, 0, {"a", "b"}, None)))
  const READ_EARLY := PLACED.(reading := {}, snapshots := {Snapshot(EMPTY, 0), Snapshot(EMPTY, 10)})
  const WRITTEN := READ_EARLY.(
    disk := WITH_FIRST, writes := [], overlay := map["s" := Entry(FIRST, 0, Some(10))],
    placed := Some(Placed(FIRST, 0, {"a", "b"}, Some(10))))
  const READ_LATE := WRITTEN.(
    clock := 11, reading := {}, snapshots := READ_EARLY.snapshots + {Snapshot(WITH_FIRST, 11)})
  const DROPPED := READ_LATE.(overlay := map[], used := 11)

  lemma FirstIsPlaced()
    ensures Leads(START, Consult(Snapshot(EMPTY, 0), Asking("a", 10), true), PLACED)
  {
    DecidesOnEmpty("a", 10);
    assert Applied(Snapshot(EMPTY, 0), map[]) == EMPTY;
    var o: Overlay := map["s" := Entry(FIRST, 0, None)];
    assert |o| <= MAX_ENTRIES && Newest(o) == o;
    assert Ahead(map[], 0) == map[];
  }

  lemma FirstIsDropped()
    ensures Leads(READ_LATE, Consult(Snapshot(WITH_FIRST, 11), Asking("a", 11), true), DROPPED)
  {
    assert Ahead(READ_LATE.overlay, 11) == map[];
    DecidesOnFirst();
  }

  const BEGUN := PLACED.(reading := {Reading(10, {EMPTY})})
  const LANDED := READ_EARLY.(disk := WITH_FIRST, writes := [], landed := {0})
  const LATER := WRITTEN.(clock := 11)
  const BEGUN_LATE := LATER.(reading := {Reading(11, {WITH_FIRST})})

  ghost predicate Leads(s: State, step: Step, t: State) {
    Enabled("s", s, step) && t == Next("s", s, step)
  }

  lemma EarlyRead()
    ensures Leads(PLACED, BeginRead, BEGUN) && Leads(BEGUN, FinishRead(Reading(10, {EMPTY}), EMPTY), READ_EARLY)
  {
  }

  lemma FirstLands()
    ensures Leads(READ_EARLY, Land(true), LANDED) && Leads(LANDED, Stamp(0), WRITTEN)
  {
    WritesFirst();
  }

  lemma FirstIsReadBack()
    ensures Leads(WRITTEN, Tick(11), LATER) && Leads(LATER, BeginRead, BEGUN_LATE)
    ensures Leads(BEGUN_LATE, FinishRead(Reading(11, {WITH_FIRST}), WITH_FIRST), READ_LATE)
  {
  }

  lemma SecondIsPlaced()
    ensures Decide(DROPPED, Snapshot(EMPTY, 10), Asking("b", 11)).assignment == Some(Pin("b", 11, 11, 1, None, None))
  {
    DecidesOnEmpty("b", 11);
    assert Applied(Snapshot(EMPTY, 10), map[]) == EMPTY;
  }

  /**
   * Order is needed. From a first state, nine steps lead to one where a request used a later snapshot,
   * so the entry is gone; a request that still holds the snapshot read before the write landed then
   * places the session on a second account.
   */
  lemma LateSnapshotMisses()
    ensures Init("s", START)
    ensures Leads(START, Consult(Snapshot(EMPTY, 0), Asking("a", 10), true), PLACED)
    ensures Leads(PLACED, BeginRead, BEGUN) && Leads(BEGUN, FinishRead(Reading(10, {EMPTY}), EMPTY), READ_EARLY)
    ensures Leads(READ_EARLY, Land(true), LANDED) && Leads(LANDED, Stamp(0), WRITTEN)
    ensures Leads(WRITTEN, Tick(11), LATER) && Leads(LATER, BeginRead, BEGUN_LATE)
    ensures Leads(BEGUN_LATE, FinishRead(Reading(11, {WITH_FIRST}), WITH_FIRST), READ_LATE)
    ensures Leads(READ_LATE, Consult(Snapshot(WITH_FIRST, 11), Asking("a", 11), true), DROPPED)
    ensures Enabled("s", DROPPED, Consult(Snapshot(EMPTY, 10), Asking("b", 11), true))
    ensures var p := DROPPED.placed.value.pin;
            var a := Decide(DROPPED, Snapshot(EMPTY, 10), Asking("b", 11)).assignment;
            && DROPPED.placed.Some? && MayKeep(p, Asking("b", 11))
            && a.Some? && a.value.accountId != p.accountId
  {
    FirstIsPlaced();
    EarlyRead();
    FirstLands();
    FirstIsReadBack();
    FirstIsDropped();
    SecondIsPlaced();
  }

  // ---------------------------------------------------------------------------
  // An older placement that is recorded and undone
  // ---------------------------------------------------------------------------

  const OLD := Pin("b", 5, 5, 1, None, None)
  const OLD_AGAIN := OLD.(inputBytes := 2)
  const WITH_OLD := Sidebar(Some(map["s" := OLD]), 5)

  /** A request of `bytes` that may not use "b" when `excluded` says so; the chooser picks "a". */
  function AskingFor(bytes: nat, excluded: set<string>, now: int): Input {
    Input("s", bytes, now, {"a", "b"}, excluded, map[], map[], _ => Some(Choice("a", None)))
  }

  const HAS_OLD := START.(disk := WITH_OLD)
  const OLD_BEGUN := HAS_OLD.(reading := {Reading(10, {WITH_OLD})})
  const OLD_READ := HAS_OLD.(snapshots := {Snapshot(EMPTY, 0), Snapshot(WITH_OLD, 10)})
  const MOVED := OLD_READ.(
    overlay := map["s" := Entry(FIRST, 0, None)], nextId := 1, writes := [Write(FIRST, 0, {"a", "b"})], used := 10,
    placed := Some(Placed(FIRST, 0, {"a", "b"}, None)))
  const MOVE_LANDED := MOVED.(disk := WITH_FIRST, writes := [], landed := {0})
  const MOVE_STAMPED := MOVE_LANDED.(
    landed := {}, overlay := map["s" := Entry(FIRST, 0, Some(10))],
    placed := Some(Placed(FIRST, 0, {"a", "b"}, Some(10))))
  const AT_ELEVEN := MOVE_STAMPED.(clock := 11)
  const MOVE_BEGUN := AT_ELEVEN.(reading := {Reading(11, {WITH_FIRST})})
  const MOVE_READ := AT_ELEVEN.(snapshots := OLD_READ.snapshots + {Snapshot(WITH_FIRST, 11)})
  const MOVE_SEEN := MOVE_READ.(overlay := map[], used := 11)
  const WENT_BACK := MOVE_SEEN.(
    overlay := map["s" := Entry(OLD_AGAIN, 1, None)], nextId := 2, writes := [Write(OLD_AGAIN, 1, {"a", "b"})],
    placed := Some(Placed(OLD_AGAIN, 1, {"a", "b"}, None)))
  const BACK_LANDED := WENT_BACK.(writes := [], landed := {1})
  const BACK_STAMPED := BACK_LANDED.(
    landed := {}, overlay := map["s" := Entry(OLD_AGAIN, 1, Some(11))],
    placed := Some(Placed(OLD_AGAIN, 1, {"a", "b"}, Some(11))))
  const AT_TWELVE := BACK_STAMPED.(clock := 12)
  const BACK_BEGUN := AT_TWELVE.(reading := {Reading(12, {WITH_FIRST})})
  const BACK_READ := AT_TWELVE.(snapshots := MOVE_READ.snapshots + {Snapshot(WITH_FIRST, 12)})

  lemma OldIsRead()
    ensures Init("s", HAS_OLD)
    ensures Leads(HAS_OLD, BeginRead, OLD_BEGUN)
    ensures Leads(OLD_BEGUN, FinishRead(Reading(10, {WITH_OLD}), WITH_OLD), OLD_READ)
  {
  }

  lemma DecidesToMove()
    ensures PlanFromSnapshot(WITH_OLD, AskingFor(1, {"b"}, 10)).assignment == Some(FIRST)
    ensures PlanFromSnapshot(WITH_OLD, AskingFor(1, {"b"}, 10)).next.Some?
  {
    PlanKeepsOrPlaces(WITH_OLD, AskingFor(1, {"b"}, 10));
  }

  lemma RemembersOne(pin: Pin, id: nat)
    ensures Remembered(map[], "s", pin, id) == map["s" := Entry(pin, id, None)]
  {
    RememberedHasIt(map[], "s", pin, id);
  }

  lemma SessionMoves()
    ensures Leads(OLD_READ, Consult(Snapshot(WITH_OLD, 10), AskingFor(1, {"b"}, 10), true), MOVED)
  {
    DecidesToMove();
    assert Ahead(map[], 10) == map[];
    assert Applied(Snapshot(WITH_OLD, 10), map[]) == WITH_OLD;
    RemembersOne(FIRST, 0);
  }

  lemma OldIsLive(now: int)
    requires now <= 12
    ensures Prune(WITH_OLD.pins, {"a", "b"}, now) == WITH_OLD.pins
  {
    assert "s" in map["s" := OLD];
    PruneAgain(map["s" := OLD], {"a", "b"}, now);
  }

  lemma MovePersists()
    ensures AfterPersist(WITH_OLD, "s", FIRST, {"a", "b"}, 10) == WITH_FIRST
  {
    OldIsLive(10);
    assert |map["s" := FIRST]| <= MAX_ENTRIES;
    assert map["s" := OLD]["s" := FIRST] == map["s" := FIRST];
  }

  lemma MoveLands()
    ensures Leads(MOVED, Land(true), MOVE_LANDED)
  {
    MovePersists();
  }

  lemma MoveIsStamped()
    ensures Leads(MOVE_LANDED, Stamp(0), MOVE_STAMPED)
  {
  }

  lemma MoveIsRead()
    ensures Leads(MOVE_STAMPED, Tick(11), AT_ELEVEN) && Leads(AT_ELEVEN, BeginRead, MOVE_BEGUN)
    ensures Leads(MOVE_BEGUN, FinishRead(Reading(11, {WITH_FIRST}), WITH_FIRST), MOVE_READ)
  {
  }

  lemma MoveIsSeen()
    ensures Leads(MOVE_READ, Consult(Snapshot(WITH_FIRST, 11), Asking("a", 11), true), MOVE_SEEN)
  {
    assert Ahead(MOVE_READ.overlay, 11) == map[];
    DecidesOnFirst();
  }

  lemma DecidesToGoBack()
    ensures PlanFromSnapshot(WITH_OLD, AskingFor(2, {}, 11)).assignment == Some(OLD_AGAIN)
    ensures PlanFromSnapshot(WITH_OLD, AskingFor(2, {}, 11)).next.Some?
  {
    var input := AskingFor(2, {}, 11);
    assert MayKeep(OLD, input) && NeedsUpdate(OLD, 2, 11, None);
    OldIsLive(11);
  }

  lemma SessionGoesBack()
    ensures Leads(MOVE_SEEN, Consult(Snapshot(WITH_OLD, 10), AskingFor(2, {}, 11), true), WENT_BACK)
  {
    DecidesToGoBack();
    assert Ahead(map[], 10) == map[];
    assert Applied(Snapshot(WITH_OLD, 10), map[]) == WITH_OLD;
    RemembersOne(OLD_AGAIN, 1);
  }

  lemma GoingBackChangesNothing()
    ensures AfterPersist(WITH_FIRST, "s", OLD_AGAIN, {"a", "b"}, 11) == WITH_FIRST
  {
    assert "s" in map["s" := FIRST];
    PruneAgain(map["s" := FIRST], {"a", "b"}, 11);
  }

  lemma GoingBackLands()
    ensures Leads(WENT_BACK, Land(true), BACK_LANDED)
  {
    GoingBackChangesNothing();
  }

  lemma GoingBackIsStamped()
    ensures Leads(BACK_LANDED, Stamp(1), BACK_STAMPED)
  {
  }

  lemma GoingBackIsRead()
    ensures Leads(BACK_STAMPED, Tick(12), AT_TWELVE) && Leads(AT_TWELVE, BeginRead, BACK_BEGUN)
    ensures Leads(BACK_BEGUN, FinishRead(Reading(12, {WITH_FIRST}), WITH_FIRST), BACK_READ)
  {
  }

  lemma AnswersTheMove()
    ensures Decide(BACK_READ, Snapshot(WITH_FIRST, 12), Asking("a", 12)).assignment == Some(FIRST)
  {
    AppliedPin(Snapshot(WITH_FIRST, 12), BACK_READ.overlay, "s");
    assert Applied(Snapshot(WITH_FIRST, 12), BACK_READ.overlay) == WITH_FIRST by {
      assert Ahead(BACK_READ.overlay, 12) == map[];
    }
    assert IsCurrent(PinOf(WITH_FIRST.pins, "s"), Asking("a", 12));
  }

  /**
   * An entry in the overlay is not enough. A session on "b" was moved to "a", and the move was written and
   * read back; a request that still holds the snapshot from before keeps "b" and records it, a write that
   * the newer placement on disk turns away. The next read drops the entry and answers "a".
   */
  lemma StalePlacementIsUndone()
    ensures Init("s", HAS_OLD) && Leads(HAS_OLD, BeginRead, OLD_BEGUN)
    ensures Leads(OLD_BEGUN, FinishRead(Reading(10, {WITH_OLD}), WITH_OLD), OLD_READ)
    ensures Leads(OLD_READ, Consult(Snapshot(WITH_OLD, 10), AskingFor(1, {"b"}, 10), true), MOVED)
    ensures Leads(MOVED, Land(true), MOVE_LANDED) && Leads(MOVE_LANDED, Stamp(0), MOVE_STAMPED)
    ensures Leads(MOVE_STAMPED, Tick(11), AT_ELEVEN) && Leads(AT_ELEVEN, BeginRead, MOVE_BEGUN)
    ensures Leads(MOVE_BEGUN, FinishRead(Reading(11, {WITH_FIRST}), WITH_FIRST), MOVE_READ)
    ensures Leads(MOVE_READ, Consult(Snapshot(WITH_FIRST, 11), Asking("a", 11), true), MOVE_SEEN)
    ensures Leads(MOVE_SEEN, Consult(Snapshot(WITH_OLD, 10), AskingFor(2, {}, 11), true), WENT_BACK)
    ensures Leads(WENT_BACK, Land(true), BACK_LANDED) && Leads(BACK_LANDED, Stamp(1), BACK_STAMPED)
    ensures Leads(BACK_STAMPED, Tick(12), AT_TWELVE) && Leads(AT_TWELVE, BeginRead, BACK_BEGUN)
    ensures Leads(BACK_BEGUN, FinishRead(Reading(12, {WITH_FIRST}), WITH_FIRST), BACK_READ)
    ensures "s" in BACK_READ.overlay && Snapshot(WITH_FIRST, 12) in BACK_READ.snapshots
    ensures var p := BACK_READ.placed.value.pin;
            && BACK_READ.placed.Some? && MayKeep(p, Asking("a", 12)) && !Expired(p, 12) && p.accountId == "b"
            && Decide(BACK_READ, Snapshot(WITH_FIRST, 12), Asking("a", 12)).assignment == Some(FIRST)
  {
    OldIsRead();
    SessionMoves();
    MoveLands();
    MoveIsStamped();
    MoveIsRead();
    MoveIsSeen();
    SessionGoesBack();
    GoingBackLands();
    GoingBackIsStamped();
    GoingBackIsRead();
    AnswersTheMove();
  }
}
