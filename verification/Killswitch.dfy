/**
 * The killswitch: per-account floors in two settings vocabularies, the policy they decide, the
 * Retry-After it gives (packages/core/src/accounts.ts) and the migration from the older vocabulary to
 * the newer (packages/core/src/commands.ts).
 */
module Killswitch {
  import opened Prelude

  // ---------------------------------------------------------------------------
  // Settings
  // ---------------------------------------------------------------------------

  /**
   * A settings value other than null: a finite number, a value that is not one but that a comparison
   * converts to one (a numeric string, say), or one that no comparison holds of.
   */
  datatype Value = Number(value: real) | Convertible(text: string, value: real) | NotNumber(text: string)

  /** A thresholds record; `None` is a missing or null key. */
  datatype Thresholds = Thresholds(
    primary: Option<Value>, secondary: Option<Value>, fiveHour: Option<Value>, oneWeek: Option<Value>)

  /** What `accounts` holds under an id: a record, another truthy value, or a falsy one. */
  datatype Entry = Record(thresholds: Thresholds) | Truthy | Falsy

  /** A killswitch block. `accounts` and `defaults` are `None` when they are not records. */
  datatype Block = Block(
    enabled: bool,
    main: Thresholds,
    accounts: Option<map<string, Entry>>,
    defaults: Option<Thresholds>,
    schema: Option<string>)

  datatype Floors = Floors(primary: Value, secondary: Value)

  const NO_THRESHOLDS := Thresholds(None, None, None, None)
  const DEFAULT_FLOORS := Floors(Number(5.0), Number(10.0))
  const FLOORS_SCHEMA := "floors-v1"
  const MAIN_ROW := "main"

  /** The names a plain object inherits; reading one of them finds something truthy. */
  const INHERITED_NAMES: set<string> := {
    "__proto__", "constructor", "hasOwnProperty", "isPrototypeOf", "propertyIsEnumerable",
    "toLocaleString", "toString", "valueOf", "__defineGetter__", "__defineSetter__",
    "__lookupGetter__", "__lookupSetter__"}

  /** The ids the migration leaves out. */
  const PROTOTYPE_KEYS: set<string> := {"__proto__", "constructor", "prototype"}

  predicate Marked(block: Block) {
    block.schema == Some(FLOORS_SCHEMA)
  }

  // ---------------------------------------------------------------------------
  // Reading floors
  // ---------------------------------------------------------------------------

  function FirstValue(a: Option<Value>, b: Option<Value>, default: Value): Value {
    if a.Some? then a.value else if b.Some? then b.value else default
  }

  function NormalizeThresholds(t: Thresholds): Floors {
    Floors(FirstValue(t.primary, t.fiveHour, DEFAULT_FLOORS.primary),
           FirstValue(t.secondary, t.oneWeek, DEFAULT_FLOORS.secondary))
  }

  function FloorOf(v: Option<Value>): Value {
    if v.Some? && v.value.Number? then v.value else Number(0.0)
  }

  /** The truthy thing the older reader finds under `id`, as thresholds. */
  function LegacyEntry(accounts: Option<map<string, Entry>>, id: string): Option<Thresholds> {
    if accounts.None? then None
    else if id in accounts.value then
      match accounts.value[id]
      case Record(t) => Some(t)
      case Truthy => Some(NO_THRESHOLDS)
      case Falsy => None
    else if id in INHERITED_NAMES then Some(NO_THRESHOLDS)
    else None
  }

  function LegacyFloors(block: Block, id: Option<string>): Floors {
    var entry := if id.Some? && id.value != "" then LegacyEntry(block.accounts, id.value) else None;
    NormalizeThresholds(entry.GetOr(block.main))
  }

  function MarkedFloors(block: Block, id: string): Floors {
    var own := if block.accounts.Some? && id in block.accounts.value && block.accounts.value[id].Record?
               then block.accounts.value[id].thresholds
               else block.defaults.GetOr(NO_THRESHOLDS);
    Floors(FloorOf(own.primary), FloorOf(own.secondary))
  }

  /** The floors of an account; no id is the main account. */
  function FloorsFor(block: Option<Block>, id: Option<string>): Floors {
    if block.None? then DEFAULT_FLOORS
    else if Marked(block.value) then MarkedFloors(block.value, id.GetOr(MAIN_ROW))
    else LegacyFloors(block.value, id)
  }

  /** The first of two values that is there, or the default. */
  predicate IsFirstOf(v: Value, newer: Option<Value>, older: Option<Value>, default: real) {
    if newer.Some? then v == newer.value else if older.Some? then v == older.value else v == Number(default)
  }

  /**
   * What the older reader gives an account: by its own record, when it has one, and never by the main account's
   * then; the default floors under an inherited name or another truthy value; and what the main account has
   * otherwise. A floor nobody names is 5 percent in the primary window and 10 in the secondary.
   */
  lemma LegacyReaderExactly(block: Block, id: Option<string>)
    requires !Marked(block)
    ensures var own := id.Some? && id.value != "" && block.accounts.Some? && id.value in block.accounts.value;
            var entry := if own then block.accounts.value[id.value] else Falsy;
            var floors, main := FloorsFor(Some(block), id), FloorsFor(Some(block), None);
            && IsFirstOf(main.primary, block.main.primary, block.main.fiveHour, 5.0)
            && IsFirstOf(main.secondary, block.main.secondary, block.main.oneWeek, 10.0)
            && (entry.Record? ==>
                  && IsFirstOf(floors.primary, entry.thresholds.primary, entry.thresholds.fiveHour, 5.0)
                  && IsFirstOf(floors.secondary, entry.thresholds.secondary, entry.thresholds.oneWeek, 10.0))
            && (entry.Truthy? || (id.Some? && id.value != "" && !own && block.accounts.Some?
                                    && id.value in INHERITED_NAMES) ==>
                  floors == Floors(Number(5.0), Number(10.0)))
            && (entry.Falsy? && (own || id.None? || block.accounts.None? || id.value !in INHERITED_NAMES) ==>
                  floors == main)
    ensures FloorsFor(None, id) == Floors(Number(5.0), Number(10.0))
  {
  }

  /** What the newer reader gives: of the own record or else the defaults, whole, each finite number, or zero. */
  lemma MarkedReaderExactly(block: Block, id: Option<string>)
    requires Marked(block)
    ensures var row := id.GetOr("main");
            var own := block.accounts.Some? && row in block.accounts.value && block.accounts.value[row].Record?;
            var from := if own then Some(block.accounts.value[row].thresholds) else block.defaults;
            var floors := FloorsFor(Some(block), id);
            && floors.primary
               == (if from.Some? && from.value.primary.Some? && from.value.primary.value.Number?
                   then from.value.primary.value else Number(0.0))
            && floors.secondary
               == (if from.Some? && from.value.secondary.Some? && from.value.secondary.value.Number?
                   then from.value.secondary.value else Number(0.0))
  {
  }

  // ---------------------------------------------------------------------------
  // Migration
  // ---------------------------------------------------------------------------

  /** Floors written out as an entry. */
  function AsThresholds(f: Floors): Thresholds {
    Thresholds(Some(f.primary), Some(f.secondary), None, None)
  }

  function NamedIds(block: Block): set<string> {
    if block.accounts.Some? then block.accounts.value.Keys else {}
  }

  /** The ids the migration writes a row for. */
  function RowIds(block: Block, roster: set<string>): set<string> {
    {MAIN_ROW} + roster + NamedIds(block) - PROTOTYPE_KEYS
  }

  /** The older floors of row `id`; row `main` is the main account. */
  function RowFloors(block: Block, id: string): Floors {
    LegacyFloors(block, if id == MAIN_ROW then None else Some(id))
  }

  function InFloors(block: Block, roster: set<string>): Block {
    Block(block.enabled, NO_THRESHOLDS,
          Some(map id | id in RowIds(block, roster) :: Record(AsThresholds(RowFloors(block, id)))),
          Some(AsThresholds(LegacyFloors(block, None))),
          Some(FLOORS_SCHEMA))
  }

  method KillswitchInFloors(block: Block, roster: seq<string>) returns (next: Block)
    ensures next == InFloors(block, set id | id in roster)
  {
    var ids := {MAIN_ROW} + (set id | id in roster) + NamedIds(block);
    var accounts: map<string, Entry> := map[];
    var left := ids;
    while left != {}
      invariant left <= ids
      invariant accounts
        == map id | id in ids - left - PROTOTYPE_KEYS :: Record(AsThresholds(RowFloors(block, id)))
      decreases left
    {
      var id :| id in left;
      left := left - {id};
      if id !in PROTOTYPE_KEYS {
        var floors := LegacyFloors(block, if id == MAIN_ROW then None else Some(id));
        accounts := accounts[id := Record(AsThresholds(floors))];
      }
    }
    var fallback := LegacyFloors(block, None);
    assert ids - left - PROTOTYPE_KEYS == RowIds(block, set id | id in roster);
    next := Block(block.enabled, NO_THRESHOLDS, Some(accounts), Some(AsThresholds(fallback)), Some(FLOORS_SCHEMA));
  }

  predicate Numeric(f: Floors) {
    f.primary.Number? && f.secondary.Number?
  }

  /**
   * The accounts whose floors the migration carries over: the main account, every account with a
   * row or an entry, and every other one but a name that plain objects inherit. An older entry for a
   * fallback account called `main` is not carried over, nor is one under a prototype key.
   */
  predicate Covered(named: set<string>, roster: set<string>, id: Option<string>) {
    id.Some? && id.value != "" ==>
      && id.value != MAIN_ROW && id.value !in PROTOTYPE_KEYS
      && (id.value in roster + named || id.value !in INHERITED_NAMES)
  }

  /**
   * For a covered account, the reader gives the same floors before and after exactly when the floors
   * were finite numbers before. The main account and rows added after the migration are covered.
   */
  lemma MigrationKeepsFloors(block: Block, roster: set<string>, id: Option<string>)
    requires !Marked(block) && Covered(NamedIds(block), roster, id)
    ensures FloorsFor(Some(InFloors(block, roster)), id) == FloorsFor(Some(block), id)
       <==> Numeric(FloorsFor(Some(block), id))
  {
    var next := InFloors(block, roster);
    var row := id.GetOr(MAIN_ROW);
    if row in RowIds(block, roster) {
      assert next.accounts.value[row] == Record(AsThresholds(RowFloors(block, row)));
    }
  }

  /** A block with its own floors for the main account and `entries`. */
  function SampleBlock(entries: map<string, Entry>): Block {
    Block(true, Thresholds(Some(Number(50.0)), Some(Number(50.0)), None, None), Some(entries), None, None)
  }

  /**
   * Coverage is needed: for every account it leaves out of a fresh roster there is an unmarked block
   * with numeric floors that judges the account differently once migrated.
   */
  lemma UncoveredAccountChanges(roster: set<string>, id: Option<string>) returns (block: Block)
    requires !Covered({}, roster, id)
    ensures !Marked(block) && !Covered(NamedIds(block), roster, id)
    ensures Numeric(FloorsFor(Some(block), id))
    ensures FloorsFor(Some(InFloors(block, roster)), id) != FloorsFor(Some(block), id)
  {
    var name := id.value;
    if name == MAIN_ROW || name == "prototype" {
      block := SampleBlock(map[name := Record(Thresholds(Some(Number(1.0)), Some(Number(1.0)), None, None))]);
    } else {
      block := SampleBlock(map[]);
    }
    var next := InFloors(block, roster);
    if name in RowIds(block, roster) {
      assert next.accounts.value[name] == Record(AsThresholds(RowFloors(block, name)));
    }
  }

  /**
   * A block created in the newer vocabulary, with the default floors for row `main` and every roster
   * row it does not name, and for any row added later.
   */
  function WithDefaultFloors(block: Block, roster: set<string>): Block {
    var named := block.accounts.GetOr(map[]);
    var added := {MAIN_ROW} + roster - PROTOTYPE_KEYS - named.Keys;
    block.(accounts := Some(named + (map id | id in added :: Record(AsThresholds(DEFAULT_FLOORS)))),
           defaults := Some(block.defaults.GetOr(AsThresholds(DEFAULT_FLOORS))),
           schema := Some(FLOORS_SCHEMA))
  }

  method KillswitchWithDefaultFloors(block: Block, roster: seq<string>) returns (next: Block)
    ensures next == WithDefaultFloors(block, set id | id in roster)
  {
    var accounts := block.accounts.GetOr(map[]);
    ghost var named := accounts;
    var ids := {MAIN_ROW} + (set id | id in roster);
    var left := ids;
    while left != {}
      invariant left <= ids
      invariant accounts
        == named + map id | id in ids - left - PROTOTYPE_KEYS - named.Keys :: Record(AsThresholds(DEFAULT_FLOORS))
      decreases left
    {
      var id :| id in left;
      left := left - {id};
      if id !in PROTOTYPE_KEYS && id !in accounts {
        accounts := accounts[id := Record(AsThresholds(DEFAULT_FLOORS))];
      }
    }
    assert ids - left == ids;
    next := block.(accounts := Some(accounts),
                   defaults := Some(block.defaults.GetOr(AsThresholds(DEFAULT_FLOORS))),
                   schema := Some(FLOORS_SCHEMA));
  }

  /**
   * Floors the block holds are kept; a row it does not name is protected by the default floors, and
   * so is every later one unless the block brought defaults of its own. Doing it twice changes nothing.
   */
  lemma DefaultFloorsProtect(block: Block, roster: set<string>, id: string)
    ensures var next := WithDefaultFloors(block, roster);
            var own := block.accounts.Some? && id in block.accounts.value;
            && FloorsFor(Some(next), Some(id)) ==
                 (if own && block.accounts.value[id].Record? then
                    var t := block.accounts.value[id].thresholds; Floors(FloorOf(t.primary), FloorOf(t.secondary))
                  else if !own && id in {MAIN_ROW} + roster - PROTOTYPE_KEYS then DEFAULT_FLOORS
                  else if block.defaults.Some? then
                    Floors(FloorOf(block.defaults.value.primary), FloorOf(block.defaults.value.secondary))
                  else DEFAULT_FLOORS)
            && WithDefaultFloors(next, roster) == next
  {
    var next := WithDefaultFloors(block, roster);
    assert {MAIN_ROW} + roster - PROTOTYPE_KEYS - next.accounts.value.Keys == {};
    assert WithDefaultFloors(next, roster).accounts.value == next.accounts.value;
  }

  /** A settings key that may hold a record. */
  datatype Field<T> = Fields(value: T) | NotRecord

  /** The settings the migration touches; absent and malformed keys are `NotRecord`. */
  datatype Settings = Settings(
    cachekeep: Field<map<string, string>>, cacheKeep: Field<map<string, string>>, killswitch: Field<Block>)

  function Migrated(s: Settings, roster: set<string>): Settings {
    Settings(
      NotRecord,
      if s.cachekeep.NotRecord? then s.cacheKeep
      else Fields(s.cachekeep.value + (if s.cacheKeep.Fields? then s.cacheKeep.value else map[])),
      if s.killswitch.Fields? && !Marked(s.killswitch.value) then Fields(InFloors(s.killswitch.value, roster))
      else s.killswitch)
  }

  predicate NeedsMigration(s: Settings) {
    s.cachekeep.Fields? || (s.killswitch.Fields? && !Marked(s.killswitch.value))
  }

  class SettingsFile {
    var cachekeep: Field<map<string, string>>
    var cacheKeep: Field<map<string, string>>
    var killswitch: Field<Block>

    ghost function AsSettings(): Settings
      reads this
    {
      Settings(cachekeep, cacheKeep, killswitch)
    }

    constructor (s: Settings)
      ensures AsSettings() == s
    {
      cachekeep, cacheKeep, killswitch := s.cachekeep, s.cacheKeep, s.killswitch;
    }

    method MigrateLegacySettings(roster: seq<string>) returns (changed: bool)
      modifies this
      ensures changed <==> NeedsMigration(old(AsSettings()))
      ensures AsSettings() == Migrated(old(AsSettings()), set id | id in roster)
    {
      changed := false;
      if cachekeep.Fields? {
        cacheKeep := Fields(cachekeep.value + (if cacheKeep.Fields? then cacheKeep.value else map[]));
        cachekeep := NotRecord;
        changed := true;
      }
      if killswitch.Fields? && !Marked(killswitch.value) {
        var next := KillswitchInFloors(killswitch.value, roster);
        killswitch := Fields(next);
        changed := true;
      }
    }
  }

  /**
   * Migrating twice, even against another roster, changes nothing more; no cache setting is lost, and
   * a value already under the new name wins.
   */
  lemma MigrationIdempotent(s: Settings, roster: set<string>, later: set<string>, key: string)
    ensures var once := Migrated(s, roster);
            && !NeedsMigration(once) && Migrated(once, later) == once
            && (!NeedsMigration(s) ==> once == s)
            && (s.cachekeep.Fields? && key in s.cachekeep.value ==>
                  once.cacheKeep.Fields? && key in once.cacheKeep.value)
            && (s.cacheKeep.Fields? && key in s.cacheKeep.value ==>
                  && once.cacheKeep.Fields? && key in once.cacheKeep.value
                  && once.cacheKeep.value[key] == s.cacheKeep.value[key])
            && (s.cachekeep.Fields? && key in s.cachekeep.value
                  && !(s.cacheKeep.Fields? && key in s.cacheKeep.value) ==>
                  once.cacheKeep.value[key] == s.cachekeep.value[key])
  {
  }

  // ---------------------------------------------------------------------------
  // Policy
  // ---------------------------------------------------------------------------

  /** One quota window; `resetsAt` is `None` when missing or unreadable. */
  datatype Window = Window(remainingPercent: real, resetsAt: Option<int>)
  datatype Quota = Quota(primary: Option<Window>, secondary: Option<Window>)
  datatype Storage = Storage(killswitch: Option<Block>, failClosedOnUnknownQuota: Option<bool>)

  predicate Enabled(storage: Option<Storage>) {
    storage.Some? && storage.value.killswitch.Some? && storage.value.killswitch.value.enabled
  }

  predicate FailClosed(storage: Option<Storage>) {
    storage.Some? && storage.value.failClosedOnUnknownQuota.GetOr(false)
  }

  function StorageFloors(storage: Option<Storage>, id: Option<string>): Floors {
    if storage.None? then DEFAULT_FLOORS else FloorsFor(storage.value.killswitch, id)
  }

  predicate ResetIsPast(w: Window, now: int) {
    w.resetsAt.Some? && w.resetsAt.value <= now
  }

  /** What the window is below. A comparison with a value that is no number is false. */
  predicate Below(w: Window, floor: Value) {
    !floor.NotNumber? && w.remainingPercent < floor.value
  }

  /** The other comparison, which is not the negation of the first when the floor is no number. */
  predicate AtLeast(w: Window, floor: Value) {
    !floor.NotNumber? && w.remainingPercent >= floor.value
  }

  predicate WindowPasses(w: Option<Window>, floor: Value, failClosed: bool, now: int) {
    w.Some? ==> if ResetIsPast(w.value, now) then !failClosed else !Below(w.value, floor)
  }

  predicate PassesPolicy(quota: Option<Quota>, storage: Option<Storage>, id: Option<string>, now: int) {
    if !Enabled(storage) then true
    else if quota.None? then !FailClosed(storage)
    else
      var floors := StorageFloors(storage, id);
      && WindowPasses(quota.value.primary, floors.primary, FailClosed(storage), now)
      && WindowPasses(quota.value.secondary, floors.secondary, FailClosed(storage), now)
  }

  /** A window that is there and has reset since. */
  predicate Stale(w: Option<Window>, now: int) {
    w.Some? && w.value.resetsAt.Some? && w.value.resetsAt.value <= now
  }

  /** A window that is there, has not reset, and is under a floor that compares as a number. */
  predicate Under(w: Option<Window>, floor: Value, now: int) {
    w.Some? && !Stale(w, now) && !floor.NotNumber? && w.value.remainingPercent < floor.value
  }

  /**
   * When an account is refused: with the killswitch on, by a window under its floor; and, failing closed, by a
   * quota that is unknown or a window that has reset since. A quota that is not known never refuses otherwise.
   */
  lemma RefusedExactly(quota: Option<Quota>, storage: Option<Storage>, id: Option<string>, now: int)
    ensures var on := storage.Some? && storage.value.killswitch.Some? && storage.value.killswitch.value.enabled;
            var floors := if on then FloorsFor(storage.value.killswitch, id) else DEFAULT_FLOORS;
            !PassesPolicy(quota, storage, id, now) <==>
              && on
              && ((storage.value.failClosedOnUnknownQuota == Some(true)
                     && (quota.None? || Stale(quota.value.primary, now) || Stale(quota.value.secondary, now)))
                  || (quota.Some? && (Under(quota.value.primary, floors.primary, now)
                                        || Under(quota.value.secondary, floors.secondary, now))))
  {
  }

  /** Failing closed only ever refuses more: exactly what is unknown or out of date. */
  lemma FailClosedExactly(quota: Option<Quota>, storage: Storage, id: Option<string>, now: int)
    requires Enabled(Some(storage))
    ensures var closed := storage.(failClosedOnUnknownQuota := Some(true));
            var open := storage.(failClosedOnUnknownQuota := None);
            PassesPolicy(quota, Some(closed), id, now) <==>
              && PassesPolicy(quota, Some(open), id, now)
              && quota.Some? && !Stale(quota.value.primary, now) && !Stale(quota.value.secondary, now)
  {
  }

  /** The migration changes no verdict of a covered account whose floors are numbers. */
  lemma MigrationKeepsVerdicts(
      storage: Storage, roster: set<string>, quota: Option<Quota>, id: Option<string>, now: int)
    requires storage.killswitch.Some? && !Marked(storage.killswitch.value)
    requires Covered(NamedIds(storage.killswitch.value), roster, id)
    requires Numeric(FloorsFor(storage.killswitch, id))
    ensures var next := storage.(killswitch := Some(InFloors(storage.killswitch.value, roster)));
            PassesPolicy(quota, Some(next), id, now) == PassesPolicy(quota, Some(storage), id, now)
  {
    MigrationKeepsFloors(storage.killswitch.value, roster, id);
  }

  // ---------------------------------------------------------------------------
  // Retry-After
  // ---------------------------------------------------------------------------

  datatype Account = Account(id: Option<string>, quota: Option<Quota>)

  const NO_ESTIMATE_SECONDS := 300

  /** The window is not yet past and keeps the account from passing. */
  predicate Blocks(w: Option<Window>, floor: Value, now: int) {
    w.Some? && !ResetIsPast(w.value, now) && Below(w.value, floor)
  }

  /** The window is not yet past and is waited for: every window but one at its floor or above. */
  predicate Violates(w: Option<Window>, floor: Value, now: int) {
    w.Some? && !ResetIsPast(w.value, now) && !AtLeast(w.value, floor)
  }

  /** When those of two windows that count will all have reset; `None` when none counts or a reset is unknown. */
  function BothReset(p: Option<Window>, pCounts: bool, s: Option<Window>, sCounts: bool): Option<int>
    requires (pCounts ==> p.Some?) && (sCounts ==> s.Some?)
  {
    if (pCounts && p.value.resetsAt.None?) || (sCounts && s.value.resetsAt.None?) then None
    else if pCounts && sCounts then Some(Max(p.value.resetsAt.value, s.value.resetsAt.value))
    else if pCounts then p.value.resetsAt
    else if sCounts then s.value.resetsAt
    else None
  }

  /** The time computed for an account: when every violating window will have reset. */
  function FreeAt(a: Account, storage: Option<Storage>, now: int): Option<int> {
    if a.quota.None? then None
    else
      var floors := StorageFloors(storage, a.id);
      var p, s := a.quota.value.primary, a.quota.value.secondary;
      BothReset(p, Violates(p, floors.primary, now), s, Violates(s, floors.secondary, now))
  }

  /** When every window that keeps the account from passing will have reset. */
  function ReleasedAt(a: Account, storage: Option<Storage>, now: int): Option<int> {
    if a.quota.None? then None
    else
      var floors := StorageFloors(storage, a.id);
      var p, s := a.quota.value.primary, a.quota.value.secondary;
      BothReset(p, Blocks(p, floors.primary, now), s, Blocks(s, floors.secondary, now))
  }

  function EarliestOf(a: Option<int>, b: Option<int>): Option<int> {
    if a.None? then b else if b.None? then a else Some(Min(a.value, b.value))
  }

  /** The earliest of the known times. */
  function First(times: seq<Option<int>>): Option<int> {
    if times == [] then None else EarliestOf(First(times[..|times| - 1]), times[|times| - 1])
  }

  function FreeTimes(accounts: seq<Account>, storage: Option<Storage>, now: int): (r: seq<Option<int>>)
    ensures |r| == |accounts|
  {
    seq(|accounts|, i requires 0 <= i < |accounts| => FreeAt(accounts[i], storage, now))
  }

  function ReleaseTimes(accounts: seq<Account>, storage: Option<Storage>, now: int): (r: seq<Option<int>>)
    ensures |r| == |accounts|
  {
    seq(|accounts|, i requires 0 <= i < |accounts| => ReleasedAt(accounts[i], storage, now))
  }

  /** The time computed for all accounts: the minimum over them of the maximum violating reset. */
  function FirstFree(accounts: seq<Account>, storage: Option<Storage>, now: int): Option<int> {
    First(FreeTimes(accounts, storage, now))
  }

  /** Milliseconds in whole seconds, rounded up. */
  function CeilSeconds(ms: int): int {
    (ms + 999) / 1000
  }

  function RetryAfter(accounts: seq<Account>, now: int, storage: Option<Storage>): int {
    if !Enabled(storage) then NO_ESTIMATE_SECONDS
    else
      var free := FirstFree(accounts, storage, now);
      if free.None? then NO_ESTIMATE_SECONDS else Max(1, CeilSeconds(free.value - now))
  }

  predicate ResetUnknown(w: Option<Window>, floor: Value, now: int) {
    Violates(w, floor, now) && w.value.resetsAt.None?
  }

  /** The reset of a violating window, if it is known. */
  function KnownReset(w: Option<Window>, floor: Value, now: int): seq<int> {
    if Violates(w, floor, now) && w.value.resetsAt.Some? then [w.value.resetsAt.value] else []
  }

  method ViolatingResets(quota: Quota, floors: Floors, now: int) returns (resets: seq<int>, resetUnknown: bool)
    ensures resetUnknown <==>
      ResetUnknown(quota.primary, floors.primary, now) || ResetUnknown(quota.secondary, floors.secondary, now)
    ensures !resetUnknown ==>
      resets == KnownReset(quota.primary, floors.primary, now) + KnownReset(quota.secondary, floors.secondary, now)
  {
    var windows := [(quota.primary, floors.primary), (quota.secondary, floors.secondary)];
    resets, resetUnknown := [], false;
    for i := 0 to 2
      invariant !resetUnknown
      invariant i >= 1 ==> !ResetUnknown(windows[0].0, windows[0].1, now)
      invariant i >= 2 ==> !ResetUnknown(windows[1].0, windows[1].1, now)
      invariant resets == (if i >= 1 then KnownReset(windows[0].0, windows[0].1, now) else [])
                        + (if i >= 2 then KnownReset(windows[1].0, windows[1].1, now) else [])
    {
      var (window, floor) := windows[i];
      if window.None? || ResetIsPast(window.value, now) { continue; }
      if AtLeast(window.value, floor) { continue; }
      if window.value.resetsAt.None? || window.value.resetsAt.value <= now {
        return [], true;
      }
      resets := resets + [window.value.resetsAt.value];
    }
  }

  lemma FirstOneMore(times: seq<Option<int>>, t: Option<int>)
    ensures First(times + [t]) == EarliestOf(First(times), t)
  {
    assert (times + [t])[..|times|] == times;
  }

  lemma FreeTimesOneMore(accounts: seq<Account>, a: Account, storage: Option<Storage>, now: int)
    ensures FirstFree(accounts + [a], storage, now)
         == EarliestOf(FirstFree(accounts, storage, now), FreeAt(a, storage, now))
  {
    FirstOneMore(FreeTimes(accounts, storage, now), FreeAt(a, storage, now));
    assert FreeTimes(accounts + [a], storage, now) == FreeTimes(accounts, storage, now) + [FreeAt(a, storage, now)];
  }

  /** The earliest of the times collected so far, as the minimum of a list. */
  function MinOf(times: seq<int>): (r: Option<int>)
    ensures r.None? <==> times == []
  {
    if times == [] then None
    else EarliestOf(MinOf(times[..|times| - 1]), Some(times[|times| - 1]))
  }

  lemma MinOneMore(times: seq<int>, t: int)
    ensures MinOf(times + [t]) == EarliestOf(MinOf(times), Some(t))
  {
    assert (times + [t])[..|times|] == times;
  }

  method KillswitchRetryAfterSeconds(
      mainQuota: Option<Quota>, fallbackAccounts: seq<Account>, now: int, storage: Option<Storage>)
    returns (seconds: int)
    ensures seconds == RetryAfter([Account(None, mainQuota)] + fallbackAccounts, now, storage)
  {
    if !Enabled(storage) { return NO_ESTIMATE_SECONDS; }
    var accounts := [Account(None, mainQuota)] + fallbackAccounts;
    var freeTimes: seq<int> := [];
    for i := 0 to |accounts|
      invariant MinOf(freeTimes) == FirstFree(accounts[..i], storage, now)
    {
      var account := accounts[i];
      assert accounts[..i + 1] == accounts[..i] + [account];
      FreeTimesOneMore(accounts[..i], account, storage, now);
      if account.quota.Some? {
        var resets, resetUnknown := ViolatingResets(account.quota.value, StorageFloors(storage, account.id), now);
        if !resetUnknown && |resets| > 0 {
          var free := if |resets| == 2 then Max(resets[0], resets[1]) else resets[0];
          assert FreeAt(account, storage, now) == Some(free);
          MinOneMore(freeTimes, free);
          freeTimes := freeTimes + [free];
        }
      }
    }
    assert accounts[..|accounts|] == accounts;
    if |freeTimes| == 0 { return NO_ESTIMATE_SECONDS; }
    var earliest := MinOf(freeTimes).value;
    seconds := Max(1, CeilSeconds(earliest - now));
  }

  /** Never less than a second; five minutes with the killswitch off, or when no account's time is known. */
  lemma RetryAfterFloor(accounts: seq<Account>, now: int, storage: Option<Storage>)
    ensures RetryAfter(accounts, now, storage) >= 1
    ensures !Enabled(storage) || (forall i :: 0 <= i < |accounts| ==> FreeAt(accounts[i], storage, now).None?) ==>
      RetryAfter(accounts, now, storage) == 300
  {
    var times := FreeTimes(accounts, storage, now);
    if First(times).Some? {
      FirstIsLeast(times, First(times).value);
    }
  }

  /** An account failing now passes at a later time exactly when that time reaches its release. */
  lemma PassesOnceReleased(a: Account, storage: Option<Storage>, now: int, t: int)
    requires !FailClosed(storage) && a.quota.Some? && !PassesPolicy(a.quota, storage, a.id, now) && now <= t
    ensures var released := ReleasedAt(a, storage, now);
            && (released.Some? ==> released.value > now)
            && (PassesPolicy(a.quota, storage, a.id, t) <==> released.Some? && released.value <= t)
  {
  }

  // ---------------------------------------------------------------------------
  // When the computed time is the release
  // ---------------------------------------------------------------------------

  /** A window that is waited for though it blocks nothing, for want of a number, will have reset by `time`. */
  predicate ResetsBy(w: Option<Window>, floor: Value, now: int, time: int) {
    w.Some? && !ResetIsPast(w.value, now) && floor.NotNumber? ==>
      w.value.resetsAt.Some? && w.value.resetsAt.value <= time
  }

  predicate Comparable(f: Floors) {
    !f.primary.NotNumber? && !f.secondary.NotNumber?
  }

  /** Windows whose floor is no number do not outlast the account's release. */
  predicate Unhindered(a: Account, storage: Option<Storage>, now: int) {
    var released := ReleasedAt(a, storage, now);
    released.Some? && a.quota.Some? ==>
      var floors := StorageFloors(storage, a.id);
      && ResetsBy(a.quota.value.primary, floors.primary, now, released.value)
      && ResetsBy(a.quota.value.secondary, floors.secondary, now, released.value)
  }

  /** The time computed for a failing account never comes before its release, and is it exactly when unhindered. */
  lemma FreeAtReleaseExactly(a: Account, storage: Option<Storage>, now: int)
    requires !FailClosed(storage) && a.quota.Some? && !PassesPolicy(a.quota, storage, a.id, now)
    ensures FreeAt(a, storage, now) == ReleasedAt(a, storage, now) <==> Unhindered(a, storage, now)
    ensures FreeAt(a, storage, now).Some? ==>
      ReleasedAt(a, storage, now).Some? && ReleasedAt(a, storage, now).value <= FreeAt(a, storage, now).value
  {
  }

  lemma {:induction false} FirstIsLeast(times: seq<Option<int>>, t: int)
    ensures var first := First(times);
            && (first.Some? && first.value <= t <==>
                  exists i :: 0 <= i < |times| && times[i].Some? && times[i].value <= t)
            && (first.Some? ==> exists i :: 0 <= i < |times| && times[i] == first)
  {
    if times != [] {
      var n := |times| - 1;
      var rest := times[..n];
      FirstIsLeast(rest, t);
      assert forall i :: 0 <= i < n ==> rest[i] == times[i];
      if First(rest).Some? {
        var i :| 0 <= i < n && rest[i] == First(rest);
        assert times[i] == First(rest);
      }
    }
  }

  /** Later times have a later earliest; it is the same exactly when one that attains it is the same. */
  lemma FirstOfLater(free: seq<Option<int>>, released: seq<Option<int>>)
    requires |free| == |released|
    requires forall i :: 0 <= i < |free| && free[i].Some? ==> released[i].Some? && released[i].value <= free[i].value
    ensures First(free) == First(released) <==>
      First(released).None? || exists i :: 0 <= i < |free| && released[i] == First(released) && free[i] == released[i]
  {
    var f, g := First(free), First(released);
    if f.Some? {
      FirstIsLeast(free, f.value);
      FirstIsLeast(released, f.value);
    }
    if g.Some? {
      FirstIsLeast(released, g.value);
      FirstIsLeast(free, g.value);
      if exists i :: 0 <= i < |free| && released[i] == g && free[i] == released[i] {
        var i :| 0 <= i < |free| && released[i] == g && free[i] == released[i];
        assert free[i].Some? && free[i].value <= g.value;
        FirstIsLeast(released, f.value);
      }
      if f == g {
        var i :| 0 <= i < |free| && free[i] == f;
        assert released[i].Some? && released[i].value <= g.value;
        FirstIsLeast(released, released[i].value);
      }
    }
  }

  predicate SomePasses(accounts: seq<Account>, storage: Option<Storage>, t: int) {
    exists i :: 0 <= i < |accounts| && PassesPolicy(accounts[i].quota, storage, accounts[i].id, t)
  }

  predicate AllFail(accounts: seq<Account>, storage: Option<Storage>, now: int) {
    forall i :: 0 <= i < |accounts| ==>
      accounts[i].quota.Some? && !PassesPolicy(accounts[i].quota, storage, accounts[i].id, now)
  }

  /** Some account passes from the earliest release on, and none before it. */
  lemma SomePassesFromRelease(accounts: seq<Account>, storage: Option<Storage>, now: int, t: int)
    requires !FailClosed(storage) && AllFail(accounts, storage, now) && now <= t
    ensures var first := First(ReleaseTimes(accounts, storage, now));
            SomePasses(accounts, storage, t) <==> first.Some? && first.value <= t
    ensures var first := First(ReleaseTimes(accounts, storage, now)); first.Some? ==> first.value > now
  {
    var times := ReleaseTimes(accounts, storage, now);
    FirstIsLeast(times, t);
    forall i | 0 <= i < |accounts| ensures
      && (PassesPolicy(accounts[i].quota, storage, accounts[i].id, t) <==> times[i].Some? && times[i].value <= t)
      && (times[i].Some? ==> times[i].value > now)
    {
      PassesOnceReleased(accounts[i], storage, now, t);
    }
  }

  /** An account released first has no window that is waited for longer; or none is ever released. */
  predicate FirstUnhindered(accounts: seq<Account>, storage: Option<Storage>, now: int) {
    var times := ReleaseTimes(accounts, storage, now);
    || First(times).None?
    || exists i :: 0 <= i < |accounts| && times[i] == First(times) && Unhindered(accounts[i], storage, now)
  }

  /** The computed time tells, for every time from now on, whether some account passes then. */
  ghost predicate TellsWhen(accounts: seq<Account>, storage: Option<Storage>, now: int) {
    var first := FirstFree(accounts, storage, now);
    forall t :: now <= t ==> (SomePasses(accounts, storage, t) <==> first.Some? && first.value <= t)
  }

  /**
   * Retry-After is exact, exactly when an account released first is unhindered. With the killswitch on,
   * fail-closed off and every account failing, the minimum over accounts of the maximum violating reset
   * is the time from which some account passes if and only if a floor that is no number does not keep
   * it waiting longer. Waiting the returned seconds reaches that minimum and overshoots it by less than
   * one second.
   */
  lemma RetryAfterExact(accounts: seq<Account>, storage: Option<Storage>, now: int)
    requires Enabled(storage) && !FailClosed(storage) && AllFail(accounts, storage, now)
    ensures TellsWhen(accounts, storage, now) <==> FirstUnhindered(accounts, storage, now)
    ensures var first := FirstFree(accounts, storage, now);
            first.Some? ==>
              first.value <= now + 1000 * RetryAfter(accounts, now, storage) < first.value + 1000
  {
    var free, released := FreeTimes(accounts, storage, now), ReleaseTimes(accounts, storage, now);
    forall i | 0 <= i < |accounts| ensures
      && (free[i] == released[i] <==> Unhindered(accounts[i], storage, now))
      && (free[i].Some? ==> released[i].Some? && released[i].value <= free[i].value)
    {
      FreeAtReleaseExactly(accounts[i], storage, now);
    }
    FirstOfLater(free, released);
    FreeAfterNow(accounts, storage, now);
    TellsWhenSame(accounts, storage, now);
  }

  /** A computed time is never before the first release, and so after now. */
  lemma FreeAfterNow(accounts: seq<Account>, storage: Option<Storage>, now: int)
    requires !FailClosed(storage) && AllFail(accounts, storage, now)
    ensures FirstFree(accounts, storage, now).Some? ==> FirstFree(accounts, storage, now).value > now
  {
    var times := FreeTimes(accounts, storage, now);
    if First(times).Some? {
      FirstIsLeast(times, First(times).value);
      var i :| 0 <= i < |times| && times[i] == First(times);
      FreeAtReleaseExactly(accounts[i], storage, now);
      PassesOnceReleased(accounts[i], storage, now, now);
    }
  }

  lemma TellsWhenSame(accounts: seq<Account>, storage: Option<Storage>, now: int)
    requires !FailClosed(storage) && AllFail(accounts, storage, now)
    ensures TellsWhen(accounts, storage, now) <==>
      FirstFree(accounts, storage, now) == First(ReleaseTimes(accounts, storage, now))
  {
    var f, g := FirstFree(accounts, storage, now), First(ReleaseTimes(accounts, storage, now));
    FreeAfterNow(accounts, storage, now);
    forall t | now <= t
      ensures SomePasses(accounts, storage, t) <==> g.Some? && g.value <= t
      ensures g.Some? ==> g.value > now
    {
      SomePassesFromRelease(accounts, storage, now, t);
    }
    if TellsWhen(accounts, storage, now) {
      assert g.Some? ==> now <= g.value by { SomePassesFromRelease(accounts, storage, now, now); }
      assert g.Some? ==> SomePasses(accounts, storage, g.value);
      assert f.Some? ==> SomePasses(accounts, storage, f.value);
    }
  }

  /** With floors that compare as numbers it is always exact. */
  lemma NumbersAreExact(accounts: seq<Account>, storage: Option<Storage>, now: int)
    requires Enabled(storage) && !FailClosed(storage) && AllFail(accounts, storage, now)
    requires forall i :: 0 <= i < |accounts| ==> Comparable(StorageFloors(storage, accounts[i].id))
    ensures TellsWhen(accounts, storage, now)
    ensures FirstFree(accounts, storage, now) == First(ReleaseTimes(accounts, storage, now))
  {
    var times := ReleaseTimes(accounts, storage, now);
    if First(times).Some? {
      FirstIsLeast(times, First(times).value);
      var i :| 0 <= i < |times| && times[i] == First(times);
      assert Unhindered(accounts[i], storage, now);
    }
    RetryAfterExact(accounts, storage, now);
    TellsWhenSame(accounts, storage, now);
  }

  const HINDERED_BLOCK := Block(
    true, Thresholds(Some(NotNumber("abc")), Some(Number(10.0)), None, None), None, None, None)
  const HINDERED_STORAGE := Some(Storage(Some(HINDERED_BLOCK), None))
  const HINDERED_QUOTA := Quota(Some(Window(50.0, Some(10_000_000))), Some(Window(5.0, Some(1_000_000))))

  /**
   * The exception is real: with "abc" for the primary floor the account passes once its secondary window
   * resets after 1,000 seconds, and the answer is 10,000.
   */
  lemma NotANumberOvershoots()
    ensures var main := Account(None, Some(HINDERED_QUOTA));
            && AllFail([main], HINDERED_STORAGE, 0) && Enabled(HINDERED_STORAGE) && !FailClosed(HINDERED_STORAGE)
            && PassesPolicy(main.quota, HINDERED_STORAGE, None, 1_000_000)
            && RetryAfter([main], 0, HINDERED_STORAGE) == 10_000
            && !FirstUnhindered([main], HINDERED_STORAGE, 0)
  {
    var main := Account(None, Some(HINDERED_QUOTA));
    assert FreeAt(main, HINDERED_STORAGE, 0) == Some(10_000_000);
    assert ReleasedAt(main, HINDERED_STORAGE, 0) == Some(1_000_000);
    FirstOneMore([], Some(10_000_000));
    FirstOneMore([], Some(1_000_000));
    assert FreeTimes([main], HINDERED_STORAGE, 0) == [] + [Some(10_000_000)];
    assert ReleaseTimes([main], HINDERED_STORAGE, 0) == [] + [Some(1_000_000)];
  }
}
