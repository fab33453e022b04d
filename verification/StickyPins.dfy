/**
 * The sticky-pin ledger (packages/opencode/src/sidebar-state.ts): which account a session is pinned
 * to, decided from one snapshot of the file, and the record kept of it.
 */
module StickyPins {
  import opened Prelude

  datatype Pin = Pin(
    accountId: string,
    assignedAt: int,
    lastSeenAt: int,
    inputBytes: nat,
    quotaCheckedAt: Option<int>,
    wireAccountId: Option<string>)

  /** Pins by session hash. */
  type Pins = map<string, Pin>

  /** The parts of the sidebar file the ledger reads and writes. */
  datatype Sidebar = Sidebar(pins: Option<Pins>, lastUpdated: int)

  /** Bytes by account; an account with none has no entry. */
  type Bytes = map<string, nat>

  datatype Choice = Choice(accountId: string, quotaCheckedAt: Option<int>)

  datatype Input = Input(
    session: string,
    requestBytes: nat,
    now: int,
    valid: set<string>,
    excluded: set<string>,
    quotaCheckedAt: map<string, int>,
    wireAccounts: map<string, string>,
    choose: Bytes -> Option<Choice>)

  datatype Plan = Plan(assignment: Option<Pin>, next: Option<Sidebar>)

  const MAX_AGE_MS := 7 * 24 * 60 * 60 * 1000
  const MAX_ENTRIES := 256
  const LAST_SEEN_TOUCH_MS := 60 * 60 * 1000

  function Lookup<V>(m: map<string, V>, key: string): Option<V> {
    if key in m then Some(m[key]) else None
  }

  function PinOf(pins: Option<Pins>, session: string): Option<Pin> {
    if pins.Some? then Lookup(pins.value, session) else None
  }

  // ---------------------------------------------------------------------------
  // Pruning and validity
  // ---------------------------------------------------------------------------

  predicate Expired(p: Pin, now: int) {
    p.lastSeenAt < now - MAX_AGE_MS
  }

  predicate Keeps(p: Pin, valid: set<string>, now: int) {
    !Expired(p, now) && p.accountId in valid
  }

  function Prune(pins: Option<Pins>, valid: set<string>, now: int): Option<Pins> {
    if pins.None? then None
    else
      var kept := map s | s in pins.value && Keeps(pins.value[s], valid, now) :: pins.value[s];
      if kept == map[] then None else Some(kept)
  }

  predicate IsValid(p: Pin, input: Input) {
    p.accountId in input.valid && p.accountId !in input.excluded && p.lastSeenAt >= input.now - MAX_AGE_MS
  }

  /** The slot is known to hold another ChatGPT account than when the session was placed. */
  predicate IdentityMismatch(p: Pin, wire: Option<string>) {
    p.wireAccountId.Some? && wire.Some? && p.wireAccountId != wire
  }

  predicate NeedsUpdate(p: Pin, requestBytes: nat, now: int, wire: Option<string>) {
    || requestBytes > p.inputBytes
    || now - p.lastSeenAt >= LAST_SEEN_TOUCH_MS
    || (p.wireAccountId.None? && wire.Some?)
  }

  function Refreshed(p: Pin, requestBytes: nat, now: int, wire: Option<string>): Pin {
    p.(inputBytes := Max(p.inputBytes, requestBytes),
       wireAccountId := if p.wireAccountId.None? then wire else p.wireAccountId,
       lastSeenAt := if now - p.lastSeenAt >= LAST_SEEN_TOUCH_MS then now else p.lastSeenAt)
  }

  // ---------------------------------------------------------------------------
  // Pending bytes
  // ---------------------------------------------------------------------------

  /** The pin counts against its account's current quota reading. */
  predicate Counts(pins: Pins, quota: map<string, int>, excluded: Option<string>, s: string)
    requires s in pins
  {
    Some(s) != excluded && pins[s].quotaCheckedAt == Lookup(quota, pins[s].accountId)
  }

  /** The sessions that count against `account`. */
  function CountedOn(pins: Pins, quota: map<string, int>, excluded: Option<string>, account: string): set<string> {
    set s | s in pins && Counts(pins, quota, excluded, s) && pins[s].accountId == account
  }

  /** The input bytes of `sessions`, added up. */
  ghost function TotalBytes(pins: Pins, sessions: set<string>): nat
    requires sessions <= pins.Keys
  {
    if sessions == {} then 0
    else
      var s :| s in sessions;
      pins[s].inputBytes + TotalBytes(pins, sessions - {s})
  }

  lemma {:induction false} TotalBytesWithout(pins: Pins, sessions: set<string>, s: string)
    requires sessions <= pins.Keys && s in sessions
    ensures TotalBytes(pins, sessions) == pins[s].inputBytes + TotalBytes(pins, sessions - {s})
    decreases |sessions|
  {
    var t :| t in sessions && TotalBytes(pins, sessions) == pins[t].inputBytes + TotalBytes(pins, sessions - {t});
    if s != t {
      TotalBytesWithout(pins, sessions - {t}, s);
      TotalBytesWithout(pins, sessions - {s}, t);
      assert sessions - {t} - {s} == sessions - {s} - {t};
    }
  }

  lemma {:induction false} TotalBytesAgree(a: Pins, b: Pins, sessions: set<string>)
    requires sessions <= a.Keys && sessions <= b.Keys
    requires forall s :: s in sessions ==> a[s].inputBytes == b[s].inputBytes
    ensures TotalBytes(a, sessions) == TotalBytes(b, sessions)
    decreases |sessions|
  {
    if sessions != {} {
      var s :| s in sessions;
      TotalBytesWithout(a, sessions, s);
      TotalBytesWithout(b, sessions, s);
      TotalBytesAgree(a, b, sessions - {s});
    }
  }

  /** The bytes other sessions have committed to `account` on its current quota reading. */
  ghost function PendingOn(pins: Pins, quota: map<string, int>, excluded: Option<string>, account: string): nat {
    TotalBytes(pins, CountedOn(pins, quota, excluded, account))
  }

  /** The accounts something counts against. */
  function CommittedAccounts(pins: Pins, quota: map<string, int>, excluded: Option<string>): set<string> {
    set s | s in pins && Counts(pins, quota, excluded, s) :: pins[s].accountId
  }

  ghost function PendingBytes(pins: Pins, quota: map<string, int>, excluded: Option<string>): Bytes {
    map a | a in CommittedAccounts(pins, quota, excluded) :: PendingOn(pins, quota, excluded, a)
  }

  ghost function Restrict(pins: Pins, sessions: set<string>): Pins {
    map s | s in pins && s in sessions :: pins[s]
  }

  method PendingBytesForAssignments(pins: Pins, quota: map<string, int>, excluded: Option<string>)
    returns (pending: Bytes)
    ensures pending == PendingBytes(pins, quota, excluded)
  {
    pending := map[];
    var left := pins.Keys;
    ghost var done: set<string> := {};
    while left != {}
      invariant done !! left && done + left == pins.Keys
      invariant Matches(pending, Restrict(pins, done), quota, excluded)
      decreases left
    {
      var s :| s in left;
      ghost var before := pending;
      if Some(s) != excluded && pins[s].quotaCheckedAt == Lookup(quota, pins[s].accountId) {
        var a := pins[s].accountId;
        pending := pending[a := Lookup(pending, a).GetOr(0) + pins[s].inputBytes];
      }
      CountingOneMore(before, pending, Restrict(pins, done), s, pins[s], quota, excluded);
      RestrictOneMore(pins, done, s);
      left, done := left - {s}, done + {s};
    }
    assert Restrict(pins, done) == pins;
    MatchesPending(pending, pins, quota, excluded);
  }

  lemma MatchesPending(pending: Bytes, pins: Pins, quota: map<string, int>, excluded: Option<string>)
    requires Matches(pending, pins, quota, excluded)
    ensures pending == PendingBytes(pins, quota, excluded)
  {
  }

  lemma RestrictOneMore(pins: Pins, sessions: set<string>, s: string)
    requires s in pins
    ensures Restrict(pins, sessions + {s}) == Restrict(pins, sessions)[s := pins[s]]
  {
  }

  ghost predicate Matches(pending: Bytes, pins: Pins, quota: map<string, int>, excluded: Option<string>) {
    && pending.Keys == CommittedAccounts(pins, quota, excluded)
    && forall a :: a in pending ==> pending[a] == PendingOn(pins, quota, excluded, a)
  }

  /** One more pin adds its bytes to its own account, if it counts, and nothing elsewhere. */
  lemma CountingOneMore(
      before: Bytes, after: Bytes, pins: Pins, s: string, p: Pin, quota: map<string, int>, excluded: Option<string>)
    requires s !in pins && Matches(before, pins, quota, excluded)
    requires after == if Some(s) != excluded && p.quotaCheckedAt == Lookup(quota, p.accountId)
                      then before[p.accountId := Lookup(before, p.accountId).GetOr(0) + p.inputBytes] else before
    ensures Matches(after, pins[s := p], quota, excluded)
  {
    CommittedOneMore(pins, s, p, quota, excluded);
    NothingPending(pins, quota, excluded, p.accountId);
    forall a | a in after ensures after[a] == PendingOn(pins[s := p], quota, excluded, a) {
      PendingOneMore(pins, s, p, quota, excluded, a);
    }
  }

  lemma NothingPending(pins: Pins, quota: map<string, int>, excluded: Option<string>, a: string)
    ensures a !in CommittedAccounts(pins, quota, excluded) ==> PendingOn(pins, quota, excluded, a) == 0
  {
    if a !in CommittedAccounts(pins, quota, excluded) {
      assert CountedOn(pins, quota, excluded, a) == {};
    }
  }

  lemma CommittedOneMore(pins: Pins, s: string, p: Pin, quota: map<string, int>, excluded: Option<string>)
    requires s !in pins
    ensures CommittedAccounts(pins[s := p], quota, excluded) == CommittedAccounts(pins, quota, excluded)
      + if Counts(pins[s := p], quota, excluded, s) then {p.accountId} else {}
  {
    var grown := pins[s := p];
    forall t | t in pins && Counts(pins, quota, excluded, t)
      ensures pins[t].accountId in CommittedAccounts(grown, quota, excluded)
    {
      assert Counts(grown, quota, excluded, t) && grown[t] == pins[t];
    }
    forall t | t in grown && Counts(grown, quota, excluded, t) && t != s
      ensures grown[t].accountId in CommittedAccounts(pins, quota, excluded)
    {
      assert Counts(pins, quota, excluded, t);
    }
  }

  lemma PendingOneMore(pins: Pins, s: string, p: Pin, quota: map<string, int>, excluded: Option<string>, a: string)
    requires s !in pins
    ensures var grown := pins[s := p];
            PendingOn(grown, quota, excluded, a) == PendingOn(pins, quota, excluded, a)
              + if Counts(grown, quota, excluded, s) && a == p.accountId then p.inputBytes else 0
  {
    var grown := pins[s := p];
    var before, after := CountedOn(pins, quota, excluded, a), CountedOn(grown, quota, excluded, a);
    TotalBytesAgree(pins, grown, before);
    if Counts(grown, quota, excluded, s) && a == p.accountId {
      assert after == before + {s};
      TotalBytesWithout(grown, after, s);
      assert after - {s} == before;
    } else {
      assert after == before;
    }
  }

  // ---------------------------------------------------------------------------
  // The size limit
  // ---------------------------------------------------------------------------

  /** The order of two session hashes, which are lower-case hexadecimal text. */
  predicate LexLess(a: string, b: string) {
    && b != []
    && (a == [] || a[0] < b[0] || (a[0] == b[0] && LexLess(a[1..], b[1..])))
  }

  lemma {:induction false} LexTotal(a: string, b: string)
    ensures a == b || LexLess(a, b) || LexLess(b, a)
  {
    if a != [] && b != [] && a[0] == b[0] {
      LexTotal(a[1..], b[1..]);
      assert a == [a[0]] + a[1..] && b == [b[0]] + b[1..];
    }
  }

  lemma {:induction false} LexTransitive(a: string, b: string, c: string)
    requires LexLess(a, b) && LexLess(b, c)
    ensures LexLess(a, c)
  {
    if a != [] && a[0] == b[0] == c[0] {
      LexTransitive(a[1..], b[1..], c[1..]);
    }
  }

  /** Seen longer ago, and among equals the smaller session hash. */
  predicate Older(pins: Pins, s: string, t: string)
    requires s in pins && t in pins
  {
    || pins[s].lastSeenAt < pins[t].lastSeenAt
    || (pins[s].lastSeenAt == pins[t].lastSeenAt && LexLess(s, t))
  }

  ghost predicate IsOldest(pins: Pins, among: set<string>, s: string)
    requires among <= pins.Keys
  {
    s in among && forall t :: t in among && t != s ==> Older(pins, s, t)
  }

  lemma {:induction false} OldestExists(pins: Pins, among: set<string>)
    requires among <= pins.Keys && among != {}
    ensures exists s :: IsOldest(pins, among, s)
    decreases |among|
  {
    var s :| s in among;
    var rest := among - {s};
    if rest == {} {
      assert among == {s};
      assert IsOldest(pins, among, s);
    } else {
      OldestExists(pins, rest);
      var o :| IsOldest(pins, rest, o);
      LexTotal(o, s);
      if Older(pins, o, s) {
        assert IsOldest(pins, among, o);
      } else {
        forall t | t in rest && t != o ensures Older(pins, s, t) {
          if pins[s].lastSeenAt == pins[t].lastSeenAt {
            LexTransitive(s, o, t);
          }
        }
        assert IsOldest(pins, among, s);
      }
    }
  }

  ghost function Oldest(pins: Pins, among: set<string>): (s: string)
    requires among <= pins.Keys && among != {}
    ensures IsOldest(pins, among, s)
  {
    OldestExists(pins, among);
    var s :| IsOldest(pins, among, s);
    s
  }

  /** `count` pins fewer, the oldest going first and the protected one never. */
  ghost function EvictOldest(pins: Pins, protected: string, count: nat): Pins
    decreases count
  {
    var among := pins.Keys - {protected};
    if count == 0 || among == {} then pins
    else EvictOldest(pins - {Oldest(pins, among)}, protected, count - 1)
  }

  ghost function LimitPins(pins: Pins, protected: string): Pins {
    if |pins| <= MAX_ENTRIES then pins else EvictOldest(pins, protected, |pins| - MAX_ENTRIES)
  }

  /** What is left of `before`: the protected pin, and no pin older than one that was dropped. */
  ghost predicate KeepsYoungest(before: Pins, after: Pins, protected: string) {
    && after.Keys <= before.Keys
    && (forall s :: s in after ==> after[s] == before[s])
    && (protected in before ==> protected in after)
    && forall e, k :: e in before && e !in after && k in after && k != protected ==> Older(before, e, k)
  }

  lemma {:induction false} EvictingKeepsYoungest(pins: Pins, protected: string, count: nat)
    requires protected in pins && count < |pins|
    ensures var after := EvictOldest(pins, protected, count);
            KeepsYoungest(pins, after, protected) && |after| == |pins| - count
    decreases count
  {
    var among := pins.Keys - {protected};
    assert |among| == |pins| - 1;
    if count != 0 {
      var o := Oldest(pins, among);
      var rest := pins - {o};
      assert rest.Keys == pins.Keys - {o};
      assert |rest| == |rest.Keys| == |pins| - 1;
      EvictingKeepsYoungest(rest, protected, count - 1);
      var after := EvictOldest(rest, protected, count - 1);
      forall e, k | e in pins && e !in after && k in after && k != protected ensures Older(pins, e, k) {
        assert k in among && k != o;
        if e != o {
          assert Older(rest, e, k);
        }
      }
    }
  }

  /** At most 256 pins are left, exactly the most recently seen ones beside the protected one. */
  lemma LimitedToYoungest(pins: Pins, protected: string)
    requires protected in pins
    ensures var after := LimitPins(pins, protected);
            && KeepsYoungest(pins, after, protected)
            && |after| == if |pins| <= MAX_ENTRIES then |pins| else MAX_ENTRIES
  {
    if |pins| > MAX_ENTRIES {
      EvictingKeepsYoungest(pins, protected, |pins| - MAX_ENTRIES);
    }
  }

  // ---------------------------------------------------------------------------
  // Planning
  // ---------------------------------------------------------------------------

  function Held(pins: Option<Pins>): Pins { pins.GetOr(map[]) }

  function Updated(latest: Sidebar, pins: Option<Pins>, now: int): Sidebar {
    Sidebar(pins, Max(now, latest.lastUpdated + 1))
  }

  /** The pin the session keeps, when it may: a valid one, on a slot not known to have changed hands. */
  predicate MayKeep(p: Pin, input: Input) {
    IsValid(p, input) && !IdentityMismatch(p, Lookup(input.wireAccounts, p.accountId))
  }

  function Kept(p: Pin, input: Input): Pin {
    var wire := Lookup(input.wireAccounts, p.accountId);
    if NeedsUpdate(p, input.requestBytes, input.now, wire) then Refreshed(p, input.requestBytes, input.now, wire) else p
  }

  function Placed(choice: Choice, input: Input): Pin {
    Pin(choice.accountId, input.now, input.now, input.requestBytes, choice.quotaCheckedAt,
        Lookup(input.wireAccounts, choice.accountId))
  }

  /** The session left out of the bytes the chooser weighs: its own, when its slot changed hands. */
  function LeftOut(current: Option<Pin>, input: Input): Option<string> {
    if current.Some? && IdentityMismatch(current.value, Lookup(input.wireAccounts, current.value.accountId))
    then Some(input.session) else None
  }

  ghost function Chosen(pins: Option<Pins>, input: Input): Option<Choice> {
    input.choose(PendingBytes(Held(pins), input.quotaCheckedAt, LeftOut(PinOf(pins, input.session), input)))
  }

  ghost function PlanAssignment(latest: Sidebar, input: Input): Plan {
    var pins := Prune(latest.pins, input.valid, input.now);
    var pruned := latest.pins != pins;
    var current := PinOf(pins, input.session);
    if current.Some? && MayKeep(current.value, input) then
      var assignment := Kept(current.value, input);
      var wire := Lookup(input.wireAccounts, current.value.accountId);
      if !pruned && !NeedsUpdate(current.value, input.requestBytes, input.now, wire) then Plan(Some(assignment), None)
      else Plan(Some(assignment), Some(Updated(latest, Some(Held(pins)[input.session := assignment]), input.now)))
    else
      var choice := Chosen(pins, input);
      if choice.None? then Plan(None, if pruned then Some(Updated(latest, pins, input.now)) else None)
      else
        var assignment := Placed(choice.value, input);
        var limited := LimitPins(Held(pins)[input.session := assignment], input.session);
        Plan(Some(assignment), Some(Updated(latest, Some(limited), input.now)))
  }

  /** The recorded pin can be used as it is. */
  predicate IsCurrent(existing: Option<Pin>, input: Input) {
    && existing.Some?
    && MayKeep(existing.value, input)
    && !NeedsUpdate(existing.value, input.requestBytes, input.now,
                    Lookup(input.wireAccounts, existing.value.accountId))
  }

  ghost function PlanFromSnapshot(state: Sidebar, input: Input): Plan {
    var existing := PinOf(state.pins, input.session);
    if IsCurrent(existing, input) then Plan(existing, None) else PlanAssignment(state, input)
  }

  /** The fast path answers what full planning answers; it only leaves the pruning of other pins undone. */
  lemma FastPathRefines(state: Sidebar, input: Input)
    ensures PlanFromSnapshot(state, input).assignment == PlanAssignment(state, input).assignment
    ensures PlanFromSnapshot(state, input).next != PlanAssignment(state, input).next
      <==> IsCurrent(PinOf(state.pins, input.session), input) && Prune(state.pins, input.valid, input.now) != state.pins
  {
    var existing := PinOf(state.pins, input.session);
    if IsCurrent(existing, input) {
      PruneShrinks(state.pins, input.valid, input.now);
      assert input.session in Held(state.pins) && Keeps(existing.value, input.valid, input.now);
      assert PinOf(Prune(state.pins, input.valid, input.now), input.session) == existing;
    }
  }

  /** What a request knows of the bytes committed elsewhere: live pins of the other accounts' readings. */
  ghost function Weights(latest: Sidebar, input: Input): Bytes {
    var live := Held(Prune(latest.pins, input.valid, input.now));
    PendingBytes(live, input.quotaCheckedAt, LeftOut(PinOf(Some(live), input.session), input))
  }

  /**
   * What the chooser weighs: over the live pins, on each account those placed on its current quota reading; the
   * session's own too, unless its slot is known to hold another ChatGPT account by now.
   */
  lemma WeightsExactly(latest: Sidebar, input: Input, a: string)
    ensures var recorded := PinOf(latest.pins, input.session);
            var live := Held(Prune(latest.pins, input.valid, input.now));
            var moved := input.session in live && recorded.value.wireAccountId.Some?
              && recorded.value.accountId in input.wireAccounts
              && recorded.value.wireAccountId.value != input.wireAccounts[recorded.value.accountId];
            var counted := set s | s in live && live[s].accountId == a && !(moved && s == input.session)
              && live[s].quotaCheckedAt == Lookup(input.quotaCheckedAt, a);
            && (a in Weights(latest, input) <==> counted != {})
            && Lookup(Weights(latest, input), a).GetOr(0) == TotalBytes(live, counted)
  {
    PruneShrinks(latest.pins, input.valid, input.now);
    var live := Held(Prune(latest.pins, input.valid, input.now));
    var excluded := LeftOut(PinOf(Some(live), input.session), input);
    var counted := CountedOn(live, input.quotaCheckedAt, excluded, a);
    assert a in CommittedAccounts(live, input.quotaCheckedAt, excluded) <==> counted != {} by {
      assert forall s :: s in counted ==> s in live && Counts(live, input.quotaCheckedAt, excluded, s);
      if a in CommittedAccounts(live, input.quotaCheckedAt, excluded) {
        var s :| s in live && Counts(live, input.quotaCheckedAt, excluded, s) && live[s].accountId == a;
        assert s in counted;
      }
      if s :| s in counted {
        assert live[s].accountId == a;
      }
    }
    NothingPending(live, input.quotaCheckedAt, excluded, a);
    CountedLiterally(latest, input, a);
  }

  lemma CountedLiterally(latest: Sidebar, input: Input, a: string)
    ensures var recorded := PinOf(latest.pins, input.session);
            var live := Held(Prune(latest.pins, input.valid, input.now));
            var moved := input.session in live && recorded.value.wireAccountId.Some?
              && recorded.value.accountId in input.wireAccounts
              && recorded.value.wireAccountId.value != input.wireAccounts[recorded.value.accountId];
            CountedOn(live, input.quotaCheckedAt, LeftOut(PinOf(Some(live), input.session), input), a)
            == set s | s in live && live[s].accountId == a && !(moved && s == input.session)
                 && live[s].quotaCheckedAt == Lookup(input.quotaCheckedAt, a)
  {
    PruneShrinks(latest.pins, input.valid, input.now);
  }

  /** Seen within seven days, on an account the session may use and whose ChatGPT account is not known to differ. */
  predicate StillHolds(p: Pin, input: Input) {
    && p.accountId in input.valid - input.excluded
    && input.now - p.lastSeenAt <= 604_800_000
    && (p.wireAccountId.Some? && p.accountId in input.wireAccounts ==>
          p.wireAccountId.value == input.wireAccounts[p.accountId])
  }

  /**
   * The decision, from the recorded pin: one that still holds keeps its placement, covers the request
   * and was seen within the hour; any other session goes where the chooser puts it, from now on and
   * under the quota reading the choice was made on, or nowhere when the chooser finds nothing.
   */
  lemma PlanKeepsOrPlaces(latest: Sidebar, input: Input)
    ensures var a := PlanAssignment(latest, input).assignment;
            var recorded := PinOf(latest.pins, input.session);
            if recorded.Some? && StillHolds(recorded.value, input) then
              && a.Some?
              && a.value.accountId == recorded.value.accountId && a.value.assignedAt == recorded.value.assignedAt
              && a.value.quotaCheckedAt == recorded.value.quotaCheckedAt
              && a.value.inputBytes == Max(recorded.value.inputBytes, input.requestBytes)
              && a.value.lastSeenAt == (if input.now - recorded.value.lastSeenAt < 3_600_000
                                        then recorded.value.lastSeenAt else input.now)
              && a.value.wireAccountId == if recorded.value.wireAccountId.Some? then recorded.value.wireAccountId
                                          else Lookup(input.wireAccounts, a.value.accountId)
            else
              var choice := input.choose(Weights(latest, input));
              && a.Some? == choice.Some?
              && (a.Some? ==>
                    && a.value.accountId == choice.value.accountId
                    && a.value.quotaCheckedAt == choice.value.quotaCheckedAt
                    && a.value.assignedAt == a.value.lastSeenAt == input.now
                    && a.value.inputBytes == input.requestBytes
                    && a.value.wireAccountId == Lookup(input.wireAccounts, choice.value.accountId))
  {
    PruneShrinks(latest.pins, input.valid, input.now);
    var live := Prune(latest.pins, input.valid, input.now);
    assert PinOf(live, input.session) == PinOf(Some(Held(live)), input.session);
    var recorded := PinOf(latest.pins, input.session);
    if recorded.Some? {
      assert input.session in Held(latest.pins);
      assert StillHolds(recorded.value, input) <==> MayKeep(recorded.value, input);
    }
  }

  // ---------------------------------------------------------------------------
  // Planning keeps the ledger bounded and exact
  // ---------------------------------------------------------------------------

  lemma PruneShrinks(pins: Option<Pins>, valid: set<string>, now: int)
    ensures var kept := Prune(pins, valid, now);
            && Held(kept).Keys <= Held(pins).Keys && |Held(kept)| <= |Held(pins)|
            && forall s :: s in Held(kept) <==> s in Held(pins) && Keeps(Held(pins)[s], valid, now)
    ensures forall s :: s in Held(Prune(pins, valid, now)) ==> Held(Prune(pins, valid, now))[s] == Held(pins)[s]
  {
    var kept := Held(Prune(pins, valid, now));
    Smaller(kept.Keys, Held(pins).Keys);
    assert |kept| == |kept.Keys| && |Held(pins)| == |Held(pins).Keys|;
  }

  lemma {:induction false} Smaller<T>(a: set<T>, b: set<T>)
    requires a <= b
    ensures |a| <= |b|
  {
    if a != {} {
      var x :| x in a;
      Smaller(a - {x}, b - {x});
    }
  }

  /** Whatever is written is at most 256 pins when at most 256 were read, the session's own among them. */
  lemma PlanBounded(latest: Sidebar, input: Input)
    requires |Held(latest.pins)| <= MAX_ENTRIES
    ensures var plan := PlanAssignment(latest, input);
            plan.next.Some? ==>
              && |Held(plan.next.value.pins)| <= MAX_ENTRIES
              && plan.next.value.lastUpdated > latest.lastUpdated
              && (plan.assignment.Some? ==> PinOf(plan.next.value.pins, input.session) == plan.assignment)
              && KeepsYoungest(PlannedPins(latest, input), Held(plan.next.value.pins), input.session)
  {
    PruneShrinks(latest.pins, input.valid, input.now);
    var plan := PlanAssignment(latest, input);
    var kept := Held(Prune(latest.pins, input.valid, input.now));
    if plan.assignment.Some? {
      LimitedToYoungest(kept[input.session := plan.assignment.value], input.session);
      if input.session in kept {
        assert kept[input.session := plan.assignment.value].Keys == kept.Keys;
        assert |kept[input.session := plan.assignment.value]| == |kept.Keys|;
      }
    }
  }

  /** The live pins with the session's own brought up to date, before the size limit. */
  ghost function PlannedPins(latest: Sidebar, input: Input): Pins {
    var kept := Held(Prune(latest.pins, input.valid, input.now));
    var plan := PlanAssignment(latest, input);
    if plan.assignment.Some? then kept[input.session := plan.assignment.value] else kept
  }

  /** Seen within seven days, on an account still in use. */
  predicate Live(p: Pin, valid: set<string>, now: int) {
    now - p.lastSeenAt <= 604_800_000 && p.accountId in valid
  }

  /**
   * Nothing is written exactly when the file already says it: every recorded pin is live, and the session has
   * the pin recorded for it, or none when it has none to keep.
   */
  lemma PlanWritesWhatChanged(latest: Sidebar, input: Input)
    ensures var plan := PlanAssignment(latest, input);
            var recorded := PinOf(latest.pins, input.session);
            plan.next.None? <==>
              && latest.pins != Some(map[])
              && (forall s :: s in Held(latest.pins) ==> Live(Held(latest.pins)[s], input.valid, input.now))
              && (if recorded.Some? && StillHolds(recorded.value, input) then plan.assignment == recorded
                  else plan.assignment.None?)
  {
    PruneShrinks(latest.pins, input.valid, input.now);
    var pins := Prune(latest.pins, input.valid, input.now);
    assert pins == latest.pins <==>
      latest.pins != Some(map[])
      && forall s :: s in Held(latest.pins) ==> Live(Held(latest.pins)[s], input.valid, input.now) by {
      UnprunedExactly(latest.pins, input.valid, input.now);
    }
    var recorded := PinOf(latest.pins, input.session);
    if recorded.Some? {
      assert input.session in Held(latest.pins);
      assert StillHolds(recorded.value, input) <==> MayKeep(recorded.value, input);
    }
  }

  lemma UnprunedExactly(pins: Option<Pins>, valid: set<string>, now: int)
    ensures Prune(pins, valid, now) == pins <==>
      pins != Some(map[]) && forall s :: s in Held(pins) ==> Live(Held(pins)[s], valid, now)
  {
    if pins.Some? {
      var kept := map s | s in pins.value && Keeps(pins.value[s], valid, now) :: pins.value[s];
      if forall s :: s in pins.value ==> Live(pins.value[s], valid, now) {
        assert kept == pins.value;
      } else {
        var s :| s in pins.value && !Live(pins.value[s], valid, now);
        PruneShrinks(pins, valid, now);
        assert s in Held(pins) && s !in Held(Prune(pins, valid, now));
      }
    }
  }

  /**
   * What a plan that writes leaves of the other sessions' pins: live ones, unchanged; and it drops a live one only
   * for the limit, when 256 are left and every other one is younger. The file's time goes on.
   */
  lemma PlanLeavesOthers(latest: Sidebar, input: Input, s: string)
    requires PlanAssignment(latest, input).next.Some? && s != input.session
    ensures var before, next := Held(latest.pins), PlanAssignment(latest, input).next.value;
            var after := Held(next.pins);
            && (s in after ==> s in before && Live(before[s], input.valid, input.now) && after[s] == before[s])
            && (s in before && Live(before[s], input.valid, input.now) && s !in after ==>
                  |after| == 256 && forall k :: k in after && k != input.session ==> k in before && Older(before, s, k))
            && next.lastUpdated == if input.now > latest.lastUpdated then input.now else latest.lastUpdated + 1
  {
    PruneShrinks(latest.pins, input.valid, input.now);
    var plan := PlanAssignment(latest, input);
    var live := Held(Prune(latest.pins, input.valid, input.now));
    if plan.assignment.Some? {
      OthersLimited(live, input.session, plan.assignment.value, s);
    }
    var after := Held(plan.next.value.pins);
    forall k | k in after && k != input.session && s in live && k in live && Older(live, s, k)
      ensures Older(Held(latest.pins), s, k)
    {
    }
  }

  /** The size limit, seen from another session than the one written. */
  lemma OthersLimited(live: Pins, session: string, p: Pin, s: string)
    requires s != session
    ensures var after := LimitPins(live[session := p], session);
            && session in after && after[session] == p
            && (s in after ==> s in live && after[s] == live[s])
            && (s in live && s !in after ==>
                  |after| == 256 && forall k :: k in after && k != session ==> k in live && Older(live, s, k))
  {
    var planned := live[session := p];
    LimitedToYoungest(planned, session);
    var after := LimitPins(planned, session);
    forall k | k in after && k != session && s in live && s !in after ensures k in live && Older(live, s, k) {
      assert Older(planned, s, k);
    }
  }

  /** Leaving a session out is the same as not having its pin. */
  lemma LeavingOut(pins: Pins, quota: map<string, int>, s: string, a: string)
    ensures PendingOn(pins, quota, Some(s), a) == PendingOn(pins - {s}, quota, None, a)
  {
    var others := pins - {s};
    assert CountedOn(others, quota, None, a) == CountedOn(pins, quota, Some(s), a);
    TotalBytesAgree(pins, others, CountedOn(others, quota, None, a));
  }

  /** The bytes on `a` once the session's pin is `p`: those of the others, and its own. */
  lemma PendingWith(pins: Pins, s: string, p: Pin, quota: map<string, int>, a: string)
    ensures PendingOn(pins[s := p], quota, None, a) == PendingOn(pins, quota, Some(s), a)
      + if a == p.accountId && p.quotaCheckedAt == Lookup(quota, a) then p.inputBytes else 0
  {
    var others := pins - {s};
    LeavingOut(pins, quota, s, a);
    PendingOneMore(others, s, p, quota, None, a);
    assert others[s := p] == pins[s := p];
  }

  lemma {:induction false} TotalBytesSplit(pins: Pins, sessions: set<string>, part: set<string>)
    requires sessions <= pins.Keys && part <= sessions
    ensures TotalBytes(pins, sessions) == TotalBytes(pins, part) + TotalBytes(pins, sessions - part)
    decreases |part|
  {
    if part == {} {
      assert sessions - part == sessions;
    } else {
      var s :| s in part;
      TotalBytesWithout(pins, sessions, s);
      TotalBytesWithout(pins, part, s);
      TotalBytesSplit(pins, sessions - {s}, part - {s});
      assert sessions - {s} - (part - {s}) == sessions - part;
    }
  }

  /** The bytes that counted on `a` in pins the size limit dropped. */
  ghost function DroppedBytes(before: Pins, after: Pins, quota: map<string, int>, a: string): nat {
    TotalBytes(before, CountedOn(before, quota, None, a) - after.Keys)
  }

  lemma DroppingLowersPending(before: Pins, after: Pins, quota: map<string, int>, a: string)
    requires after.Keys <= before.Keys && forall s :: s in after ==> after[s] == before[s]
    ensures PendingOn(before, quota, None, a)
         == PendingOn(after, quota, None, a) + DroppedBytes(before, after, quota, a)
  {
    var all, left := CountedOn(before, quota, None, a), CountedOn(after, quota, None, a);
    TotalBytesSplit(before, all, left);
    assert all - left == all - after.Keys;
    TotalBytesAgree(before, after, left);
  }

  /** What was written is what was planned, less what the size limit dropped. */
  lemma WrittenIsLimited(latest: Sidebar, input: Input)
    requires PlanAssignment(latest, input).next.Some?
    ensures var after := Held(PlanAssignment(latest, input).next.value.pins);
            var planned := PlannedPins(latest, input);
            && after.Keys <= planned.Keys && (forall s :: s in after ==> after[s] == planned[s])
            && (|planned| <= MAX_ENTRIES ==> after == planned)
  {
    var plan := PlanAssignment(latest, input);
    if plan.assignment.Some? {
      LimitedToYoungest(PlannedPins(latest, input), input.session);
    }
  }

  /**
   * What the next planner sees: on every account the bytes of the other live sessions, and on the
   * planned pin's own account its bytes as well, when it was placed on the current quota reading;
   * less, past 256 pins, the bytes of the ones dropped.
   */
  lemma PlanRaisesPendingExactly(latest: Sidebar, input: Input, a: string)
    requires PlanAssignment(latest, input).next.Some? && PlanAssignment(latest, input).assignment.Some?
    ensures var plan := PlanAssignment(latest, input);
            var p := plan.assignment.value;
            var others := Held(Prune(latest.pins, input.valid, input.now));
            var after := Held(plan.next.value.pins);
            PendingOn(after, input.quotaCheckedAt, None, a)
            == PendingOn(others, input.quotaCheckedAt, Some(input.session), a)
             + (if a == p.accountId && p.quotaCheckedAt == Lookup(input.quotaCheckedAt, a) then p.inputBytes else 0)
             - DroppedBytes(PlannedPins(latest, input), after, input.quotaCheckedAt, a)
  {
    var plan := PlanAssignment(latest, input);
    WrittenIsLimited(latest, input);
    DroppingLowersPending(PlannedPins(latest, input), Held(plan.next.value.pins), input.quotaCheckedAt, a);
    var others := Held(Prune(latest.pins, input.valid, input.now));
    PendingWith(others, input.session, plan.assignment.value, input.quotaCheckedAt, a);
  }

  /** A session placed for the first time adds exactly its request to the chosen account. */
  lemma FirstPlacementAddsTheRequest(latest: Sidebar, input: Input, a: string)
    requires |PlannedPins(latest, input)| <= MAX_ENTRIES && input.session !in Held(latest.pins)
    requires PlanAssignment(latest, input).assignment.Some?
    ensures var plan := PlanAssignment(latest, input);
            var p := plan.assignment.value;
            var before := Held(Prune(latest.pins, input.valid, input.now));
            PendingOn(Held(plan.next.value.pins), input.quotaCheckedAt, None, a)
            == PendingOn(before, input.quotaCheckedAt, None, a)
             + if a == p.accountId && p.quotaCheckedAt == Lookup(input.quotaCheckedAt, a) then input.requestBytes else 0
  {
    PruneShrinks(latest.pins, input.valid, input.now);
    WrittenIsLimited(latest, input);
    var before := Held(Prune(latest.pins, input.valid, input.now));
    PendingWith(before, input.session, PlanAssignment(latest, input).assignment.value, input.quotaCheckedAt, a);
    LeavingOut(before, input.quotaCheckedAt, input.session, a);
    assert before - {input.session} == before;
  }

  // ---------------------------------------------------------------------------
  // Planning again changes nothing
  // ---------------------------------------------------------------------------

  /** The chooser only names accounts the session may use. */
  ghost predicate ChoosesEligible(input: Input) {
    forall pending: Bytes :: input.choose(pending).Some? ==>
      var a := input.choose(pending).value.accountId; a in input.valid && a !in input.excluded
  }

  lemma PruneAgain(pins: Pins, valid: set<string>, now: int)
    requires pins != map[] && forall s :: s in pins ==> Keeps(pins[s], valid, now)
    ensures Prune(Some(pins), valid, now) == Some(pins)
  {
    assert (map s | s in pins && Keeps(pins[s], valid, now) :: pins[s]) == pins;
  }

  lemma PruneTwice(pins: Option<Pins>, valid: set<string>, now: int)
    ensures Prune(Prune(pins, valid, now), valid, now) == Prune(pins, valid, now)
  {
    var once := Prune(pins, valid, now);
    if once.Some? {
      PruneAgain(once.value, valid, now);
    }
  }

  lemma AssignmentIsCurrent(latest: Sidebar, input: Input)
    requires ChoosesEligible(input) && PlanAssignment(latest, input).assignment.Some?
    ensures IsCurrent(PlanAssignment(latest, input).assignment, input)
    ensures Keeps(PlanAssignment(latest, input).assignment.value, input.valid, input.now)
  {
  }

  /** Planning the same request on what planning wrote gives the same pin and nothing more to write. */
  lemma ReplanStable(latest: Sidebar, input: Input)
    requires ChoosesEligible(input) && PlanAssignment(latest, input).next.Some?
    ensures var plan := PlanAssignment(latest, input);
            PlanAssignment(plan.next.value, input) == Plan(plan.assignment, None)
  {
    var plan := PlanAssignment(latest, input);
    var next := plan.next.value;
    PruneShrinks(latest.pins, input.valid, input.now);
    if plan.assignment.None? {
      PruneTwice(latest.pins, input.valid, input.now);
    } else {
      AssignmentIsCurrent(latest, input);
      var planned := Held(Prune(latest.pins, input.valid, input.now))[input.session := plan.assignment.value];
      LimitedToYoungest(planned, input.session);
      assert KeepsYoungest(planned, next.pins.value, input.session);
      PruneAgain(next.pins.value, input.valid, input.now);
    }
  }

  // ---------------------------------------------------------------------------
  // Writing a decided pin later
  // ---------------------------------------------------------------------------

  predicate SamePlacement(current: Option<Pin>, assignment: Pin) {
    && current.Some?
    && current.value.accountId == assignment.accountId
    && current.value.assignedAt == assignment.assignedAt
  }

  function Merged(current: Option<Pin>, assignment: Pin): Pin {
    if !SamePlacement(current, assignment) then assignment
    else assignment.(inputBytes := Max(current.value.inputBytes, assignment.inputBytes),
                     lastSeenAt := Max(current.value.lastSeenAt, assignment.lastSeenAt))
  }

  /** What the merge writes, or nothing. */
  ghost function Persist(
      latest: Sidebar, session: string, assignment: Pin, valid: set<string>, now: int): Option<Sidebar>
  {
    var pins := Prune(latest.pins, valid, now);
    var current := PinOf(pins, session);
    if current.Some? && current.value.assignedAt > assignment.assignedAt then
      if latest.pins == pins then None else Some(Updated(latest, pins, now))
    else
      var limited := LimitPins(Held(pins)[session := Merged(current, assignment)], session);
      Some(Updated(latest, Some(limited), now))
  }

  ghost function AfterPersist(
      latest: Sidebar, session: string, assignment: Pin, valid: set<string>, now: int): Sidebar
  {
    Persist(latest, session, assignment, valid, now).GetOr(latest)
  }

  /** The pin of `session` that pruning leaves. */
  function LivePin(state: Sidebar, session: string, valid: set<string>, now: int): Option<Pin> {
    PinOf(Prune(state.pins, valid, now), session)
  }

  /**
   * Afterwards the file holds at most 256 pins and the session's own is the newest placement: a newer
   * one of another process is left alone, an older one is replaced, and the same one keeps the larger
   * request and the later sighting.
   */
  lemma PersistKeepsNewest(latest: Sidebar, session: string, assignment: Pin, valid: set<string>, now: int)
    requires |Held(latest.pins)| <= MAX_ENTRIES
    ensures var after := AfterPersist(latest, session, assignment, valid, now);
            var live := LivePin(latest, session, valid, now);
            var stored := PinOf(after.pins, session);
            && |Held(after.pins)| <= MAX_ENTRIES
            && stored.Some?
            && stored.value.assignedAt >= assignment.assignedAt
            && (live.Some? ==> stored.value.assignedAt >= live.value.assignedAt)
            && (live.Some? && live.value.assignedAt > assignment.assignedAt ==> stored == live)
            && (live.None? || live.value.assignedAt <= assignment.assignedAt ==>
                  stored.value == assignment.(inputBytes := stored.value.inputBytes,
                                              lastSeenAt := stored.value.lastSeenAt))
            && (SamePlacement(live, assignment) ==>
                  && stored.value.inputBytes == Max(live.value.inputBytes, assignment.inputBytes)
                  && stored.value.lastSeenAt == Max(live.value.lastSeenAt, assignment.lastSeenAt))
            && ((live.None? || live.value.assignedAt <= assignment.assignedAt) && !SamePlacement(live, assignment) ==>
                  stored.value == assignment)
  {
    PruneShrinks(latest.pins, valid, now);
    var kept := Held(Prune(latest.pins, valid, now));
    var live := LivePin(latest, session, valid, now);
    LimitedToYoungest(kept[session := Merged(live, assignment)], session);
  }

  /** The other pins: dead ones go, and live ones only when 256 are left and all others are younger. */
  lemma PersistDropsOnlyOldest(
      latest: Sidebar, session: string, assignment: Pin, valid: set<string>, now: int, s: string)
    requires s != session
    ensures var before, after := Held(latest.pins), Held(AfterPersist(latest, session, assignment, valid, now).pins);
            && (s in after ==> s in before && Live(before[s], valid, now) && after[s] == before[s])
            && (s in before && Live(before[s], valid, now) && s !in after ==>
                  |after| == 256 && forall k :: k in after && k != session ==> k in before && Older(before, s, k))
  {
    PruneShrinks(latest.pins, valid, now);
    UnprunedExactly(latest.pins, valid, now);
    var live := Held(Prune(latest.pins, valid, now));
    OthersLimited(live, session, Merged(LivePin(latest, session, valid, now), assignment), s);
    var after := Held(AfterPersist(latest, session, assignment, valid, now).pins);
    forall k | k in after && k != session && s in live && k in live && Older(live, s, k)
      ensures Older(Held(latest.pins), s, k)
    {
    }
  }

  /** Two processes placing one session: in either order the later placement is the one left. */
  lemma PersistsConverge(latest: Sidebar, session: string, p: Pin, q: Pin, valid: set<string>, now: int)
    requires |Held(latest.pins)| <= MAX_ENTRIES && p.assignedAt < q.assignedAt
    requires Keeps(p, valid, now) && Keeps(q, valid, now)
    ensures var afterP := AfterPersist(latest, session, p, valid, now);
            var afterQ := AfterPersist(latest, session, q, valid, now);
            var one := PinOf(AfterPersist(afterP, session, q, valid, now).pins, session);
            var two := PinOf(AfterPersist(afterQ, session, p, valid, now).pins, session);
            && one.Some? && two.Some?
            && one.value.accountId == two.value.accountId && one.value.assignedAt == two.value.assignedAt
            && one.value.assignedAt >= q.assignedAt
  {
    var afterP := AfterPersist(latest, session, p, valid, now);
    var afterQ := AfterPersist(latest, session, q, valid, now);
    PersistKeepsNewest(latest, session, p, valid, now);
    PersistKeepsNewest(latest, session, q, valid, now);
    PersistKeepsNewest(afterP, session, q, valid, now);
    PersistKeepsNewest(afterQ, session, p, valid, now);
    StaysLive(latest, session, p, valid, now);
    StaysLive(latest, session, q, valid, now);
  }

  lemma StaysLive(latest: Sidebar, session: string, p: Pin, valid: set<string>, now: int)
    requires Keeps(p, valid, now)
    ensures var after := AfterPersist(latest, session, p, valid, now);
            LivePin(after, session, valid, now) == PinOf(after.pins, session)
  {
    PruneShrinks(latest.pins, valid, now);
    var live := LivePin(latest, session, valid, now);
    var planned := Held(Prune(latest.pins, valid, now))[session := Merged(live, p)];
    LimitedToYoungest(planned, session);
    var after := AfterPersist(latest, session, p, valid, now);
    PruneShrinks(after.pins, valid, now);
  }
}
