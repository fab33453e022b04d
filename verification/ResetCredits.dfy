/**
 * Spending one irreversible reset credit (packages/core/src/reset-credits.ts): the saved redemption,
 * who may replay or replace it, and how answers to its sends are recorded.
 */
module ResetCredits {
  import opened Prelude

  const RESET_IN_FLIGHT_TTL_MS := 5 * 60_000
  const RESET_COOLDOWN_MS := 60_000
  const MAX_SAFE_INTEGER: nat := 0x1F_FFFF_FFFF_FFFF

  // ---------------------------------------------------------------------------
  // The saved pair
  // ---------------------------------------------------------------------------

  /** A field of a stored record. */
  datatype Json = Absent | Text(text: string) | Number(n: int) | Other

  /** The `inFlight` record as stored, well formed or not. */
  datatype RawPair = RawPair(
    redeemRequestId: Json,
    creditId: Json,
    startedAt: Json,
    chatgptAccountId: Json,
    rejectedStatus: Json,
    unknownAnswers: Json)

  /** A saved redemption; `unknownAnswers` is 0 when the record has none. */
  datatype SavedPair = SavedPair(
    redeemRequestId: string,
    creditId: string,
    startedAt: int,
    chatgptAccountId: Option<string>,
    rejectedStatus: Option<int>,
    unknownAnswers: nat)

  /** What the server dedupes on. */
  datatype Key = Key(redeemRequestId: string, creditId: string)

  function KeyOf(p: SavedPair): Key {
    Key(p.redeemRequestId, p.creditId)
  }

  /** A status that says the server refused outright: a 4xx that does not mean "not now". */
  predicate IsDefiniteRefusal(status: int) {
    400 <= status < 500 && status !in {408, 409, 425, 429}
  }

  function ValidInFlight(raw: Option<RawPair>): (p: Option<SavedPair>)
    ensures p.Some? ==> WellFormed(p.value)
  {
    if raw.None? then None
    else
      var r := raw.value;
      if !r.redeemRequestId.Text? || r.redeemRequestId.text == "" then None
      else if !r.creditId.Text? || r.creditId.text == "" then None
      else if !r.startedAt.Number? then None
      else if !r.chatgptAccountId.Absent? && (!r.chatgptAccountId.Text? || r.chatgptAccountId.text == "") then None
      else Some(SavedPair(
        r.redeemRequestId.text, r.creditId.text, r.startedAt.n,
        if r.chatgptAccountId.Text? then Some(r.chatgptAccountId.text) else None,
        if r.rejectedStatus.Number? && IsDefiniteRefusal(r.rejectedStatus.n) then Some(r.rejectedStatus.n) else None,
        if r.unknownAnswers.Number? && 0 < r.unknownAnswers.n <= MAX_SAFE_INTEGER then r.unknownAnswers.n else 0))
  }

  /** The record a pair is stored as. */
  function Stored(p: SavedPair): RawPair {
    RawPair(
      Text(p.redeemRequestId), Text(p.creditId), Number(p.startedAt),
      if p.chatgptAccountId.Some? then Text(p.chatgptAccountId.value) else Absent,
      if p.rejectedStatus.Some? then Number(p.rejectedStatus.value) else Absent,
      if p.unknownAnswers > 0 then Number(p.unknownAnswers) else Absent)
  }

  predicate WellFormed(p: SavedPair) {
    && p.redeemRequestId != "" && p.creditId != ""
    && (p.chatgptAccountId.Some? ==> p.chatgptAccountId.value != "")
    && (p.rejectedStatus.Some? ==> IsDefiniteRefusal(p.rejectedStatus.value))
    && p.unknownAnswers <= MAX_SAFE_INTEGER
  }

  /** A pair reads back as it was written exactly when it is well formed. */
  lemma StoredReadsBack(p: SavedPair)
    ensures ValidInFlight(Some(Stored(p))) == Some(p) <==> WellFormed(p)
  {
  }

  // ---------------------------------------------------------------------------
  // Credits
  // ---------------------------------------------------------------------------

  datatype Credit = Credit(
    id: string, status: string, expiresAt: int, resetType: Option<string>, isSupportedByPlan: bool)

  predicate IsResetCreditEligible(c: Credit) {
    c.status == "available" && c.isSupportedByPlan && c.resetType == Some("codex_rate_limits")
  }

  function Eligible(credits: seq<Credit>): seq<Credit> {
    if credits == [] then []
    else
      var last := credits[|credits| - 1];
      Eligible(credits[..|credits| - 1]) + if IsResetCreditEligible(last) then [last] else []
  }

  /** Places `c` behind every credit that expires no later. */
  function InsertByExpiry(sorted: seq<Credit>, c: Credit): seq<Credit> {
    if sorted == [] then [c]
    else if c.expiresAt < sorted[0].expiresAt then [c] + sorted
    else [sorted[0]] + InsertByExpiry(sorted[1..], c)
  }

  function SortByExpiry(credits: seq<Credit>): seq<Credit> {
    if credits == [] then [] else InsertByExpiry(SortByExpiry(credits[..|credits| - 1]), credits[|credits| - 1])
  }

  function SelectCreditToSpend(credits: seq<Credit>): Option<Credit> {
    var sorted := SortByExpiry(Eligible(credits));
    if sorted == [] then None else Some(sorted[0])
  }

  /** `c` is the first of the eligible credits that expire soonest. */
  predicate SoonestAt(credits: seq<Credit>, k: nat, c: Credit) {
    && k < |credits| && credits[k] == c && IsResetCreditEligible(c)
    && forall j :: 0 <= j < |credits| && IsResetCreditEligible(credits[j]) ==>
         if j < k then c.expiresAt < credits[j].expiresAt else c.expiresAt <= credits[j].expiresAt
  }

  /** A further credit is selected when it is eligible and expires before the one selected so far. */
  lemma SelectOneMore(init: seq<Credit>, last: Credit)
    ensures var before := SelectCreditToSpend(init);
            SelectCreditToSpend(init + [last]) ==
              if IsResetCreditEligible(last) && (before.None? || last.expiresAt < before.value.expiresAt)
              then Some(last) else before
  {
    var all := init + [last];
    assert all[..|all| - 1] == init;
    if IsResetCreditEligible(last) {
      assert Eligible(all) == Eligible(init) + [last];
      assert Eligible(all)[..|Eligible(all)| - 1] == Eligible(init);
    } else {
      assert Eligible(all) == Eligible(init);
    }
  }

  lemma SoonestOneMore(init: seq<Credit>, last: Credit, k: nat, c: Credit)
    requires SoonestAt(init, k, c)
    ensures var sooner := IsResetCreditEligible(last) && last.expiresAt < c.expiresAt;
            SoonestAt(init + [last], if sooner then |init| else k, if sooner then last else c)
  {
  }

  lemma FirstEligible(init: seq<Credit>, last: Credit)
    requires forall j :: 0 <= j < |init| ==> !IsResetCreditEligible(init[j])
    ensures if IsResetCreditEligible(last) then SoonestAt(init + [last], |init|, last)
            else forall j :: 0 <= j < |init + [last]| ==> !IsResetCreditEligible((init + [last])[j])
  {
  }

  /** What the selection means. */
  ghost predicate IsSoonest(credits: seq<Credit>, selected: Option<Credit>) {
    match selected
    case None => forall j :: 0 <= j < |credits| ==> !IsResetCreditEligible(credits[j])
    case Some(c) => exists k :: SoonestAt(credits, k, c)
  }

  lemma IsSoonestOneMore(init: seq<Credit>, last: Credit, before: Option<Credit>)
    requires IsSoonest(init, before)
    ensures IsSoonest(
      init + [last],
      if IsResetCreditEligible(last) && (before.None? || last.expiresAt < before.value.expiresAt)
      then Some(last) else before)
  {
    match before
    case None => FirstEligible(init, last);
    case Some(c) =>
      var k: nat :| SoonestAt(init, k, c);
      SoonestOneMore(init, last, k, c);
  }

  /** The credit spent is eligible and expires soonest, the listed order deciding ties. */
  lemma {:induction false} SelectsSoonest(credits: seq<Credit>)
    ensures IsSoonest(credits, SelectCreditToSpend(credits))
  {
    if credits != [] {
      var init, last := credits[..|credits| - 1], credits[|credits| - 1];
      assert credits == init + [last];
      SelectsSoonest(init);
      SelectOneMore(init, last);
      IsSoonestOneMore(init, last, SelectCreditToSpend(init));
    }
  }

  // ---------------------------------------------------------------------------
  // What a request finds
  // ---------------------------------------------------------------------------

  datatype LastOutcome = LastOutcome(code: string, at: int, previous: Option<(string, int)>)

  /** One account's reset state. */
  datatype ResetState = ResetState(
    inFlight: Option<RawPair>, lastOutcome: Option<LastOutcome>, cooldownUntil: Option<int>)

  const NO_STATE := ResetState(None, None, None)

  datatype Decision =
    | NewAttempt
    | Claimed(pair: SavedPair)
    | ExpiredUnreconciled(pair: SavedPair)
    | Cooldown(until: int)
    | Corrupt

  predicate IsSafeResetAccountKey(key: string) {
    key != "" && key !in {"__proto__", "constructor", "prototype"}
  }

  function SavedIn(state: Option<ResetState>): Option<SavedPair> {
    if state.Some? then ValidInFlight(state.value.inFlight) else None
  }

  predicate IsCorrupt(state: Option<ResetState>) {
    state.Some? && state.value.inFlight.Some? && SavedIn(state).None?
  }

  predicate CoolingDown(state: Option<ResetState>, now: int) {
    state.Some? && state.value.cooldownUntil.Some? && state.value.cooldownUntil.value > now
  }

  predicate IsYoung(p: SavedPair, now: int) {
    now - p.startedAt < RESET_IN_FLIGHT_TTL_MS
  }

  predicate BelongsTo(p: SavedPair, account: Option<string>) {
    p.chatgptAccountId.Some? ==> p.chatgptAccountId == account
  }

  /** An expired pair a new spend may replace: another account's, or one the server refused last. */
  predicate MayReplaceExpiredPair(p: SavedPair, account: Option<string>) {
    !BelongsTo(p, account) || p.rejectedStatus.Some?
  }

  /** The unlocked look at the state. */
  function InspectResetState(state: Option<ResetState>, now: int): Decision {
    if IsCorrupt(state) then Corrupt
    else if CoolingDown(state, now) then Cooldown(state.value.cooldownUntil.value)
    else
      var saved := SavedIn(state);
      if saved.None? then NewAttempt
      else if IsYoung(saved.value, now) then Claimed(saved.value)
      else ExpiredUnreconciled(saved.value)
  }

  /** A saved redemption too damaged to send is dropped and noted. */
  function ResolveCorruptState(state: Option<ResetState>, now: int): ResetState {
    var s := state.GetOr(NO_STATE);
    var previous := if s.lastOutcome.Some? then Some((s.lastOutcome.value.code, s.lastOutcome.value.at)) else None;
    s.(inFlight := None, lastOutcome := Some(LastOutcome("ambiguous_local", now, previous)))
  }

  // ---------------------------------------------------------------------------
  // Claiming
  // ---------------------------------------------------------------------------

  /** The locked claim of a new spend: what the state becomes and what the caller may send. */
  function ClaimAttempt(
      state: Option<ResetState>, now: int, credits: seq<Credit>, account: Option<string>, uuid: string)
    : (Option<ResetState>, Decision)
  {
    var seen := InspectResetState(state, now);
    if seen.Corrupt? then (Some(ResolveCorruptState(state, now)), Corrupt)
    else if seen.Cooldown? || seen.Claimed? then (state, seen)
    else if seen.ExpiredUnreconciled? && !MayReplaceExpiredPair(seen.pair, account) then (state, seen)
    else
      var credit := SelectCreditToSpend(credits);
      if credit.None? then (state, NewAttempt)
      else
        var minted := SavedPair(uuid, credit.value.id, now, account, None, 0);
        (Some(state.GetOr(NO_STATE).(inFlight := Some(Stored(minted)))), Claimed(minted))
  }

  /** The claim puts a new redemption in the state. */
  predicate Mints(state: Option<ResetState>, now: int, credits: seq<Credit>, account: Option<string>, uuid: string) {
    var (after, decision) := ClaimAttempt(state, now, credits, account, uuid);
    decision.Claimed? && SavedIn(state) != Some(decision.pair)
  }

  /**
   * A saved pair whose account matches and that records no refusal blocks every new spend: whatever
   * the clock, the credits and the new identifiers, the claim leaves the state as it is.
   */
  lemma UnrefusedPairBlocksSpend(
      state: Option<ResetState>, now: int, credits: seq<Credit>, account: Option<string>, uuid: string)
    requires SavedIn(state).Some? && !MayReplaceExpiredPair(SavedIn(state).value, account)
    ensures ClaimAttempt(state, now, credits, account, uuid).0 == state
    ensures !Mints(state, now, credits, account, uuid)
  {
  }

  /** The record of a redemption is there and cannot be read. */
  predicate Damaged(state: ResetState) {
    state.inFlight.Some? && ValidInFlight(state.inFlight).None?
  }

  /**
   * While a cooldown runs, an undamaged row is left as it is and answers the cooldown, with or without a
   * saved pair and whatever the credits: by the unlocked look and by the locked claim.
   */
  lemma CooldownBindsClaim(
      state: ResetState, until: int, now: int, credits: seq<Credit>, account: Option<string>, uuid: string)
    requires state.cooldownUntil == Some(until) && until > now && !Damaged(state)
    ensures InspectResetState(Some(state), now) == Cooldown(until)
    ensures ClaimAttempt(Some(state), now, credits, account, uuid) == (Some(state), Cooldown(until))
  {
  }

  /** A credit that may be spent, field by field. */
  predicate Spendable(c: Credit) {
    c.status == "available" && c.isSupportedByPlan && c.resetType == Some("codex_rate_limits")
  }

  /** Whatever is saved may be replaced: it has expired, and is another account's or was refused. */
  predicate GivesWay(saved: SavedPair, now: int, account: Option<string>) {
    && now - saved.startedAt >= 300_000
    && (saved.rejectedStatus.Some? || (saved.chatgptAccountId.Some? && saved.chatgptAccountId != account))
  }

  /**
   * A claim mints a new redemption if and only if the row is undamaged, no cooldown is left, whatever pair
   * is saved gives way, and some credit may be spent. Then the row holds the new pair, of the soonest
   * such credit and the claiming account, and is otherwise as it was; an undamaged row is never
   * changed in another way.
   */
  lemma MintsExactly(
      state: Option<ResetState>, now: int, credits: seq<Credit>, account: Option<string>, uuid: string)
    ensures var row := state.GetOr(ResetState(None, None, None));
            var (after, decision) := ClaimAttempt(state, now, credits, account, uuid);
            && (Mints(state, now, credits, account, uuid) <==>
                  && !Damaged(row)
                  && (row.cooldownUntil.Some? ==> row.cooldownUntil.value <= now)
                  && (row.inFlight.Some? ==> GivesWay(ValidInFlight(row.inFlight).value, now, account))
                  && exists k :: 0 <= k < |credits| && Spendable(credits[k]))
            && (Mints(state, now, credits, account, uuid) ==>
                  && decision.pair == SavedPair(uuid, decision.pair.creditId, now, account, None, 0)
                  && after == Some(row.(inFlight := Some(Stored(decision.pair))))
                  && exists k, c :: SoonestAt(credits, k, c) && c.id == decision.pair.creditId)
            && (!Damaged(row) && !Mints(state, now, credits, account, uuid) ==> after == state)
  {
    SelectsSoonest(credits);
    var selected := SelectCreditToSpend(credits);
    if selected.Some? {
      var k: nat :| SoonestAt(credits, k, selected.value);
      assert Spendable(credits[k]);
    } else {
      forall k | 0 <= k < |credits| ensures !Spendable(credits[k]) {
        assert !IsResetCreditEligible(credits[k]);
      }
    }
  }

  /**
   * What the unlocked look answers, from the fields: damage first, then a running cooldown, then the saved
   * pair by its age. And a claim that does not mint answers as the look does.
   */
  lemma LookAnswers(
      state: Option<ResetState>, now: int, credits: seq<Credit>, account: Option<string>, uuid: string)
    ensures var row := state.GetOr(ResetState(None, None, None));
            var saved := ValidInFlight(row.inFlight);
            InspectResetState(state, now) ==
              if Damaged(row) then Corrupt
              else if row.cooldownUntil.Some? && row.cooldownUntil.value > now then Cooldown(row.cooldownUntil.value)
              else if row.inFlight.None? then NewAttempt
              else if now - saved.value.startedAt < 300_000 then Claimed(saved.value)
              else ExpiredUnreconciled(saved.value)
    ensures var row := state.GetOr(ResetState(None, None, None));
            var decision := ClaimAttempt(state, now, credits, account, uuid).1;
            !Mints(state, now, credits, account, uuid) ==>
              || decision == InspectResetState(state, now)
              || (decision == NewAttempt && forall k :: 0 <= k < |credits| ==> !Spendable(credits[k]))
  {
    SelectsSoonest(credits);
    if SelectCreditToSpend(credits).None? {
      forall k | 0 <= k < |credits| ensures !Spendable(credits[k]) {
        assert !IsResetCreditEligible(credits[k]);
      }
    }
  }

  /**
   * A damaged redemption is dropped for good and noted with what was noted before it; a running cooldown
   * still binds, and otherwise the account is free for a new attempt.
   */
  lemma DamageIsDropped(state: ResetState, now: int, later: int)
    requires Damaged(state)
    ensures var after := ResolveCorruptState(Some(state), now);
            && after.inFlight.None? && after.cooldownUntil == state.cooldownUntil
            && after.lastOutcome.Some? && after.lastOutcome.value.code == "ambiguous_local"
            && after.lastOutcome.value.at == now
            && after.lastOutcome.value.previous == (if state.lastOutcome.None? then None
                 else Some((state.lastOutcome.value.code, state.lastOutcome.value.at)))
            && InspectResetState(Some(after), later) ==
                 if state.cooldownUntil.Some? && state.cooldownUntil.value > later
                 then Cooldown(state.cooldownUntil.value) else NewAttempt
  {
  }

  // ---------------------------------------------------------------------------
  // Recording answers
  // ---------------------------------------------------------------------------

  datatype TerminalKind = Reset | AlreadyRedeemed | NothingToReset | NoCredit

  datatype Answer = Terminal(kind: TerminalKind) | HttpError(status: int) | Ambiguous

  function CodeOf(kind: TerminalKind): string {
    match kind
    case Reset => "reset"
    case AlreadyRedeemed => "already_redeemed"
    case NothingToReset => "nothing_to_reset"
    case NoCredit => "no_credit"
  }

  predicate Refuses(a: Answer) {
    a.HttpError? && IsDefiniteRefusal(a.status)
  }

  /** An answer that settles nothing. */
  predicate Unknown(a: Answer) {
    !a.Terminal? && !Refuses(a)
  }

  /** The saved pair, when it is the one that was sent. */
  function SavedMatching(state: Option<ResetState>, completing: SavedPair): Option<SavedPair> {
    var saved := SavedIn(state);
    if saved.Some? && KeyOf(saved.value) == KeyOf(completing) then saved else None
  }

  /** The pair once a non-terminal answer to a send of `completing` is written over it. */
  function Annotate(persisted: SavedPair, completing: SavedPair, answer: Answer, sentAs: Option<string>): SavedPair {
    var bound := persisted.(chatgptAccountId :=
      if persisted.chatgptAccountId.None? then sentAs else persisted.chatgptAccountId);
    if !Refuses(answer) then bound.(rejectedStatus := None, unknownAnswers := persisted.unknownAnswers + 1)
    else if persisted.unknownAnswers == completing.unknownAnswers then bound.(rejectedStatus := Some(answer.status))
    else bound
  }

  /** A repeated refusal changes nothing and is not written. */
  predicate SkipsWrite(completing: SavedPair, answer: Answer, sentAs: Option<string>) {
    && !(completing.chatgptAccountId.None? && sentAs.Some?)
    && Refuses(answer) && completing.rejectedStatus == Some(answer.status)
  }

  function RecordUnreconciledAnswer(
      state: Option<ResetState>, completing: SavedPair, answer: Answer, sentAs: Option<string>)
    : (Option<ResetState>, Option<SavedPair>)
    requires !answer.Terminal?
  {
    var persisted := SavedMatching(state, completing);
    if SkipsWrite(completing, answer, sentAs) || persisted.None? then (state, persisted)
    else
      var next := Annotate(persisted.value, completing, answer, sentAs);
      (Some(state.value.(inFlight := Some(Stored(next)))), Some(next))
  }

  function FinalizeAttempt(
      state: Option<ResetState>, now: int, completing: SavedPair, answer: Answer, sentAs: Option<string>)
    : (Option<ResetState>, Option<SavedPair>)
  {
    if !answer.Terminal? then RecordUnreconciledAnswer(state, completing, answer, sentAs)
    else if SavedMatching(state, completing).None? then (state, None)
    else
      var spent := answer.kind == Reset || answer.kind == AlreadyRedeemed;
      (Some(ResetState(None, Some(LastOutcome(CodeOf(answer.kind), now, None)),
                       if spent then Some(now + RESET_COOLDOWN_MS) else None)), None)
  }

  /**
   * After a terminal answer for the saved pair nobody may retry it: until a minute after a spent credit
   * every look finds the cooldown, and otherwise a new attempt.
   */
  lemma TerminalAnswerEndsPair(
      state: Option<ResetState>, now: int, completing: SavedPair, kind: TerminalKind, sentAs: Option<string>,
      later: int)
    requires SavedMatching(state, completing).Some? && later >= now
    ensures var after := FinalizeAttempt(state, now, completing, Terminal(kind), sentAs).0;
            && SavedIn(after).None? && !IsCorrupt(after)
            && after.value.lastOutcome.Some? && after.value.lastOutcome.value.at == now
            && after.value.lastOutcome.value.code == (match kind
                 case Reset => "reset"
                 case AlreadyRedeemed => "already_redeemed"
                 case NothingToReset => "nothing_to_reset"
                 case NoCredit => "no_credit")
            && (InspectResetState(after, later).Cooldown? <==>
                  (kind == Reset || kind == AlreadyRedeemed) && later < now + 60_000)
            && (InspectResetState(after, later).Cooldown? || InspectResetState(after, later) == NewAttempt)
  {
  }

  /**
   * An answer that settles nothing keeps the redemption, and one sent under an account leaves it bound:
   * to the account it was bound to, or else to that one, so that no other account can send it from then on.
   */
  lemma AnswerBindsPair(state: Option<ResetState>, completing: SavedPair, answer: Answer, sentAs: string, other: string)
    requires !answer.Terminal? && SavedMatching(state, completing).Some? && sentAs != "" && other != sentAs
    requires Unknown(answer) ==> SavedMatching(state, completing).value.unknownAnswers < MAX_SAFE_INTEGER
    requires completing.chatgptAccountId.Some? ==> SavedMatching(state, completing).value.chatgptAccountId.Some?
    ensures var persisted := SavedMatching(state, completing).value;
            var after := SavedIn(RecordUnreconciledAnswer(state, completing, answer, Some(sentAs)).0);
            && after.Some? && KeyOf(after.value) == KeyOf(persisted)
            && after.value.chatgptAccountId.Some?
            && after.value.chatgptAccountId.value == persisted.chatgptAccountId.GetOr(sentAs)
            && (persisted.chatgptAccountId.None? ==> !BelongsTo(after.value, Some(other)))
  {
    StoredReadsBack(Annotate(SavedMatching(state, completing).value, completing, answer, Some(sentAs)));
  }

  // ---------------------------------------------------------------------------
  // The code: locked edits of the `reset` map
  // ---------------------------------------------------------------------------

  class ResetStore {
    var reset: map<string, ResetState>

    constructor ()
      ensures reset == map[]
    {
      reset := map[];
    }

    ghost function StateOf(key: string): Option<ResetState>
      reads this
    {
      if key in reset then Some(reset[key]) else None
    }

    /** The other accounts' states. */
    ghost function Others(key: string): map<string, ResetState>
      reads this
    {
      reset - {key}
    }

    method ResolveCorrupt(accountKey: string, now: int) returns (decision: Decision)
      requires IsSafeResetAccountKey(accountKey)
      modifies this
      ensures decision == InspectResetState(old(StateOf(accountKey)), now)
      ensures StateOf(accountKey) == if decision.Corrupt?
        then Some(ResolveCorruptState(old(StateOf(accountKey)), now)) else old(StateOf(accountKey))
      ensures Others(accountKey) == old(Others(accountKey))
    {
      var state := if accountKey in reset then Some(reset[accountKey]) else None;
      decision := InspectResetState(state, now);
      if decision.Corrupt? {
        reset := reset[accountKey := ResolveCorruptState(state, now)];
      }
    }

    method ClaimResetAttempt(
        accountKey: string, now: int, credits: seq<Credit>, account: Option<string>, uuid: string)
      returns (decision: Decision)
      modifies this
      ensures !IsSafeResetAccountKey(accountKey) ==> decision == NewAttempt && reset == old(reset)
      ensures IsSafeResetAccountKey(accountKey) ==>
        (StateOf(accountKey), decision) == ClaimAttempt(old(StateOf(accountKey)), now, credits, account, uuid)
      ensures Others(accountKey) == old(Others(accountKey))
    {
      if !IsSafeResetAccountKey(accountKey) { return NewAttempt; }
      var state := if accountKey in reset then Some(reset[accountKey]) else None;
      var inFlight := SavedIn(state);
      if state.Some? && state.value.inFlight.Some? && inFlight.None? {
        reset := reset[accountKey := ResolveCorruptState(state, now)];
        return Corrupt;
      }
      if state.Some? && state.value.cooldownUntil.Some? && state.value.cooldownUntil.value > now {
        return Cooldown(state.value.cooldownUntil.value);
      }
      if inFlight.Some? && IsYoung(inFlight.value, now) { return Claimed(inFlight.value); }
      if inFlight.Some? && !MayReplaceExpiredPair(inFlight.value, account) {
        return ExpiredUnreconciled(inFlight.value);
      }
      var selected := SelectCreditToSpend(credits);
      if selected.None? { return NewAttempt; }
      var claimed := SavedPair(uuid, selected.value.id, now, account, None, 0);
      reset := reset[accountKey := state.GetOr(NO_STATE).(inFlight := Some(Stored(claimed)))];
      decision := Claimed(claimed);
    }

    method FinalizeResetAttempt(
        accountKey: string, now: int, completing: SavedPair, outcome: Answer, sentAs: Option<string>)
      returns (saved: Option<SavedPair>)
      modifies this
      ensures !IsSafeResetAccountKey(accountKey) ==> saved == None && reset == old(reset)
      ensures IsSafeResetAccountKey(accountKey) ==>
        (StateOf(accountKey), saved) == FinalizeAttempt(old(StateOf(accountKey)), now, completing, outcome, sentAs)
      ensures Others(accountKey) == old(Others(accountKey))
    {
      if !IsSafeResetAccountKey(accountKey) { return None; }
      if !outcome.Terminal? {
        saved := RecordAnswer(accountKey, completing, outcome, sentAs);
        return;
      }
      var state := if accountKey in reset then Some(reset[accountKey]) else None;
      if SavedMatching(state, completing).None? { return None; }
      var next := state.value.(inFlight := None, lastOutcome := Some(LastOutcome(CodeOf(outcome.kind), now, None)));
      if outcome.kind == Reset || outcome.kind == AlreadyRedeemed {
        next := next.(cooldownUntil := Some(now + RESET_COOLDOWN_MS));
      } else {
        next := next.(cooldownUntil := None);
      }
      reset := reset[accountKey := next];
      saved := None;
    }

    method RecordAnswer(accountKey: string, completing: SavedPair, outcome: Answer, sentAs: Option<string>)
      returns (saved: Option<SavedPair>)
      requires IsSafeResetAccountKey(accountKey) && !outcome.Terminal?
      modifies this
      ensures (StateOf(accountKey), saved)
           == RecordUnreconciledAnswer(old(StateOf(accountKey)), completing, outcome, sentAs)
      ensures Others(accountKey) == old(Others(accountKey))
    {
      var refusal := if Refuses(outcome) then Some(outcome.status) else None;
      var bind := completing.chatgptAccountId.None? && sentAs.Some?;
      var state := if accountKey in reset then Some(reset[accountKey]) else None;
      saved := SavedMatching(state, completing);
      if !bind && refusal.Some? && refusal == completing.rejectedStatus { return; }
      if saved.None? { return; }
      var persisted := saved.value;
      var next := persisted;
      if next.chatgptAccountId.None? && sentAs.Some? {
        next := next.(chatgptAccountId := sentAs);
      }
      if refusal.None? {
        next := next.(rejectedStatus := None, unknownAnswers := persisted.unknownAnswers + 1);
      } else if persisted.unknownAnswers == completing.unknownAnswers {
        next := next.(rejectedStatus := refusal);
      }
      reset := reset[accountKey := state.value.(inFlight := Some(Stored(next)))];
      saved := Some(next);
    }
  }

  // ---------------------------------------------------------------------------
  // Concurrent answers
  // ---------------------------------------------------------------------------

  /** One send's answer, and the pair as that send had read it. */
  datatype SendAnswer = SendAnswer(read: SavedPair, answer: Answer, sentAs: Option<string>)

  /** The saved pair once the answers are recorded one after the other. */
  function Recorded(saved: SavedPair, answers: seq<SendAnswer>): SavedPair {
    if answers == [] then saved
    else
      var earlier, last := Recorded(saved, answers[..|answers| - 1]), answers[|answers| - 1];
      if SkipsWrite(last.read, last.answer, last.sentAs) then earlier
      else Annotate(earlier, last.read, last.answer, last.sentAs)
  }

  /** Sends that read the same pair at the same count, none answered for good. */
  predicate SameRead(saved: SavedPair, answers: seq<SendAnswer>) {
    forall i :: 0 <= i < |answers| ==>
      && !answers[i].answer.Terminal?
      && KeyOf(answers[i].read) == KeyOf(saved)
      && answers[i].read.unknownAnswers == saved.unknownAnswers
  }

  function UnknownCount(answers: seq<SendAnswer>): nat {
    if answers == [] then 0
    else UnknownCount(answers[..|answers| - 1]) + if Unknown(answers[|answers| - 1].answer) then 1 else 0
  }

  /**
   * In whatever order the answers of concurrent sends are written, every unknown one is counted, and
   * a single unknown one leaves no refusal recorded.
   */
  lemma {:induction false} ConcurrentAnswers(saved: SavedPair, answers: seq<SendAnswer>)
    requires SameRead(saved, answers)
    ensures var final := Recorded(saved, answers);
            && KeyOf(final) == KeyOf(saved)
            && final.unknownAnswers == saved.unknownAnswers + UnknownCount(answers)
            && (UnknownCount(answers) > 0 ==> final.rejectedStatus.None?)
            && (saved.chatgptAccountId.Some? ==> final.chatgptAccountId == saved.chatgptAccountId)
  {
    if answers != [] {
      ConcurrentAnswers(saved, answers[..|answers| - 1]);
    }
  }

  /**
   * So after any of the write orders, a new spend under the pair's account finds the pair and mints
   * nothing, whatever the clock and the credits.
   */
  lemma UnknownAnswerBlocksSpend(
      saved: SavedPair, answers: seq<SendAnswer>, state: ResetState, now: int, credits: seq<Credit>,
      account: Option<string>, uuid: string)
    requires SameRead(saved, answers) && UnknownCount(answers) > 0
    requires BelongsTo(Recorded(saved, answers), account)
    requires WellFormed(Recorded(saved, answers)) && state.inFlight == Some(Stored(Recorded(saved, answers)))
    ensures ClaimAttempt(Some(state), now, credits, account, uuid).0 == Some(state)
    ensures !Mints(Some(state), now, credits, account, uuid)
  {
    ConcurrentAnswers(saved, answers);
    StoredReadsBack(Recorded(saved, answers));
    UnrefusedPairBlocksSpend(Some(state), now, credits, account, uuid);
  }

  /** `later` is what `earlier` may have become: a refusal is withdrawn only by counting an unknown answer. */
  predicate Evolves(earlier: SavedPair, later: SavedPair) {
    && KeyOf(later) == KeyOf(earlier)
    && earlier.unknownAnswers <= later.unknownAnswers
    && (later.unknownAnswers == earlier.unknownAnswers && earlier.rejectedStatus.Some? ==> later.rejectedStatus.Some?)
  }

  lemma {:induction false} RecordingEvolves(saved: SavedPair, answers: seq<SendAnswer>)
    requires forall i :: 0 <= i < |answers| ==> !answers[i].answer.Terminal?
    ensures Evolves(saved, Recorded(saved, answers))
  {
    if answers != [] {
      RecordingEvolves(saved, answers[..|answers| - 1]);
    }
  }

  /**
   * Skipping the write of a repeated refusal agrees with always writing it on whether a refusal is
   * recorded, whatever was recorded since the pair was read.
   */
  lemma SkippedWriteAgrees(read: SavedPair, since: seq<SendAnswer>, answer: Answer, sentAs: Option<string>)
    requires forall i :: 0 <= i < |since| ==> !since[i].answer.Terminal?
    requires SkipsWrite(read, answer, sentAs)
    ensures Annotate(Recorded(read, since), read, answer, sentAs).rejectedStatus.Some?
       <==> Recorded(read, since).rejectedStatus.Some?
    ensures Annotate(Recorded(read, since), read, answer, sentAs).unknownAnswers == Recorded(read, since).unknownAnswers
  {
    RecordingEvolves(read, since);
  }
}
