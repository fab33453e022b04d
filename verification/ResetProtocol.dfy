/**
 * The redemption protocol (packages/core/src/reset-credits.ts, `runResetCreditRedemption`): any
 * number of processes spend and retry on one account row, each file access and each server call one
 * atomic step, against a server that dedupes on the pair.
 *
 * The environment, stated in `Enabled`: every process is signed in as the same ChatGPT account; new
 * identifiers are unique and credit ids are not empty; the server acts on a send before its answer is
 * recorded, never refuses a pair it consumed, and never consumes one it answered for good; no send
 * of a pair is outstanding when the pair is replaced; an answer goes unrecorded only where that is
 * safe (`LossIsSafe`; module `LostAnswers` shows that nothing weaker will do); and a pair collects
 * fewer than 2^53 unknown answers.
 */
module ResetProtocol {
  import opened Prelude
  import opened ResetCredits

  type Pid = nat

  datatype Phase =
    | Idle
    // Saw a damaged pair and is about to resolve it.
    | SawCorrupt(retry: bool)
    // Found no pair in its way and is checking that the account is exhausted.
    | Spending
    // Holds a pair it is about to send.
    | Holding(pair: SavedPair)
    // Has the server's answer and is about to record it.
    | Answered(pair: SavedPair, answer: Answer)

  datatype Event = Consumed(key: Key) | TerminalSaved(key: Key)

  datatype State = State(
    row: Option<ResetState>,
    phases: map<Pid, Phase>,
    consumed: set<Key>,
    settledUnspent: set<Key>,
    terminalSaved: set<Key>,
    usedIds: set<string>,
    log: seq<Event>)

  datatype Step =
    | Inspect(p: Pid, retry: bool, now: int)
    | ResolveDamage(p: Pid, now: int)
    | GiveUp(p: Pid)
    | Claim(p: Pid, now: int, credits: seq<Credit>, uuid: string)
    | Send(p: Pid, answer: Answer, consumes: bool)
    | Record(p: Pid, now: int)
    | LoseAnswer(p: Pid)

  function PhaseOf(s: State, p: Pid): Phase {
    if p in s.phases then s.phases[p] else Idle
  }

  /** The pair a process has read and not finished with. */
  function HeldBy(s: State, p: Pid): Option<SavedPair> {
    match PhaseOf(s, p)
    case Holding(pair) => Some(pair)
    case Answered(pair, _) => Some(pair)
    case _ => None
  }

  predicate Holds(s: State, p: Pid, key: Key) {
    HeldBy(s, p).Some? && KeyOf(HeldBy(s, p).value) == key
  }

  /** What a request does next, once it knows the row. */
  function PhaseAfter(decision: Decision, retry: bool, account: Option<string>): Phase {
    match decision
    case Corrupt => SawCorrupt(retry)
    case Cooldown(_) => Idle
    case Claimed(pair) => if BelongsTo(pair, account) then Holding(pair) else Idle
    case ExpiredUnreconciled(pair) =>
      if retry then (if BelongsTo(pair, account) then Holding(pair) else Idle)
      else if MayReplaceExpiredPair(pair, account) then Spending else Idle
    case NewAttempt => if retry then Idle else Spending
  }

  /** The server's choices for one send. */
  predicate ServerMay(s: State, key: Key, answer: Answer, consumes: bool) {
    if key in s.consumed then
      !consumes && !Refuses(answer) && (answer.Terminal? ==> answer.kind in {Reset, AlreadyRedeemed})
    else if key in s.settledUnspent then
      !consumes && (answer.Terminal? ==> answer.kind in {NothingToReset, NoCredit})
    else if consumes then
      !Refuses(answer) && (answer.Terminal? ==> answer.kind == Reset)
    else
      answer.Terminal? ==> answer.kind in {NothingToReset, NoCredit}
  }

  predicate Enabled(account: string, s: State, step: Step) {
    match step
    case Inspect(p, _, _) => PhaseOf(s, p) == Idle
    case ResolveDamage(p, _) => PhaseOf(s, p).SawCorrupt?
    case GiveUp(p) => PhaseOf(s, p).Spending? || PhaseOf(s, p).Holding?
    case Claim(p, now, credits, uuid) =>
      && PhaseOf(s, p).Spending?
      && uuid != "" && uuid !in s.usedIds
      && (forall i :: 0 <= i < |credits| ==> credits[i].id != "")
      && (Mints(s.row, now, credits, Some(account), uuid) && SavedIn(s.row).Some? ==>
            forall q :: q in s.phases ==> !Holds(s, q, KeyOf(SavedIn(s.row).value)))
    case Send(p, answer, consumes) =>
      PhaseOf(s, p).Holding? && ServerMay(s, KeyOf(PhaseOf(s, p).pair), answer, consumes)
    case Record(p, _) =>
      && PhaseOf(s, p).Answered?
      && (Unknown(PhaseOf(s, p).answer) && SavedIn(s.row).Some? ==>
            SavedIn(s.row).value.unknownAnswers < MAX_SAFE_INTEGER)
    case LoseAnswer(p) => PhaseOf(s, p).Answered? && LossIsSafe(s, p)
  }

  predicate IsSaved(s: State, key: Key) {
    SavedIn(s.row).Some? && KeyOf(SavedIn(s.row).value) == key
  }

  /** A send of the saved pair has an answer to record that will keep or clear it as not refused. */
  predicate Witness(s: State, p: Pid, key: Key) {
    Holds(s, p, key) && PhaseOf(s, p).Answered? && !Refuses(PhaseOf(s, p).answer)
  }

  /** `p` has a refusal to record, and read the saved pair at its count, so that it will be recorded. */
  predicate LiveRefusal(s: State, p: Pid, saved: SavedPair) {
    && Holds(s, p, KeyOf(saved)) && PhaseOf(s, p).Answered? && Refuses(PhaseOf(s, p).answer)
    && PhaseOf(s, p).pair.unknownAnswers >= saved.unknownAnswers
  }

  predicate NoLiveRefusal(s: State, saved: SavedPair) {
    forall p :: p in s.phases ==> !LiveRefusal(s, p, saved)
  }

  /**
   * The answer of `p` may go unrecorded: the server has not consumed the saved pair, the answer is a
   * refusal, another process still has an answer that rules a refusal out, or no refusal is saved or
   * on its way.
   */
  predicate LossIsSafe(s: State, p: Pid)
    requires PhaseOf(s, p).Answered?
  {
    var key := KeyOf(PhaseOf(s, p).pair);
    IsSaved(s, key) && key in s.consumed && !Refuses(PhaseOf(s, p).answer) ==>
      || (exists q :: q in s.phases && q != p && Witness(s, q, key))
      || (SavedIn(s.row).value.rejectedStatus.None? && NoLiveRefusal(s, SavedIn(s.row).value))
  }

  /** What is left when the answer of `p` is not recorded. */
  function Forgotten(s: State, p: Pid): State {
    s.(phases := s.phases[p := Idle])
  }

  function Next(account: string, s: State, step: Step): State
    requires Enabled(account, s, step)
  {
    match step
    case Inspect(p, retry, now) =>
      s.(phases := s.phases[p := PhaseAfter(InspectResetState(s.row, now), retry, Some(account))])
    case ResolveDamage(p, now) =>
      var decision := InspectResetState(s.row, now);
      if decision.Corrupt? then s.(row := Some(ResolveCorruptState(s.row, now)), phases := s.phases[p := Idle])
      else s.(phases := s.phases[p := PhaseAfter(decision, PhaseOf(s, p).retry, Some(account))])
    case GiveUp(p) => s.(phases := s.phases[p := Idle])
    case Claim(p, now, credits, uuid) =>
      var (row, decision) := ClaimAttempt(s.row, now, credits, Some(account), uuid);
      var next := if decision.Claimed? && BelongsTo(decision.pair, Some(account)) then Holding(decision.pair) else Idle;
      s.(row := row, phases := s.phases[p := next], usedIds := s.usedIds + {uuid})
    case Send(p, answer, consumes) =>
      var pair := PhaseOf(s, p).pair;
      var t := s.(phases := s.phases[p := Answered(pair, answer)]);
      if consumes then t.(consumed := s.consumed + {KeyOf(pair)}, log := s.log + [Consumed(KeyOf(pair))])
      else if answer.Terminal? && KeyOf(pair) !in s.consumed then
        t.(settledUnspent := s.settledUnspent + {KeyOf(pair)})
      else t
    case Record(p, now) =>
      var pair, answer := PhaseOf(s, p).pair, PhaseOf(s, p).answer;
      var t := s.(row := FinalizeAttempt(s.row, now, pair, answer, Some(account)).0, phases := s.phases[p := Idle]);
      if answer.Terminal? && SavedMatching(s.row, pair).Some? then
        t.(terminalSaved := s.terminalSaved + {KeyOf(pair)}, log := s.log + [TerminalSaved(KeyOf(pair))])
      else t
    case LoseAnswer(p) => Forgotten(s, p)
  }

  /**
   * No request is running and nothing is spent. Whatever is in the row from before may be saved there:
   * nothing, a pair of this account or another, or a damaged one.
   */
  predicate Initial(account: string, s: State) {
    && account != ""
    && s.phases == map[] && s.consumed == {} && s.settledUnspent == {} && s.terminalSaved == {} && s.log == []
    && (SavedIn(s.row).Some? ==> SavedIn(s.row).value.redeemRequestId in s.usedIds)
  }

  predicate IsRun(account: string, states: seq<State>, steps: seq<Step>) {
    && |states| == |steps| + 1
    && Initial(account, states[0])
    && forall i :: 0 <= i < |steps| ==>
         Enabled(account, states[i], steps[i]) && states[i + 1] == Next(account, states[i], steps[i])
  }

  // ---------------------------------------------------------------------------
  // The invariant
  // ---------------------------------------------------------------------------

  /** A saved pair of another account is neither held nor consumed. */
  predicate RowSound(account: string, s: State) {
    SavedIn(s.row).Some? && !BelongsTo(SavedIn(s.row).value, Some(account)) ==>
      && KeyOf(SavedIn(s.row).value) !in s.consumed
      && forall p :: p in s.phases ==> !Holds(s, p, KeyOf(SavedIn(s.row).value))
  }

  /** A held pair is what the saved one evolved from, or was answered for good. */
  predicate HeldSound(s: State, p: Pid) {
    HeldBy(s, p).Some? ==>
      var pair := HeldBy(s, p).value;
      && pair.redeemRequestId in s.usedIds
      && (KeyOf(pair) in s.terminalSaved
          || (SavedIn(s.row).Some? && Evolves(pair, SavedIn(s.row).value)))
      && (PhaseOf(s, p).Answered? && PhaseOf(s, p).answer.Terminal? ==> KeyOf(pair) in s.consumed + s.settledUnspent)
  }

  predicate KeysSound(s: State) {
    && s.consumed !! s.settledUnspent
    && s.terminalSaved <= s.consumed + s.settledUnspent
    && (forall k :: k in s.consumed + s.settledUnspent ==> k.redeemRequestId in s.usedIds)
    && (SavedIn(s.row).Some? ==>
          && SavedIn(s.row).value.redeemRequestId in s.usedIds
          && KeyOf(SavedIn(s.row).value) !in s.terminalSaved)
  }

  /** A consumed saved pair cannot be found refused. */
  predicate Guarded(s: State, saved: SavedPair) {
    (exists p :: p in s.phases && Witness(s, p, KeyOf(saved)))
    || (saved.rejectedStatus.None? && NoLiveRefusal(s, saved))
  }

  /** A consumed pair is still saved and guarded until a terminal answer for it is saved. */
  predicate ConsumedSound(s: State) {
    forall k :: k in s.consumed && k !in s.terminalSaved ==> IsSaved(s, k) && Guarded(s, SavedIn(s.row).value)
  }

  predicate SavedLater(log: seq<Event>, i: nat, key: Key) {
    exists k :: i < k < |log| && log[k] == TerminalSaved(key)
  }

  predicate LogSound(s: State) {
    && (forall i :: 0 <= i < |s.log| && s.log[i].Consumed? ==>
          && s.log[i].key in s.consumed
          && (s.log[i].key in s.terminalSaved ==> SavedLater(s.log, i, s.log[i].key)))
    && (forall i, j ::
          0 <= i < j < |s.log| && s.log[i].Consumed? && s.log[j].Consumed? && s.log[i].key != s.log[j].key ==>
          SavedBetween(s.log, i, j, s.log[i].key))
  }

  /** The log tells every consumption, and no terminal answer that was not saved. */
  predicate LogComplete(s: State) {
    && (forall k :: k in s.consumed ==> Consumed(k) in s.log)
    && (forall i :: 0 <= i < |s.log| && s.log[i].TerminalSaved? ==> s.log[i].key in s.terminalSaved)
  }

  predicate SavedBetween(log: seq<Event>, i: nat, j: nat, key: Key)
    requires j <= |log|
  {
    exists k :: i < k < j && log[k] == TerminalSaved(key)
  }

  predicate Inv(account: string, s: State) {
    && account != ""
    && RowSound(account, s)
    && KeysSound(s)
    && (forall p :: p in s.phases ==> HeldSound(s, p))
    && ConsumedSound(s)
    && LogSound(s) && LogComplete(s)
  }

  // ---------------------------------------------------------------------------
  // Every step keeps it
  // ---------------------------------------------------------------------------

  /** A process that had no answer to record takes up a saved pair, or none. */
  lemma QuietPhaseKeepsInv(account: string, s: State, p: Pid, phase: Phase)
    requires Inv(account, s) && !PhaseOf(s, p).Answered? && !phase.Answered?
    requires phase.Holding? ==> SavedIn(s.row) == Some(phase.pair) && BelongsTo(phase.pair, Some(account))
    ensures Inv(account, s.(phases := s.phases[p := phase]))
  {
    var t := s.(phases := s.phases[p := phase]);
    forall q | q in t.phases ensures HeldSound(t, q) {
      if q != p { assert HeldSound(s, q); }
    }
    forall k | k in t.consumed && k !in t.terminalSaved ensures IsSaved(t, k) && Guarded(t, SavedIn(t.row).value) {
      GuardSurvives(s, t, p);
    }
  }

  /** A guard survives a change of one process's phase that neither was nor becomes an answer. */
  lemma GuardSurvives(s: State, t: State, p: Pid)
    requires SavedIn(s.row).Some? && Guarded(s, SavedIn(s.row).value)
    requires t.row == s.row && !PhaseOf(s, p).Answered? && !PhaseOf(t, p).Answered?
    requires forall q :: q != p ==> PhaseOf(t, q) == PhaseOf(s, q) && (q in t.phases <==> q in s.phases)
    ensures Guarded(t, SavedIn(t.row).value)
  {
    var saved := SavedIn(s.row).value;
    if exists q :: q in s.phases && Witness(s, q, KeyOf(saved)) {
      var q :| q in s.phases && Witness(s, q, KeyOf(saved));
      assert Witness(t, q, KeyOf(saved));
    } else {
      forall q | q in t.phases ensures !LiveRefusal(t, q, saved) {
        assert q != p ==> q in s.phases && !LiveRefusal(s, q, saved);
      }
    }
  }

  /** A new pair is only ever put in the row when no consumed pair is waiting for its answer. */
  lemma MintKeepsInv(account: string, s: State, p: Pid, now: int, credits: seq<Credit>, uuid: string)
    requires Inv(account, s) && Enabled(account, s, Claim(p, now, credits, uuid))
    requires Mints(s.row, now, credits, Some(account), uuid)
    ensures Inv(account, Next(account, s, Claim(p, now, credits, uuid)))
  {
    var t := Next(account, s, Claim(p, now, credits, uuid));
    var minted := ClaimAttempt(s.row, now, credits, Some(account), uuid).1.pair;
    MintedIsSound(account, s, now, credits, uuid);
    NothingConsumedIsOpen(account, s, p, now, credits, uuid);
    assert KeyOf(minted) !in s.consumed + s.settledUnspent;
    forall q | q in t.phases ensures HeldSound(t, q) {
      if q != p {
        assert HeldSound(s, q);
      }
    }
  }

  lemma MintedIsSound(account: string, s: State, now: int, credits: seq<Credit>, uuid: string)
    requires account != "" && uuid != ""
    requires forall i :: 0 <= i < |credits| ==> credits[i].id != ""
    requires Mints(s.row, now, credits, Some(account), uuid)
    ensures var (row, decision) := ClaimAttempt(s.row, now, credits, Some(account), uuid);
            && SavedIn(row) == Some(decision.pair) && !IsCorrupt(row)
            && decision.pair.redeemRequestId == uuid && decision.pair.chatgptAccountId == Some(account)
            && decision.pair.unknownAnswers == 0
  {
    var minted := ClaimAttempt(s.row, now, credits, Some(account), uuid).1.pair;
    SelectsSoonest(credits);
    var k: nat :| SoonestAt(credits, k, SelectCreditToSpend(credits).value);
    assert credits[k].id == minted.creditId;
    StoredReadsBack(minted);
  }

  lemma NothingConsumedIsOpen(account: string, s: State, p: Pid, now: int, credits: seq<Credit>, uuid: string)
    requires Inv(account, s) && Enabled(account, s, Claim(p, now, credits, uuid))
    requires Mints(s.row, now, credits, Some(account), uuid)
    ensures s.consumed <= s.terminalSaved
    ensures forall q :: q in s.phases && HeldBy(s, q).Some? ==> KeyOf(HeldBy(s, q).value) in s.terminalSaved
  {
    if SavedIn(s.row).Some? {
      var saved := SavedIn(s.row).value;
      assert forall q :: q in s.phases ==> !Holds(s, q, KeyOf(saved));
      assert BelongsTo(saved, Some(account)) ==> saved.rejectedStatus.Some? && !Guarded(s, saved);
    }
    forall q | q in s.phases && HeldBy(s, q).Some? ensures KeyOf(HeldBy(s, q).value) in s.terminalSaved {
      assert HeldSound(s, q);
      if SavedIn(s.row).Some? {
        assert !Holds(s, q, KeyOf(SavedIn(s.row).value));
      }
    }
  }

  lemma LogStaysComplete(s: State, t: State, e: Event)
    requires LogComplete(s) && t.log == s.log + [e]
    requires match e
             case Consumed(key) => t.consumed == s.consumed + {key} && t.terminalSaved == s.terminalSaved
             case TerminalSaved(key) => t.consumed == s.consumed && t.terminalSaved == s.terminalSaved + {key}
    ensures LogComplete(t)
  {
    assert t.log[|s.log|] == e;
  }

  lemma SavedStays(log: seq<Event>, e: Event, i: nat, j: nat, key: Key)
    requires j <= |log|
    ensures SavedBetween(log, i, j, key) ==> SavedBetween(log + [e], i, j, key)
    ensures j == |log| && SavedLater(log, i, key) ==>
      SavedBetween(log + [e], i, j, key) && SavedLater(log + [e], i, key)
  {
    if SavedBetween(log, i, j, key) {
      var k :| i < k < j && log[k] == TerminalSaved(key);
      assert (log + [e])[k] == TerminalSaved(key);
    }
    if SavedLater(log, i, key) {
      var k :| i < k < |log| && log[k] == TerminalSaved(key);
      assert (log + [e])[k] == TerminalSaved(key);
    }
  }

  lemma LogOneMore(s: State, t: State, e: Event)
    requires LogSound(s) && LogComplete(s) && t.log == s.log + [e]
    requires match e
             case Consumed(key) =>
               && t.consumed == s.consumed + {key} && key !in t.terminalSaved && t.terminalSaved == s.terminalSaved
               && forall k :: k in s.consumed && k != key ==> k in s.terminalSaved
             case TerminalSaved(key) => t.consumed == s.consumed && t.terminalSaved == s.terminalSaved + {key}
    ensures LogSound(t) && LogComplete(t)
  {
    LogStaysComplete(s, t, e);
    var n := |s.log|;
    forall i | 0 <= i < |t.log| && t.log[i].Consumed? && t.log[i].key in t.terminalSaved
      ensures SavedLater(t.log, i, t.log[i].key)
    {
      if t.log[i].key in s.terminalSaved {
        SavedStays(s.log, e, i, n, t.log[i].key);
      } else {
        assert t.log[n] == TerminalSaved(t.log[i].key);
      }
    }
    forall i, j | 0 <= i < j < |t.log| && t.log[i].Consumed? && t.log[j].Consumed? && t.log[i].key != t.log[j].key
      ensures SavedBetween(t.log, i, j, t.log[i].key)
    {
      SavedStays(s.log, e, i, j, s.log[i].key);
      if j == n {
        assert SavedLater(s.log, i, s.log[i].key);
      }
    }
  }

  /** The server consumes the pair: it is the saved one, and every earlier one was answered for good. */
  lemma ConsumingSendKeepsInv(account: string, s: State, p: Pid, answer: Answer)
    requires Inv(account, s) && Enabled(account, s, Send(p, answer, true))
    ensures Inv(account, Next(account, s, Send(p, answer, true)))
  {
    var t := Next(account, s, Send(p, answer, true));
    var key := KeyOf(PhaseOf(s, p).pair);
    assert p in s.phases && HeldSound(s, p);
    assert Witness(t, p, key);
    forall q | q in t.phases ensures HeldSound(t, q) {
      if q != p { assert HeldSound(s, q); }
    }
    LogOneMore(s, t, Consumed(key));
  }

  lemma OtherSendKeepsInv(account: string, s: State, p: Pid, answer: Answer)
    requires Inv(account, s) && Enabled(account, s, Send(p, answer, false))
    ensures Inv(account, Next(account, s, Send(p, answer, false)))
  {
    var t := Next(account, s, Send(p, answer, false));
    assert p in s.phases && HeldSound(s, p);
    forall q | q in t.phases ensures HeldSound(t, q) {
      if q != p { assert HeldSound(s, q); }
    }
    forall k | k in t.consumed && k !in t.terminalSaved ensures IsSaved(t, k) && Guarded(t, SavedIn(t.row).value) {
      var saved := SavedIn(s.row).value;
      if exists q :: q in s.phases && Witness(s, q, k) {
        var q :| q in s.phases && Witness(s, q, k);
        assert Witness(t, q, k);
      } else {
        forall q | q in t.phases ensures !LiveRefusal(t, q, saved) {
          assert q != p ==> q in s.phases && !LiveRefusal(s, q, saved);
        }
      }
    }
  }

  /** Recording a terminal answer clears the pair, and nothing consumed is left open. */
  lemma TerminalRecordKeepsInv(account: string, s: State, p: Pid, now: int)
    requires Inv(account, s) && Enabled(account, s, Record(p, now))
    requires PhaseOf(s, p).answer.Terminal? && SavedMatching(s.row, PhaseOf(s, p).pair).Some?
    ensures Inv(account, Next(account, s, Record(p, now)))
  {
    var t := Next(account, s, Record(p, now));
    assert p in s.phases && HeldSound(s, p);
    forall q | q in t.phases ensures HeldSound(t, q) {
      if q != p { assert HeldSound(s, q); }
    }
    LogOneMore(s, t, TerminalSaved(KeyOf(PhaseOf(s, p).pair)));
  }

  /** The saved pair stays guarded when `p`, safely, keeps nothing of its answer. */
  lemma DoneKeepsGuard(account: string, s: State, p: Pid, k: Key)
    requires Inv(account, s) && PhaseOf(s, p).Answered? && LossIsSafe(s, p)
    requires k in s.consumed && k !in s.terminalSaved
    ensures IsSaved(s, k) && Guarded(Forgotten(s, p), SavedIn(s.row).value)
  {
    var t, saved := Forgotten(s, p), SavedIn(s.row).value;
    if exists q :: q in s.phases && q != p && Witness(s, q, k) {
      var q :| q in s.phases && q != p && Witness(s, q, k);
      assert Witness(t, q, k);
    } else {
      assert Holds(s, p, k) && !Refuses(PhaseOf(s, p).answer) ==>
        saved.rejectedStatus.None? && NoLiveRefusal(s, saved);
      forall q | q in t.phases ensures !LiveRefusal(t, q, saved) {
        assert q != p ==> q in s.phases && !LiveRefusal(s, q, saved);
      }
    }
  }

  /** `p` is done with its answer, which left the saved pair as it is. */
  lemma DoneKeepsInv(account: string, s: State, p: Pid)
    requires Inv(account, s) && PhaseOf(s, p).Answered? && LossIsSafe(s, p)
    ensures Inv(account, Forgotten(s, p))
  {
    var t := Forgotten(s, p);
    forall q | q in t.phases ensures HeldSound(t, q) {
      if q != p { assert HeldSound(s, q); }
    }
    forall k | k in t.consumed && k !in t.terminalSaved ensures IsSaved(t, k) && Guarded(t, SavedIn(t.row).value) {
      DoneKeepsGuard(account, s, p, k);
    }
  }

  /** An annotation is sound: it reads back, belongs to the account and counts no less. */
  lemma AnnotateSound(account: string, persisted: SavedPair, completing: SavedPair, answer: Answer)
    requires account != "" && WellFormed(persisted)
    requires Unknown(answer) ==> persisted.unknownAnswers < MAX_SAFE_INTEGER
    requires BelongsTo(persisted, Some(account)) && !answer.Terminal?
    ensures var next := Annotate(persisted, completing, answer, Some(account));
            && ValidInFlight(Some(Stored(next))) == Some(next)
            && KeyOf(next) == KeyOf(persisted) && BelongsTo(next, Some(account))
            && Evolves(persisted, next)
            && (!Refuses(answer) ==> next.rejectedStatus.None? && persisted.unknownAnswers < next.unknownAnswers)
            && (Refuses(answer) && completing.unknownAnswers != persisted.unknownAnswers ==>
                  next.rejectedStatus == persisted.rejectedStatus)
            && (Refuses(answer) ==> next.unknownAnswers == persisted.unknownAnswers)
  {
    StoredReadsBack(Annotate(persisted, completing, answer, Some(account)));
  }

  lemma AnnotatingRecordKeepsInv(account: string, s: State, p: Pid, now: int)
    requires Inv(account, s) && Enabled(account, s, Record(p, now))
    requires !PhaseOf(s, p).answer.Terminal? && SavedMatching(s.row, PhaseOf(s, p).pair).Some?
    requires !SkipsWrite(PhaseOf(s, p).pair, PhaseOf(s, p).answer, Some(account))
    ensures Inv(account, Next(account, s, Record(p, now)))
  {
    var t := Next(account, s, Record(p, now));
    var pair, answer, persisted := PhaseOf(s, p).pair, PhaseOf(s, p).answer, SavedIn(s.row).value;
    AnnotateSound(account, persisted, pair, answer);
    assert p in s.phases && HeldSound(s, p);
    var saved := SavedIn(t.row).value;
    assert saved == Annotate(persisted, pair, answer, Some(account));
    forall q | q in t.phases ensures HeldSound(t, q) {
      if q != p { assert HeldSound(s, q); }
    }
    forall k | k in t.consumed && k !in t.terminalSaved ensures IsSaved(t, k) && Guarded(t, saved) {
      assert IsSaved(s, k) && Guarded(s, persisted);
      if exists q :: q in s.phases && q != p && Witness(s, q, k) {
        var q :| q in s.phases && q != p && Witness(s, q, k);
        assert Witness(t, q, k);
      } else {
        assert Holds(s, p, k);
        forall q | q in t.phases ensures !LiveRefusal(t, q, saved) {
          assert q != p ==> q in s.phases && HeldSound(s, q);
          assert q != p && LiveRefusal(t, q, saved) && Refuses(answer) ==> LiveRefusal(s, q, persisted);
        }
      }
    }
  }

  lemma StepKeepsInv(account: string, s: State, step: Step)
    requires Inv(account, s) && Enabled(account, s, step)
    ensures Inv(account, Next(account, s, step))
  {
    match step
    case Inspect(p, retry, now) =>
      QuietPhaseKeepsInv(account, s, p, PhaseAfter(InspectResetState(s.row, now), retry, Some(account)));
    case ResolveDamage(p, now) =>
      QuietPhaseKeepsInv(account, s, p,
        PhaseAfter(InspectResetState(s.row, now), PhaseOf(s, p).retry, Some(account)));
    case GiveUp(p) => QuietPhaseKeepsInv(account, s, p, Idle);
    case Claim(p, now, credits, uuid) =>
      if Mints(s.row, now, credits, Some(account), uuid) {
        MintKeepsInv(account, s, p, now, credits, uuid);
      } else {
        ClaimWithoutMinting(account, s, p, now, credits, uuid);
      }
    case Send(p, answer, consumes) =>
      if consumes { ConsumingSendKeepsInv(account, s, p, answer); } else { OtherSendKeepsInv(account, s, p, answer); }
    case Record(p, now) =>
      var pair, answer := PhaseOf(s, p).pair, PhaseOf(s, p).answer;
      if SavedMatching(s.row, pair).None? || SkipsWrite(pair, answer, Some(account)) {
        DoneKeepsInv(account, s, p);
      } else if answer.Terminal? {
        TerminalRecordKeepsInv(account, s, p, now);
      } else {
        AnnotatingRecordKeepsInv(account, s, p, now);
      }
    case LoseAnswer(p) => DoneKeepsInv(account, s, p);
  }

  lemma ClaimWithoutMinting(account: string, s: State, p: Pid, now: int, credits: seq<Credit>, uuid: string)
    requires Inv(account, s) && Enabled(account, s, Claim(p, now, credits, uuid))
    requires !Mints(s.row, now, credits, Some(account), uuid)
    ensures Inv(account, Next(account, s, Claim(p, now, credits, uuid)))
  {
    var (row, decision) := ClaimAttempt(s.row, now, credits, Some(account), uuid);
    var next := if decision.Claimed? && BelongsTo(decision.pair, Some(account)) then Holding(decision.pair) else Idle;
    QuietPhaseKeepsInv(account, s, p, next);
    var u := s.(phases := s.phases[p := next]);
    var t := u.(usedIds := u.usedIds + {uuid});
    forall q | q in t.phases ensures HeldSound(t, q) {
      assert HeldSound(u, q);
    }
    SameExceptIds(u, t);
  }

  lemma SameExceptIds(s: State, t: State)
    requires t == s.(usedIds := t.usedIds) && s.usedIds <= t.usedIds
    requires KeysSound(s) && ConsumedSound(s) && LogSound(s) && LogComplete(s)
    ensures KeysSound(t) && ConsumedSound(t) && LogSound(t) && LogComplete(t)
  {
    forall k | k in t.consumed && k !in t.terminalSaved ensures IsSaved(t, k) && Guarded(t, SavedIn(t.row).value) {
      var saved := SavedIn(s.row).value;
      assert Guarded(s, saved);
      if exists q :: q in s.phases && Witness(s, q, k) {
        var q :| q in s.phases && Witness(s, q, k);
        assert Witness(t, q, k);
      } else {
        forall q | q in t.phases ensures !LiveRefusal(t, q, saved) {
          assert !LiveRefusal(s, q, saved);
        }
      }
    }
  }

  lemma {:induction false} RunKeepsInv(account: string, states: seq<State>, steps: seq<Step>, i: nat)
    requires IsRun(account, states, steps) && i < |states|
    ensures Inv(account, states[i])
  {
    if i > 0 {
      RunKeepsInv(account, states, steps, i - 1);
      StepKeepsInv(account, states[i - 1], steps[i - 1]);
    }
  }

  /**
   * No double spend: over every interleaving of spends and retries by any number of processes, the
   * server never consumes two distinct pairs unless a terminal answer for the first was saved in
   * between.
   */
  lemma NoDoubleSpend(account: string, states: seq<State>, steps: seq<Step>, n: nat, i: nat, j: nat)
    requires IsRun(account, states, steps) && n < |states|
    requires i < j < |states[n].log| && states[n].log[i].Consumed? && states[n].log[j].Consumed?
    requires states[n].log[i].key != states[n].log[j].key
    ensures exists k :: i < k < j && states[n].log[k] == TerminalSaved(states[n].log[i].key)
  {
    RunKeepsInv(account, states, steps, n);
    assert SavedBetween(states[n].log, i, j, states[n].log[i].key);
  }

  /**
   * A pair the server consumed stays saved until a terminal answer for it is saved, and meanwhile no
   * new spend can put another pair in its place.
   */
  lemma ConsumedPairIsKept(account: string, states: seq<State>, steps: seq<Step>, n: nat, key: Key)
    requires IsRun(account, states, steps) && n < |steps|
    requires key in states[n].consumed && key !in states[n].terminalSaved
    ensures IsSaved(states[n], key)
    ensures steps[n].Claim? ==> states[n + 1].row == states[n].row
  {
    RunKeepsInv(account, states, steps, n);
    var s := states[n];
    if steps[n].Claim? {
      var Claim(p, now, credits, uuid) := steps[n];
      if Mints(s.row, now, credits, Some(account), uuid) {
        NothingConsumedIsOpen(account, s, p, now, credits, uuid);
        assert false;
      }
      assert IsSaved(s, key);
    }
  }

  // ---------------------------------------------------------------------------
  // The cooldown after a spent credit
  // ---------------------------------------------------------------------------

  /** The step saves the answer that the credit was spent, and so starts a cooldown. */
  predicate SavesSpent(s: State, step: Step) {
    && step.Record? && PhaseOf(s, step.p).Answered?
    && PhaseOf(s, step.p).answer.Terminal? && PhaseOf(s, step.p).answer.kind in {Reset, AlreadyRedeemed}
    && SavedMatching(s.row, PhaseOf(s, step.p).pair).Some?
  }

  predicate MintsAt(account: string, s: State, step: Step) {
    step.Claim? && Mints(s.row, step.now, step.credits, Some(account), step.uuid)
  }

  /** Nothing is saved and the cooldown stands. */
  predicate Cooling(row: Option<ResetState>, until: int) {
    row.Some? && row.value.inFlight.None? && row.value.cooldownUntil == Some(until)
  }

  lemma OnlyMintingEndsCooldown(account: string, s: State, step: Step, until: int)
    requires Enabled(account, s, step) && Cooling(s.row, until)
    ensures !MintsAt(account, s, step) ==> Cooling(Next(account, s, step).row, until)
    ensures MintsAt(account, s, step) ==> step.now >= until
  {
    if step.Claim? {
      MintsExactly(s.row, step.now, step.credits, Some(account), step.uuid);
    }
  }

  lemma {:induction false} CoolsUntilMint(account: string, states: seq<State>, steps: seq<Step>, i: nat, k: nat)
    requires IsRun(account, states, steps) && i < k < |states| && SavesSpent(states[i], steps[i])
    requires forall m :: i < m < k ==> !MintsAt(account, states[m], steps[m])
    ensures Cooling(states[k].row, steps[i].now + RESET_COOLDOWN_MS)
    decreases k
  {
    assert Enabled(account, states[k - 1], steps[k - 1]) && states[k] == Next(account, states[k - 1], steps[k - 1]);
    if i < k - 1 {
      CoolsUntilMint(account, states, steps, i, k - 1);
      OnlyMintingEndsCooldown(account, states[k - 1], steps[k - 1], steps[i].now + RESET_COOLDOWN_MS);
    }
  }

  /**
   * Once the answer to a spent credit is saved, no process mints another redemption for a minute, also
   * one that looked at the row before: over every run in which the clocks of the claims do not go back.
   */
  lemma NoMintInCooldown(account: string, states: seq<State>, steps: seq<Step>, i: nat, j: nat)
    requires IsRun(account, states, steps) && i < j < |steps| && SavesSpent(states[i], steps[i])
    requires forall m :: i < m < j && steps[m].Claim? && steps[j].Claim? ==> steps[m].now <= steps[j].now
    ensures MintsAt(account, states[j], steps[j]) ==> steps[j].now >= steps[i].now + 60_000
    decreases j
  {
    if forall m :: i < m < j ==> !MintsAt(account, states[m], steps[m]) {
      CoolsUntilMint(account, states, steps, i, j);
      assert Enabled(account, states[j], steps[j]);
      OnlyMintingEndsCooldown(account, states[j], steps[j], steps[i].now + RESET_COOLDOWN_MS);
    } else {
      var first := FirstMint(account, states, steps, i, j);
      CoolsUntilMint(account, states, steps, i, first);
      assert Enabled(account, states[first], steps[first]);
      OnlyMintingEndsCooldown(account, states[first], steps[first], steps[i].now + RESET_COOLDOWN_MS);
    }
  }

  lemma {:induction false} FirstMint(account: string, states: seq<State>, steps: seq<Step>, i: nat, j: nat)
    returns (first: nat)
    requires |states| == |steps| + 1 && i < j <= |steps|
    requires exists m :: i < m < j && MintsAt(account, states[m], steps[m])
    ensures i < first < j && MintsAt(account, states[first], steps[first])
    ensures forall m :: i < m < first ==> !MintsAt(account, states[m], steps[m])
    decreases j
  {
    if exists m :: i < m < j - 1 && MintsAt(account, states[m], steps[m]) {
      first := FirstMint(account, states, steps, i, j - 1);
    } else {
      first := j - 1;
    }
  }
}
