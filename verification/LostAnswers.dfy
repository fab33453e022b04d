/**
 * When the answer to a send may go unrecorded in the redemption protocol
 * (packages/core/src/reset-credits.ts): exactly where no second credit can be consumed because of it.
 */
module LostAnswers {
  import opened Prelude
  import opened ResetCredits
  import opened ResetProtocol

  // ---------------------------------------------------------------------------
  // Runs from any state
  // ---------------------------------------------------------------------------

  predicate CanRun(account: string, s: State, steps: seq<Step>)
    decreases |steps|
  {
    steps == [] || (Enabled(account, s, steps[0]) && CanRun(account, Next(account, s, steps[0]), steps[1..]))
  }

  function StateAfter(account: string, s: State, steps: seq<Step>): State
    requires CanRun(account, s, steps)
    decreases |steps|
  {
    if steps == [] then s else StateAfter(account, Next(account, s, steps[0]), steps[1..])
  }

  lemma {:induction false} RunOn(account: string, s: State, a: seq<Step>, b: seq<Step>)
    requires CanRun(account, s, a) && CanRun(account, StateAfter(account, s, a), b)
    ensures CanRun(account, s, a + b)
    ensures StateAfter(account, s, a + b) == StateAfter(account, StateAfter(account, s, a), b)
    decreases |a|
  {
    if a == [] {
      assert a + b == b;
    } else {
      RunOn(account, Next(account, s, a[0]), a[1..], b);
      assert (a + b)[1..] == a[1..] + b;
    }
  }

  lemma OneStep(account: string, s: State, step: Step)
    requires Enabled(account, s, step)
    ensures CanRun(account, s, [step]) && StateAfter(account, s, [step]) == Next(account, s, step)
  {
    assert [step][1..] == [];
  }

  lemma {:induction false} InvHoldsAfter(account: string, s: State, steps: seq<Step>)
    requires Inv(account, s) && CanRun(account, s, steps)
    ensures Inv(account, StateAfter(account, s, steps))
    decreases |steps|
  {
    if steps != [] {
      StepKeepsInv(account, s, steps[0]);
      InvHoldsAfter(account, Next(account, s, steps[0]), steps[1..]);
    }
  }

  /** Two distinct pairs were consumed with no terminal answer for the first saved in between. */
  predicate SpentTwice(log: seq<Event>) {
    exists i, j :: 0 <= i < j < |log| && log[i].Consumed? && log[j].Consumed? && log[i].key != log[j].key
      && !SavedBetween(log, i, j, log[i].key)
  }

  // ---------------------------------------------------------------------------
  // A refused pair nobody holds can be replaced
  // ---------------------------------------------------------------------------

  lemma {:induction false} LongestId(ids: set<string>) returns (n: nat)
    ensures forall id :: id in ids ==> |id| <= n
    decreases |ids|
  {
    if ids == {} {
      n := 0;
    } else {
      var id :| id in ids;
      var rest := LongestId(ids - {id});
      n := Max(rest, |id|);
    }
  }

  lemma FreshId(ids: set<string>) returns (id: string)
    ensures id != "" && id !in ids
  {
    var n := LongestId(ids);
    id := seq(n + 1, _ => 'x');
  }

  /** Nobody holds the pair that is saved with a refusal, and every pair the server knows has a used id. */
  predicate Replaceable(account: string, s: State, p: Pid) {
    && account != "" && PhaseOf(s, p) == Idle
    && SavedIn(s.row).Some? && SavedIn(s.row).value.rejectedStatus.Some?
    && BelongsTo(SavedIn(s.row).value, Some(account))
    && (forall q :: q in s.phases ==> !Holds(s, q, KeyOf(SavedIn(s.row).value)))
    && (forall k :: k in s.consumed + s.settledUnspent ==> k.redeemRequestId in s.usedIds)
  }

  const SOME_CREDITS := [Credit("other", "available", 1, Some("codex_rate_limits"), true)]

  lemma OneCreditIsSelected()
    ensures SelectCreditToSpend(SOME_CREDITS) == Some(SOME_CREDITS[0])
  {
    SelectsSoonest(SOME_CREDITS);
  }

  /** By then the pair has expired and no cooldown is left. */
  function LateEnough(row: Option<ResetState>): int
    requires SavedIn(row).Some?
  {
    Max(SavedIn(row).value.startedAt + RESET_IN_FLIGHT_TTL_MS, row.value.cooldownUntil.GetOr(0))
  }

  lemma RefusedPairIsReplaced(row: Option<ResetState>, account: string, uuid: string)
    requires SavedIn(row).Some? && SavedIn(row).value.rejectedStatus.Some?
    ensures var now := LateEnough(row);
            var minted := SavedPair(uuid, "other", now, Some(account), None, 0);
            && InspectResetState(row, now) == ExpiredUnreconciled(SavedIn(row).value)
            && ClaimAttempt(row, now, SOME_CREDITS, Some(account), uuid)
               == (Some(row.value.(inFlight := Some(Stored(minted)))), Claimed(minted))
  {
    OneCreditIsSelected();
  }

  lemma SpendBegins(account: string, s: State, p: Pid)
    requires Replaceable(account, s, p)
    ensures var inspect := Inspect(p, false, LateEnough(s.row));
            Enabled(account, s, inspect) && Next(account, s, inspect) == s.(phases := s.phases[p := Spending])
  {
    RefusedPairIsReplaced(s.row, account, "");
  }

  /** A claim that returns a pair of the account leaves the process holding it. */
  lemma ClaimTakes(
      account: string, s: State, p: Pid, now: int, credits: seq<Credit>, uuid: string,
      row: Option<ResetState>, pair: SavedPair)
    requires PhaseOf(s, p).Spending? && uuid != "" && uuid !in s.usedIds
    requires forall i :: 0 <= i < |credits| ==> credits[i].id != ""
    requires SavedIn(s.row).Some? ==> forall q :: q in s.phases ==> !Holds(s, q, KeyOf(SavedIn(s.row).value))
    requires ClaimAttempt(s.row, now, credits, Some(account), uuid) == (row, Claimed(pair))
    requires BelongsTo(pair, Some(account))
    ensures Enabled(account, s, Claim(p, now, credits, uuid))
    ensures Next(account, s, Claim(p, now, credits, uuid))
         == s.(row := row, phases := s.phases[p := Holding(pair)], usedIds := s.usedIds + {uuid})
  {
  }

  lemma SpendMints(account: string, s: State, p: Pid, uuid: string)
    requires Replaceable(account, s, p) && uuid != "" && uuid !in s.usedIds
    ensures var now := LateEnough(s.row);
            var minted := SavedPair(uuid, "other", now, Some(account), None, 0);
            var t := s.(phases := s.phases[p := Spending]);
            var claim := Claim(p, now, SOME_CREDITS, uuid);
            && Enabled(account, t, claim)
            && Next(account, t, claim) == t.(row := Some(s.row.value.(inFlight := Some(Stored(minted)))),
                 phases := t.phases[p := Holding(minted)], usedIds := t.usedIds + {uuid})
  {
    RefusedPairIsReplaced(s.row, account, uuid);
    var t := s.(phases := s.phases[p := Spending]);
    forall q | q in t.phases ensures !Holds(t, q, KeyOf(SavedIn(s.row).value)) {
      assert q != p ==> !Holds(s, q, KeyOf(SavedIn(s.row).value));
    }
    var now := LateEnough(s.row);
    var minted := SavedPair(uuid, "other", now, Some(account), None, 0);
    ClaimTakes(account, t, p, now, SOME_CREDITS, uuid, Some(s.row.value.(inFlight := Some(Stored(minted)))), minted);
  }

  /** A new spend puts another pair in its place and the server consumes it. */
  lemma Respend(account: string, s: State, p: Pid) returns (steps: seq<Step>, key: Key)
    requires Replaceable(account, s, p)
    ensures key.redeemRequestId !in s.usedIds
    ensures CanRun(account, s, steps) && StateAfter(account, s, steps).log == s.log + [Consumed(key)]
  {
    var uuid := FreshId(s.usedIds);
    var now := LateEnough(s.row);
    var minted := SavedPair(uuid, "other", now, Some(account), None, 0);
    var inspect, claim, send :=
      Inspect(p, false, now), Claim(p, now, SOME_CREDITS, uuid), Send(p, Terminal(Reset), true);
    key := KeyOf(minted);
    SpendBegins(account, s, p);
    SpendMints(account, s, p, uuid);
    var s1 := Next(account, s, inspect);
    var s2 := Next(account, s1, claim);
    assert key !in s2.consumed + s2.settledUnspent;
    OneStep(account, s, inspect);
    OneStep(account, s1, claim);
    OneStep(account, s2, send);
    RunOn(account, s1, [claim], [send]);
    RunOn(account, s, [inspect], [claim] + [send]);
    steps := [inspect] + ([claim] + [send]);
  }

  // ---------------------------------------------------------------------------
  // Everyone lets go of the pair
  // ---------------------------------------------------------------------------

  /** The processes holding the pair. */
  function Holders(s: State, key: Key): set<Pid> {
    set q | q in s.phases && Holds(s, q, key)
  }

  /** Those who have an answer have a refusal. */
  predicate OnlyRefusals(s: State, key: Key) {
    forall q :: q in s.phases ==> !Witness(s, q, key)
  }

  /** A process that holds the pair gives up, or loses its refusal. */
  function LetGo(s: State, q: Pid): Step {
    if PhaseOf(s, q).Holding? then GiveUp(q) else LoseAnswer(q)
  }

  lemma LettingGo(account: string, s: State, key: Key, q: Pid)
    requires q in Holders(s, key) && OnlyRefusals(s, key)
    ensures Enabled(account, s, LetGo(s, q)) && Next(account, s, LetGo(s, q)) == Forgotten(s, q)
    ensures Holders(Forgotten(s, q), key) == Holders(s, key) - {q}
    ensures OnlyRefusals(Forgotten(s, q), key)
  {
    assert !Witness(s, q, key);
    var t := Forgotten(s, q);
    forall r | r in t.phases ensures !Witness(t, r, key) && (Holds(t, r, key) <==> r != q && Holds(s, r, key)) {
      assert r != q ==> r in s.phases && !Witness(s, r, key);
    }
  }

  lemma {:induction false} AllLetGo(account: string, s: State, key: Key, p: Pid)
    returns (steps: seq<Step>, t: State)
    requires OnlyRefusals(s, key) && PhaseOf(s, p) == Idle
    ensures CanRun(account, s, steps) && StateAfter(account, s, steps) == t
    ensures t == s.(phases := t.phases) && PhaseOf(t, p) == Idle && Holders(t, key) == {}
    decreases |Holders(s, key)|
  {
    if Holders(s, key) == {} {
      steps, t := [], s;
    } else {
      var q :| q in Holders(s, key);
      LettingGo(account, s, key, q);
      var rest;
      rest, t := AllLetGo(account, Forgotten(s, q), key, p);
      OneStep(account, s, LetGo(s, q));
      RunOn(account, s, [LetGo(s, q)], rest);
      steps := [LetGo(s, q)] + rest;
    }
  }

  // ---------------------------------------------------------------------------
  // The exact condition
  // ---------------------------------------------------------------------------

  /** The consumed pair is saved with a refusal, and no answer that rules one out is left to record. */
  predicate Exposed(account: string, s: State, key: Key) {
    && account != "" && IsSaved(s, key) && BelongsTo(SavedIn(s.row).value, Some(account))
    && SavedIn(s.row).value.rejectedStatus.Some? && OnlyRefusals(s, key)
    && Consumed(key) in s.log && (forall i :: 0 <= i < |s.log| ==> s.log[i] != TerminalSaved(key))
    && key.redeemRequestId in s.usedIds
    && (forall k :: k in s.consumed + s.settledUnspent ==> k.redeemRequestId in s.usedIds)
  }

  lemma ExposedSpendsTwice(account: string, s: State, key: Key, p: Pid) returns (steps: seq<Step>)
    requires Exposed(account, s, key) && PhaseOf(s, p) == Idle
    ensures CanRun(account, s, steps) && SpentTwice(StateAfter(account, s, steps).log)
  {
    var releases, t := AllLetGo(account, s, key, p);
    assert forall q :: q in t.phases ==> !Holds(t, q, key) by {
      assert forall q :: q in t.phases && Holds(t, q, key) ==> q in Holders(t, key);
    }
    assert Replaceable(account, t, p);
    var spends, second := Respend(account, t, p);
    RunOn(account, s, releases, spends);
    steps := releases + spends;
    SecondConsumption(s.log, key, second);
  }

  lemma SecondConsumption(log: seq<Event>, first: Key, second: Key)
    requires Consumed(first) in log && first != second
    requires forall i :: 0 <= i < |log| ==> log[i] != TerminalSaved(first)
    ensures SpentTwice(log + [Consumed(second)])
  {
    var i :| 0 <= i < |log| && log[i] == Consumed(first);
    var all := log + [Consumed(second)];
    assert all[i] == Consumed(first) && all[|log|] == Consumed(second);
    assert !SavedBetween(all, i, |log|, first) by {
      assert forall k :: 0 <= k < |log| ==> all[k] == log[k];
    }
  }

  /** What an unsafe loss leaves: no other answer that rules a refusal out. */
  lemma UnsafeLoss(account: string, s: State, p: Pid)
    requires Inv(account, s) && PhaseOf(s, p).Answered? && !LossIsSafe(s, p)
    ensures var key := KeyOf(PhaseOf(s, p).pair);
            var t := Forgotten(s, p);
            && IsSaved(t, key) && OnlyRefusals(t, key) && BelongsTo(SavedIn(t.row).value, Some(account))
            && Consumed(key) in t.log && (forall i :: 0 <= i < |t.log| ==> t.log[i] != TerminalSaved(key))
            && key.redeemRequestId in t.usedIds
  {
    var key := KeyOf(PhaseOf(s, p).pair);
    var t := Forgotten(s, p);
    assert p in s.phases && Holds(s, p, key);
    forall q | q in t.phases ensures !Witness(t, q, key) {
      assert q != p ==> q in s.phases && !Witness(s, q, key);
    }
  }

  /** An outstanding refusal, read at the saved pair's count, is recorded. */
  lemma RefusalIsRecorded(account: string, s: State, q: Pid)
    requires Inv(account, s) && q in s.phases && SavedIn(s.row).Some? && LiveRefusal(s, q, SavedIn(s.row).value)
    requires KeyOf(SavedIn(s.row).value) !in s.terminalSaved && SavedIn(s.row).value.rejectedStatus.None?
    ensures var saved := SavedIn(s.row).value;
            var record := FinalizeAttempt(s.row, 0, PhaseOf(s, q).pair, PhaseOf(s, q).answer, Some(account)).0;
            && SavedMatching(s.row, PhaseOf(s, q).pair) == Some(saved)
            && SavedIn(record).Some? && KeyOf(SavedIn(record).value) == KeyOf(saved)
            && BelongsTo(SavedIn(record).value, Some(account)) && SavedIn(record).value.rejectedStatus.Some?
  {
    var saved := SavedIn(s.row).value;
    assert HeldSound(s, q) && Holds(s, q, KeyOf(saved));
    AnnotateSound(account, saved, PhaseOf(s, q).pair, PhaseOf(s, q).answer);
  }

  /** So the state left by an unsafe loss is exposed, at once or when the outstanding refusal is recorded. */
  lemma UnsafeLossExposes(account: string, s: State, p: Pid) returns (steps: seq<Step>)
    requires Inv(account, s) && PhaseOf(s, p).Answered? && !LossIsSafe(s, p)
    ensures CanRun(account, Forgotten(s, p), steps)
    ensures var t := StateAfter(account, Forgotten(s, p), steps);
            Exposed(account, t, KeyOf(PhaseOf(s, p).pair)) && PhaseOf(t, p) == Idle
  {
    UnsafeLoss(account, s, p);
    var key, t := KeyOf(PhaseOf(s, p).pair), Forgotten(s, p);
    var saved := SavedIn(s.row).value;
    if saved.rejectedStatus.Some? {
      steps := [];
    } else {
      var q :| q in s.phases && LiveRefusal(s, q, saved);
      RefusalIsRecorded(account, s, q);
      assert q != p;
      var record := Record(q, 0);
      assert Enabled(account, t, record);
      OneStep(account, t, record);
      steps := [record];
      var u := Next(account, t, record);
      forall r | r in u.phases ensures !Witness(u, r, key) {
        assert r != q ==> r in t.phases && !Witness(t, r, key);
      }
    }
  }

  /**
   * The condition is exact. In every state of the invariant, and so in every reachable one, not recording
   * the answer of a process can lead to a second consumption, by steps of the protocol alone, if and only
   * if the loss is not safe.
   */
  lemma LossSafeExactly(account: string, s: State, p: Pid)
    requires Inv(account, s) && PhaseOf(s, p).Answered?
    ensures LossIsSafe(s, p) <==>
      forall steps :: CanRun(account, Forgotten(s, p), steps) ==>
        !SpentTwice(StateAfter(account, Forgotten(s, p), steps).log)
  {
    var t := Forgotten(s, p);
    if LossIsSafe(s, p) {
      DoneKeepsInv(account, s, p);
      forall steps | CanRun(account, t, steps) ensures !SpentTwice(StateAfter(account, t, steps).log) {
        InvHoldsAfter(account, t, steps);
      }
    } else {
      var first := UnsafeLossExposes(account, s, p);
      var u := StateAfter(account, t, first);
      var second := ExposedSpendsTwice(account, u, KeyOf(PhaseOf(s, p).pair), p);
      RunOn(account, t, first, second);
      assert CanRun(account, t, first + second);
    }
  }

  // ---------------------------------------------------------------------------
  // Two runs that lose an answer
  // ---------------------------------------------------------------------------

  const REFUSED := SavedPair("one", "credit", 0, Some("acct"), Some(403), 0)
  const SECOND := SavedPair("two", "other", RESET_IN_FLIGHT_TTL_MS, Some("acct"), None, 0)

  const REFUSED_ROW := Some(ResetState(Some(Stored(REFUSED)), None, None))
  const SECOND_ROW := Some(ResetState(Some(Stored(SECOND)), None, None))

  const SAVED := State(REFUSED_ROW, map[], {}, {}, {}, {"one"}, [])
  const RETRYING := SAVED.(phases := map[0 := Holding(REFUSED)])
  const CONSUMED_ONE := RETRYING.(
    phases := map[0 := Answered(REFUSED, Ambiguous)], consumed := {KeyOf(REFUSED)}, log := [Consumed(KeyOf(REFUSED))])
  const LOST := CONSUMED_ONE.(phases := map[0 := Idle])
  const RESPENDING := LOST.(phases := LOST.phases[1 := Spending])
  const MINTED := RESPENDING.(
    row := SECOND_ROW, phases := RESPENDING.phases[1 := Holding(SECOND)], usedIds := RESPENDING.usedIds + {"two"})
  const SPENT_TWICE := MINTED.(
    phases := MINTED.phases[1 := Answered(SECOND, Terminal(Reset))], consumed := MINTED.consumed + {KeyOf(SECOND)},
    log := [Consumed(KeyOf(REFUSED)), Consumed(KeyOf(SECOND))])

  predicate Leads(s: State, step: Step, t: State) {
    Enabled("acct", s, step) && Next("acct", s, step) == t
  }

  lemma RefusedIsSaved()
    ensures ValidInFlight(Some(Stored(REFUSED))) == Some(REFUSED)
    ensures Initial("acct", SAVED)
  {
    StoredReadsBack(REFUSED);
  }

  lemma RetryConsumes()
    ensures Leads(SAVED, Inspect(0, true, 0), RETRYING)
    ensures Leads(RETRYING, Send(0, Ambiguous, true), CONSUMED_ONE)
  {
    RefusedIsSaved();
  }

  lemma RefusedIsReplaced()
    ensures InspectResetState(REFUSED_ROW, RESET_IN_FLIGHT_TTL_MS) == ExpiredUnreconciled(REFUSED)
    ensures ClaimAttempt(REFUSED_ROW, RESET_IN_FLIGHT_TTL_MS, SOME_CREDITS, Some("acct"), "two")
         == (SECOND_ROW, Claimed(SECOND))
  {
    RefusedIsSaved();
    OneCreditIsSelected();
  }

  lemma SpendMayReplace()
    ensures Leads(LOST, Inspect(1, false, RESET_IN_FLIGHT_TTL_MS), RESPENDING)
  {
    RefusedIsReplaced();
  }

  lemma SecondIsMinted()
    ensures Leads(RESPENDING, Claim(1, RESET_IN_FLIGHT_TTL_MS, SOME_CREDITS, "two"), MINTED)
  {
    RefusedIsReplaced();
    ClaimTakes("acct", RESPENDING, 1, RESET_IN_FLIGHT_TTL_MS, SOME_CREDITS, "two", SECOND_ROW, SECOND);
  }

  lemma SecondIsConsumed()
    ensures Leads(MINTED, Send(1, Terminal(Reset), true), SPENT_TWICE)
  {
    assert MINTED.log + [Consumed(KeyOf(SECOND))] == SPENT_TWICE.log;
  }

  lemma LossIsRuledOut()
    ensures !LossIsSafe(CONSUMED_ONE, 0) && LOST == Forgotten(CONSUMED_ONE, 0)
  {
    RefusedIsSaved();
  }

  /**
   * A refusal is saved. A refused pair is retried and consumed, but the answer is not
   * recorded, so the refusal stays; five minutes after it was saved a new spend replaces the pair, and
   * both are consumed with no terminal answer saved in between.
   */
  lemma LostAnswerSpendsTwice()
    ensures Initial("acct", SAVED)
    ensures Leads(SAVED, Inspect(0, true, 0), RETRYING)
    ensures Leads(RETRYING, Send(0, Ambiguous, true), CONSUMED_ONE)
    ensures !LossIsSafe(CONSUMED_ONE, 0) && LOST == Forgotten(CONSUMED_ONE, 0)
    ensures Leads(LOST, Inspect(1, false, RESET_IN_FLIGHT_TTL_MS), RESPENDING)
    ensures Leads(RESPENDING, Claim(1, RESET_IN_FLIGHT_TTL_MS, SOME_CREDITS, "two"), MINTED)
    ensures Leads(MINTED, Send(1, Terminal(Reset), true), SPENT_TWICE)
    ensures SPENT_TWICE.log == [Consumed(KeyOf(REFUSED)), Consumed(KeyOf(SECOND))] && KeyOf(REFUSED) != KeyOf(SECOND)
  {
    RefusedIsSaved();
    RetryConsumes();
    LossIsRuledOut();
    SpendMayReplace();
    SecondIsMinted();
    SecondIsConsumed();
  }

  const UNREFUSED := REFUSED.(rejectedStatus := None)
  const UNREFUSED_ROW := Some(ResetState(Some(Stored(UNREFUSED)), None, None))

  const OPEN := State(UNREFUSED_ROW, map[], {}, {}, {}, {"one"}, [])
  const ONE_HOLDS := OPEN.(phases := map[0 := Holding(UNREFUSED)])
  const BOTH_HOLD := ONE_HOLDS.(phases := map[0 := Holding(UNREFUSED), 1 := Holding(UNREFUSED)])
  const ONE_REFUSED := BOTH_HOLD.(
    phases := map[0 := Holding(UNREFUSED), 1 := Answered(UNREFUSED, HttpError(403))])
  const OTHER_CONSUMED := ONE_REFUSED.(
    phases := map[0 := Answered(UNREFUSED, Ambiguous), 1 := Answered(UNREFUSED, HttpError(403))],
    consumed := {KeyOf(UNREFUSED)}, log := [Consumed(KeyOf(UNREFUSED))])
  const REFUSAL_LEFT := OTHER_CONSUMED.(phases := map[0 := Idle, 1 := Answered(UNREFUSED, HttpError(403))])
  const REFUSAL_SAVED := REFUSAL_LEFT.(row := REFUSED_ROW, phases := map[0 := Idle, 1 := Idle])

  lemma UnrefusedIsSaved()
    ensures ValidInFlight(Some(Stored(UNREFUSED))) == Some(UNREFUSED)
    ensures Initial("acct", OPEN)
  {
    StoredReadsBack(UNREFUSED);
  }

  lemma BothSend()
    ensures Leads(OPEN, Inspect(0, true, 0), ONE_HOLDS) && Leads(ONE_HOLDS, Inspect(1, true, 0), BOTH_HOLD)
    ensures Leads(BOTH_HOLD, Send(1, HttpError(403), false), ONE_REFUSED)
  {
    UnrefusedIsSaved();
  }

  lemma OtherIsConsumed()
    ensures Leads(ONE_REFUSED, Send(0, Ambiguous, true), OTHER_CONSUMED)
  {
  }

  lemma LaterLossIsRuledOut()
    ensures !LossIsSafe(OTHER_CONSUMED, 0) && REFUSAL_LEFT == Forgotten(OTHER_CONSUMED, 0)
  {
    UnrefusedIsSaved();
    assert LiveRefusal(OTHER_CONSUMED, 1, UNREFUSED);
  }

  lemma RefusalIsSaved()
    ensures Leads(REFUSAL_LEFT, Record(1, 0), REFUSAL_SAVED)
  {
    UnrefusedIsSaved();
  }

  lemma RefusalExposes()
    ensures Exposed("acct", REFUSAL_SAVED, KeyOf(UNREFUSED)) && PhaseOf(REFUSAL_SAVED, 0) == Idle
  {
    RefusedIsSaved();
  }

  /**
   * No refusal is saved, but one is on its way. Two processes send the pair; one send is refused, the other
   * is consumed and its answer is not recorded; then the refusal is, and a new spend replaces the pair.
   */
  lemma LostAnswerFreesRefusal() returns (steps: seq<Step>)
    ensures Initial("acct", OPEN) && SavedIn(OPEN.row).value.rejectedStatus.None?
    ensures Leads(OPEN, Inspect(0, true, 0), ONE_HOLDS) && Leads(ONE_HOLDS, Inspect(1, true, 0), BOTH_HOLD)
    ensures Leads(BOTH_HOLD, Send(1, HttpError(403), false), ONE_REFUSED)
    ensures Leads(ONE_REFUSED, Send(0, Ambiguous, true), OTHER_CONSUMED)
    ensures !LossIsSafe(OTHER_CONSUMED, 0) && REFUSAL_LEFT == Forgotten(OTHER_CONSUMED, 0)
    ensures Leads(REFUSAL_LEFT, Record(1, 0), REFUSAL_SAVED)
    ensures CanRun("acct", REFUSAL_SAVED, steps) && SpentTwice(StateAfter("acct", REFUSAL_SAVED, steps).log)
  {
    UnrefusedIsSaved();
    BothSend();
    OtherIsConsumed();
    LaterLossIsRuledOut();
    RefusalIsSaved();
    RefusalExposes();
    steps := ExposedSpendsTwice("acct", REFUSAL_SAVED, KeyOf(UNREFUSED), 0);
  }
}
