/**
 * Mid-conversation effort changes (packages/opencode/src/index.ts): the request-level effort
 * stays pinned so the provider's prefix cache keeps matching, and a later change travels as a
 * `configuration_update` item in front of the user message that asked for it.
 */
module EffortRewrite {
  import opened Prelude

  /** An input item: a record with a role, an update item, or anything else. */
  datatype Item =
    | Message(role: string, body: string)
    | ConfigurationUpdate(effort: string)
    | Other(body: string)

  /** The fingerprint of an item is the item itself: an injective stand-in for the digest. */
  type Fingerprint = Item

  datatype EffortUpdate = EffortUpdate(anchor: nat, fingerprint: Fingerprint, effort: string)

  datatype Request = Request(
    agent: Option<string>, model: string, effort: Option<string>, input: Option<seq<Item>>)

  datatype EffortState = EffortState(pinned: Option<string>, updates: seq<EffortUpdate>)

  /** What one request leaves behind: the session's state and the request as sent. */
  datatype Outcome = Outcome(state: EffortState, effort: Option<string>, input: Option<seq<Item>>)

  const MID_CONVERSATION_EFFORT_MODELS: set<string> :=
    {"gpt-6-astra", "gpt-6-sol", "gpt-6-luna", "gpt-6.1-sol"}

  const HIDDEN_EFFORT_AGENTS: set<string> := {"title", "compaction", "summary"}

  const FRESH_STATE := EffortState(None, [])

  predicate IsUser(item: Item) {
    item.Message? && item.role == "user"
  }

  /** The index of the last user message, -1 when there is none. */
  function LastUser(input: seq<Item>): (k: int)
    ensures -1 <= k < |input|
    ensures k >= 0 ==> IsUser(input[k])
  {
    if input == [] then -1
    else if IsUser(input[|input| - 1]) then |input| - 1
    else LastUser(input[..|input| - 1])
  }

  lemma {:induction false} LastUserIsLast(input: seq<Item>, j: nat)
    requires j < |input| && IsUser(input[j])
    ensures j <= LastUser(input)
  {
    if j < |input| - 1 {
      LastUserIsLast(input[..|input| - 1], j);
    }
  }

  // ---------------------------------------------------------------------------
  // The rewrite
  // ---------------------------------------------------------------------------

  predicate Eligible(r: Request) {
    && (r.agent.Some? ==> r.agent.value !in HIDDEN_EFFORT_AGENTS)
    && r.model in MID_CONVERSATION_EFFORT_MODELS
    && r.effort.Some? && r.effort.value != ""
  }

  /** The update's anchor still holds the user message it was recorded on. */
  predicate StillAnchored(u: EffortUpdate, input: Option<seq<Item>>) {
    && input.Some? && u.anchor < |input.value|
    && IsUser(input.value[u.anchor])
    && input.value[u.anchor] == u.fingerprint
  }

  predicate AllAnchored(updates: seq<EffortUpdate>, input: Option<seq<Item>>) {
    forall i :: 0 <= i < |updates| ==> StillAnchored(updates[i], input)
  }

  predicate AnchorsIncrease(updates: seq<EffortUpdate>) {
    forall i, j :: 0 <= i < j < |updates| ==> updates[i].anchor < updates[j].anchor
  }

  predicate Within(updates: seq<EffortUpdate>, bound: nat) {
    forall i :: 0 <= i < |updates| ==> updates[i].anchor <= bound
  }

  /** The effort in force after the updates: the last one's, or the pin. */
  function Effective(pin: string, updates: seq<EffortUpdate>): string {
    if updates == [] then pin else updates[|updates| - 1].effort
  }

  /** The update list once `effort` is asked for at the user message `anchor`. */
  function Revise(pin: string, updates: seq<EffortUpdate>, anchor: nat, mark: Fingerprint, effort: string)
    : seq<EffortUpdate>
  {
    if effort == Effective(pin, updates) then updates
    else if updates != [] && updates[|updates| - 1].anchor == anchor then
      var earlier := updates[..|updates| - 1];
      if effort == Effective(pin, earlier) then earlier
      else earlier + [updates[|updates| - 1].(effort := effort)]
    else updates + [EffortUpdate(anchor, mark, effort)]
  }

  /** `input` with each update in front of the item at its anchor. */
  function Splice(input: seq<Item>, updates: seq<EffortUpdate>): (sent: seq<Item>)
    requires AnchorsIncrease(updates)
    requires Within(updates, |input|)
    ensures |sent| == |input| + |updates|
    decreases |updates|
  {
    if updates == [] then input
    else
      var last := updates[|updates| - 1];
      Splice(input[..last.anchor], updates[..|updates| - 1])
      + [ConfigurationUpdate(last.effort)] + input[last.anchor..]
  }

  /** One request against the session's state, as the whole function decides it. */
  function Apply(s: EffortState, r: Request): Outcome {
    if !Eligible(r) then Outcome(s, r.effort, r.input)
    else if s.pinned.None? || !AllAnchored(s.updates, r.input) then
      Outcome(EffortState(r.effort, []), r.effort, r.input)
    else if r.input.None? || r.input.value == [] then Outcome(s, r.effort, r.input)
    else ApplyPinned(s.pinned.value, s.updates, r.input.value, r.effort.value)
  }

  /** A request for `effort` in a session whose recorded updates all still hold. */
  function ApplyPinned(pin: string, updates: seq<EffortUpdate>, input: seq<Item>, effort: string): Outcome
    requires AllAnchored(updates, Some(input))
  {
    var anchor := LastUser(input);
    if anchor < 0 && effort != Effective(pin, updates) then
      Outcome(EffortState(Some(pin), updates), Some(effort), Some(input))
    else
      var revised := if anchor < 0 then updates else Revise(pin, updates, anchor, input[anchor], effort);
      if !AnchorsIncrease(revised) then Outcome(EffortState(Some(effort), []), Some(effort), Some(input))
      else
        RevisedWithin(pin, input, updates, effort);
        Outcome(EffortState(Some(pin), revised), Some(pin), Some(Splice(input, revised)))
  }

  /** The branch that sends a spliced input under the pinned effort. */
  predicate Rewrites(s: EffortState, r: Request) {
    && Eligible(r) && s.pinned.Some? && AllAnchored(s.updates, r.input)
    && r.input.Some? && r.input.value != []
    && (LastUser(r.input.value) < 0 ==> r.effort.value == Effective(s.pinned.value, s.updates))
  }

  /** `o` sends the host's list under the pin, with recorded updates that end in the wanted effort. */
  predicate SendsUnderPin(pin: Option<string>, r: Request, o: Outcome) {
    && pin.Some? && o.state.pinned == pin == o.effort
    && r.effort.Some? && r.input.Some?
    && AnchorsIncrease(o.state.updates) && AllAnchored(o.state.updates, r.input)
    && Within(o.state.updates, |r.input.value|)
    && Effective(pin.value, o.state.updates) == r.effort.value
    && o.input == Some(Splice(r.input.value, o.state.updates))
  }

  function After(s: EffortState, rs: seq<Request>): EffortState
    decreases |rs|
  {
    if rs == [] then s else After(Apply(s, rs[0]).state, rs[1..])
  }

  // ---------------------------------------------------------------------------
  // The code, field by field
  // ---------------------------------------------------------------------------

  class RequestBody {
    var model: string
    var effort: Option<string>
    var input: Option<seq<Item>>

    constructor (r: Request)
      ensures model == r.model && effort == r.effort && input == r.input
    {
      model, effort, input := r.model, r.effort, r.input;
    }

    ghost function AsRequest(agent: Option<string>): Request
      reads this
    {
      Request(agent, model, effort, input)
    }
  }

  class SessionMetadata {
    var pinnedEffort: Option<string>
    var effortUpdates: seq<EffortUpdate>

    constructor ()
      ensures State() == FRESH_STATE
    {
      pinnedEffort, effortUpdates := None, [];
    }

    ghost function State(): EffortState
      reads this
    {
      EffortState(pinnedEffort, effortUpdates)
    }
  }

  method ApplyMidConversationEffort(parsed: RequestBody, metadata: SessionMetadata, agent: Option<string>)
    modifies parsed, metadata
    ensures Outcome(metadata.State(), parsed.effort, parsed.input)
         == Apply(old(metadata.State()), old(parsed.AsRequest(agent)))
    ensures parsed.model == old(parsed.model)
  {
    if agent.Some? && agent.value in HIDDEN_EFFORT_AGENTS { return; }
    if parsed.model !in MID_CONVERSATION_EFFORT_MODELS { return; }
    if parsed.effort.None? || parsed.effort.value == "" { return; }
    var effort := parsed.effort.value;
    var updates := metadata.effortUpdates;
    var moved := exists i :: 0 <= i < |updates| && !StillAnchored(updates[i], parsed.input);
    assert moved <==> !AllAnchored(updates, parsed.input);
    if metadata.pinnedEffort.None? || moved {
      metadata.pinnedEffort, metadata.effortUpdates := Some(effort), [];
      return;
    }
    if parsed.input.None? || parsed.input.value == [] { return; }
    RewriteUnderPin(parsed, metadata, effort);
  }

  /** What is sent, and what is left, once the changes are `revised`. */
  lemma PinnedSend(
      pin: string, updates: seq<EffortUpdate>, input: seq<Item>, effort: string, revised: seq<EffortUpdate>)
    requires AllAnchored(updates, Some(input)) && (LastUser(input) < 0 ==> effort == Effective(pin, updates))
    requires revised == if LastUser(input) < 0 then updates
                        else Revise(pin, updates, LastUser(input), input[LastUser(input)], effort)
    ensures Within(revised, |input|)
    ensures ApplyPinned(pin, updates, input, effort) ==
      if AnchorsIncrease(revised) then Outcome(EffortState(Some(pin), revised), Some(pin), Some(Splice(input, revised)))
      else Outcome(EffortState(Some(effort), []), Some(effort), Some(input))
  {
    RevisedWithin(pin, input, updates, effort);
  }

  /** The rest of the function, once the pin is known to hold. */
  method RewriteUnderPin(parsed: RequestBody, metadata: SessionMetadata, effort: string)
    requires parsed.effort == Some(effort) && parsed.input.Some? && metadata.pinnedEffort.Some?
    requires AllAnchored(metadata.effortUpdates, parsed.input)
    modifies parsed, metadata
    ensures Outcome(metadata.State(), parsed.effort, parsed.input)
         == old(ApplyPinned(metadata.pinnedEffort.value, metadata.effortUpdates, parsed.input.value, effort))
    ensures parsed.model == old(parsed.model)
  {
    var updates, input, pin := metadata.effortUpdates, parsed.input.value, metadata.pinnedEffort.value;
    ghost var before := updates;
    var anchor := LastUser(input);
    var effective := if updates == [] then pin else updates[|updates| - 1].effort;
    if anchor >= 0 && effort != effective {
      updates := RecordChange(pin, updates, anchor, input[anchor], effort);
      metadata.effortUpdates := updates;
    } else if anchor < 0 && effort != effective {
      return;
    }
    PinnedSend(pin, before, input, effort, updates);
    var ordered := AnchorsGrow(updates);
    if !ordered {
      metadata.pinnedEffort, metadata.effortUpdates := Some(effort), [];
      return;
    }
    var sent := InjectUpdates(input, updates);
    parsed.effort := metadata.pinnedEffort;
    parsed.input := Some(sent);
  }

  /** Compares each anchor with the one before it. */
  method AnchorsGrow(updates: seq<EffortUpdate>) returns (ordered: bool)
    ensures ordered <==> AnchorsIncrease(updates)
  {
    var i := 1;
    while i < |updates|
      invariant 1 <= i
      invariant i <= |updates| ==> AnchorsIncrease(updates[..i])
      invariant |updates| < i ==> updates == []
    {
      if updates[i].anchor <= updates[i - 1].anchor { return false; }
      forall j | 0 <= j < i ensures updates[j].anchor < updates[i].anchor {
        assert updates[..i][j].anchor <= updates[..i][i - 1].anchor;
      }
      i := i + 1;
    }
    assert |updates| < i || updates[..i] == updates;
    return true;
  }

  /** Records a changed effort at `anchor`, folding a second change at the same message into one. */
  method RecordChange(pin: string, updates: seq<EffortUpdate>, anchor: nat, item: Item, effort: string)
    returns (revised: seq<EffortUpdate>)
    requires effort != Effective(pin, updates)
    ensures revised == Revise(pin, updates, anchor, item, effort)
  {
    revised := updates;
    var n := |updates|;
    if n > 0 && updates[n - 1].anchor == anchor {
      var before := if n > 1 then updates[n - 2].effort else pin;
      if effort == before {
        revised := revised[..n - 1];
      } else {
        revised := revised[n - 1 := revised[n - 1].(effort := effort)];
      }
    } else {
      revised := revised + [EffortUpdate(anchor, item, effort)];
    }
  }

  /** Inserting from the highest anchor down keeps the lower anchors valid. */
  method InjectUpdates(input: seq<Item>, updates: seq<EffortUpdate>) returns (sent: seq<Item>)
    requires AnchorsIncrease(updates)
    requires Within(updates, |input|)
    ensures sent == Splice(input, updates)
  {
    sent := input;
    var i := |updates|;
    while i > 0
      invariant 0 <= i <= |updates|
      invariant AnchorsIncrease(updates[i..])
      invariant Within(updates[i..], |input|)
      invariant sent == Splice(input, updates[i..])
    {
      i := i - 1;
      var update := updates[i];
      assert updates[i..] == [update] + updates[i + 1..];
      assert AnchorsIncrease(updates[i..]) && Within(updates[i..], |input|);
      SpliceLowest(input, update, updates[i + 1..]);
      sent := sent[..update.anchor] + [ConfigurationUpdate(update.effort)] + sent[update.anchor..];
    }
    assert updates[0..] == updates;
  }

  lemma AnchorsWithin(input: seq<Item>, updates: seq<EffortUpdate>)
    requires AllAnchored(updates, Some(input))
    ensures Within(updates, |input|)
  {
    forall k | 0 <= k < |updates| ensures updates[k].anchor <= |input| {
      assert StillAnchored(updates[k], Some(input));
    }
  }

  lemma RevisedWithin(pin: string, input: seq<Item>, updates: seq<EffortUpdate>, effort: string)
    requires AllAnchored(updates, Some(input))
    ensures Within(updates, |input|)
    ensures var k := LastUser(input); k >= 0 ==> Within(Revise(pin, updates, k, input[k], effort), |input|)
  {
    AnchorsWithin(input, updates);
  }

  lemma SpliceLast(input: seq<Item>, us: seq<EffortUpdate>, u: EffortUpdate)
    requires AnchorsIncrease(us + [u]) && u.anchor <= |input|
    ensures AnchorsIncrease(us) && Within(us, u.anchor) && Within(us + [u], |input|)
    ensures Splice(input, us + [u])
         == Splice(input[..u.anchor], us) + [ConfigurationUpdate(u.effort)] + input[u.anchor..]
  {
    var all := us + [u];
    forall i, j | 0 <= i < j < |us| ensures us[i].anchor < us[j].anchor {
      assert all[i].anchor < all[j].anchor;
    }
    forall i | 0 <= i < |us| ensures us[i].anchor <= u.anchor {
      assert all[i].anchor < all[|us|].anchor;
    }
    assert all[..|us|] == us && all[|us|] == u;
  }

  lemma RestIncreases(u: EffortUpdate, us: seq<EffortUpdate>)
    requires AnchorsIncrease([u] + us)
    ensures AnchorsIncrease(us)
  {
    var all := [u] + us;
    forall i, j | 0 <= i < j < |us| ensures us[i].anchor < us[j].anchor {
      assert all[i + 1] == us[i] && all[j + 1] == us[j];
    }
  }

  /** The highest anchor comes off `us` with or without `u` in front. */
  lemma SpliceBoth(input: seq<Item>, u: EffortUpdate, fewer: seq<EffortUpdate>, last: EffortUpdate)
    requires AnchorsIncrease([u] + fewer + [last]) && last.anchor <= |input|
    ensures AnchorsIncrease([u] + fewer) && AnchorsIncrease(fewer) && AnchorsIncrease(fewer + [last])
    ensures Within([u] + fewer, last.anchor) && Within(fewer, last.anchor) && u.anchor <= last.anchor
    ensures Within([u] + fewer + [last], |input|) && Within(fewer + [last], |input|)
    ensures var head, tail := input[..last.anchor], [ConfigurationUpdate(last.effort)] + input[last.anchor..];
            && Splice(input, fewer + [last]) == Splice(head, fewer) + tail
            && Splice(input, [u] + fewer + [last]) == Splice(head, [u] + fewer) + tail
  {
    SpliceLast(input, [u] + fewer, last);
    assert ([u] + fewer)[0] == u;
    assert [u] + fewer + [last] == [u] + (fewer + [last]);
    RestIncreases(u, fewer + [last]);
    SpliceLast(input, fewer, last);
  }

  /** Splicing the lowest anchor last is the same as splicing it first. */
  lemma {:induction false} SpliceLowest(input: seq<Item>, u: EffortUpdate, us: seq<EffortUpdate>)
    requires AnchorsIncrease([u] + us) && AnchorsIncrease(us)
    requires Within([u] + us, |input|) && Within(us, |input|)
    ensures u.anchor <= |Splice(input, us)|
    ensures Splice(input, [u] + us)
         == Splice(input, us)[..u.anchor] + [ConfigurationUpdate(u.effort)] + Splice(input, us)[u.anchor..]
    decreases |us|
  {
    if us == [] {
      assert ([u] + us)[0].anchor <= |input|;
      assert [u] + us == [] + [u];
      SpliceLast(input, [], u);
    } else {
      var fewer, last := us[..|us| - 1], us[|us| - 1];
      assert us == fewer + [last] && [u] + us == [u] + fewer + [last];
      SpliceBoth(input, u, fewer, last);
      SpliceLowest(input[..last.anchor], u, fewer);
      InsertInHead(Splice(input[..last.anchor], fewer), u.anchor, ConfigurationUpdate(u.effort),
                   [ConfigurationUpdate(last.effort)] + input[last.anchor..]);
    }
  }

  lemma InsertInHead(head: seq<Item>, k: nat, item: Item, tail: seq<Item>)
    requires k <= |head|
    ensures (head + tail)[..k] + [item] + (head + tail)[k..] == (head[..k] + [item] + head[k..]) + tail
  {
    assert (head + tail)[..k] == head[..k];
    assert (head + tail)[k..] == head[k..] + tail;
  }

  // ---------------------------------------------------------------------------
  // Every run keeps the update list well formed
  // ---------------------------------------------------------------------------

  /** No update repeats the effort already in force before it. */
  predicate Alternates(pin: string, updates: seq<EffortUpdate>)
    decreases |updates|
  {
    updates == [] ||
    var earlier := updates[..|updates| - 1];
    updates[|updates| - 1].effort != Effective(pin, earlier) && Alternates(pin, earlier)
  }

  predicate Inv(s: EffortState) {
    && (s.pinned.None? ==> s.updates == [])
    && (s.pinned.Some? ==> Alternates(s.pinned.value, s.updates))
    && AnchorsIncrease(s.updates)
  }

  lemma ReviseAlternates(pin: string, updates: seq<EffortUpdate>, k: nat, mark: Fingerprint, effort: string)
    requires Alternates(pin, updates)
    ensures Alternates(pin, Revise(pin, updates, k, mark, effort))
    ensures Effective(pin, Revise(pin, updates, k, mark, effort)) == effort
  {
    var revised := Revise(pin, updates, k, mark, effort);
    if effort != Effective(pin, updates) {
      if updates != [] && updates[|updates| - 1].anchor == k {
        var earlier := updates[..|updates| - 1];
        if effort != Effective(pin, earlier) {
          assert revised[..|revised| - 1] == earlier;
        }
      } else {
        assert revised[..|revised| - 1] == updates;
      }
    }
  }

  /** Revising at the last user message keeps the anchors growing and in place. */
  lemma ReviseKeepsAnchors(pin: string, input: seq<Item>, updates: seq<EffortUpdate>, effort: string)
    requires AnchorsIncrease(updates) && AllAnchored(updates, Some(input)) && LastUser(input) >= 0
    ensures var k := LastUser(input);
            var revised := Revise(pin, updates, k, input[k], effort);
            AnchorsIncrease(revised) && AllAnchored(revised, Some(input))
  {
    var k := LastUser(input);
    forall i | 0 <= i < |updates| ensures updates[i].anchor <= k {
      assert StillAnchored(updates[i], Some(input));
      LastUserIsLast(input, updates[i].anchor);
    }
    var revised := Revise(pin, updates, k, input[k], effort);
    forall i | 0 <= i < |revised| ensures StillAnchored(revised[i], Some(input)) {
      if i < |updates| {
        assert StillAnchored(updates[i], Some(input));
      }
    }
    if |updates| > 0 && updates[|updates| - 1].anchor != k {
      forall i | 0 <= i < |updates| ensures updates[i].anchor < k {
        assert updates[i].anchor <= updates[|updates| - 1].anchor < k;
      }
    }
  }

  /** One request keeps the invariant, and never takes the start-over guard on the anchors. */
  lemma ApplyKeepsInv(s: EffortState, r: Request)
    requires Inv(s)
    ensures Inv(Apply(s, r).state)
    ensures Rewrites(s, r) ==> SendsUnderPin(s.pinned, r, Apply(s, r))
  {
    if Rewrites(s, r) {
      var input, pin := r.input.value, s.pinned.value;
      if LastUser(input) >= 0 {
        ReviseAlternates(pin, s.updates, LastUser(input), input[LastUser(input)], r.effort.value);
        ReviseKeepsAnchors(pin, input, s.updates, r.effort.value);
      } else {
        AnchoredNeedsUser(s.updates, input);
      }
      AnchorsWithin(input, Apply(s, r).state.updates);
    }
  }

  lemma AnchoredNeedsUser(updates: seq<EffortUpdate>, input: seq<Item>)
    requires AllAnchored(updates, Some(input))
    ensures updates != [] ==> LastUser(input) >= 0
  {
    if updates != [] {
      assert StillAnchored(updates[0], Some(input));
      LastUserIsLast(input, updates[0].anchor);
    }
  }

  /** Over every sequence of requests from a fresh session. */
  lemma {:induction false} EveryRunKeepsInv(s: EffortState, rs: seq<Request>)
    requires Inv(s)
    ensures Inv(After(s, rs))
    decreases |rs|
  {
    if rs != [] {
      ApplyKeepsInv(s, rs[0]);
      EveryRunKeepsInv(Apply(s, rs[0]).state, rs[1..]);
    }
  }

  /**
   * After any run, a request that reaches the rewrite is rewritten: the guard that starts over
   * when anchors fail to grow is never the branch taken.
   */
  lemma GuardUnreachable(rs: seq<Request>, r: Request)
    requires Rewrites(After(FRESH_STATE, rs), r)
    ensures SendsUnderPin(After(FRESH_STATE, rs).pinned, r, Apply(After(FRESH_STATE, rs), r))
  {
    EveryRunKeepsInv(FRESH_STATE, rs);
    ApplyKeepsInv(After(FRESH_STATE, rs), r);
  }

  // ---------------------------------------------------------------------------
  // What the provider sees
  // ---------------------------------------------------------------------------

  /** The host never sends update items of its own. */
  predicate HostOnly(input: seq<Item>) {
    forall i :: 0 <= i < |input| ==> !input[i].ConfigurationUpdate?
  }

  /** The items the host sent, in order. */
  function Erase(sent: seq<Item>): seq<Item> {
    if sent == [] then []
    else
      var rest := Erase(sent[..|sent| - 1]);
      if sent[|sent| - 1].ConfigurationUpdate? then rest else rest + [sent[|sent| - 1]]
  }

  /** The effort in force after `sent`, read as the provider reads it, from a request-level `pin`. */
  function Fold(pin: string, sent: seq<Item>): string {
    if sent == [] then pin
    else if sent[|sent| - 1].ConfigurationUpdate? then sent[|sent| - 1].effort
    else Fold(pin, sent[..|sent| - 1])
  }

  lemma {:induction false} HostTail(pin: string, a: seq<Item>, b: seq<Item>)
    requires HostOnly(b)
    ensures Erase(a + b) == Erase(a) + b
    ensures Fold(pin, a + b) == Fold(pin, a)
  {
    if b == [] {
      assert a + b == a;
    } else {
      HostTail(pin, a, b[..|b| - 1]);
      assert (a + b)[..|a + b| - 1] == a + b[..|b| - 1];
      assert b[..|b| - 1] + [b[|b| - 1]] == b;
    }
  }

  lemma EraseHost(input: seq<Item>)
    requires HostOnly(input)
    ensures Erase(input) == input
  {
    HostTail("", [], input);
    assert [] + input == input;
  }

  /** Erasing the injected items gives back the host's list, and folding them gives the last update. */
  lemma {:induction false} SpliceMeaning(pin: string, input: seq<Item>, updates: seq<EffortUpdate>)
    requires HostOnly(input) && AnchorsIncrease(updates)
    requires Within(updates, |input|)
    ensures Erase(Splice(input, updates)) == input
    ensures Fold(pin, Splice(input, updates)) == Effective(pin, updates)
    decreases |updates|
  {
    if updates == [] {
      EraseHost(input);
      HostTail(pin, [], input);
      assert [] + input == input;
    } else {
      var last := updates[|updates| - 1];
      var fewer := updates[..|updates| - 1];
      SpliceMeaning(pin, input[..last.anchor], fewer);
      var head := Splice(input[..last.anchor], fewer) + [ConfigurationUpdate(last.effort)];
      assert head[..|head| - 1] == Splice(input[..last.anchor], fewer);
      HostTail(pin, head, input[last.anchor..]);
      assert Splice(input, updates) == head + input[last.anchor..];
      assert input[..last.anchor] + input[last.anchor..] == input;
    }
  }

  lemma {:induction false} LastUserOfConcat(a: seq<Item>, b: seq<Item>)
    requires LastUser(b) >= 0
    ensures LastUser(a + b) == |a| + LastUser(b)
  {
    if !IsUser(b[|b| - 1]) {
      assert (a + b)[..|a + b| - 1] == a + b[..|b| - 1];
      LastUserOfConcat(a, b[..|b| - 1]);
    }
  }

  /** Every injected item stands in front of the user message recorded when the change was made. */
  predicate EachBeforeItsMessage(sent: seq<Item>, updates: seq<EffortUpdate>) {
    forall i :: 0 <= i < |sent| && sent[i].ConfigurationUpdate? ==>
      && i + 1 < |sent| && IsUser(sent[i + 1])
      && EffortUpdateFor(sent[i].effort, sent[i + 1], updates)
  }

  predicate EffortUpdateFor(effort: string, message: Item, updates: seq<EffortUpdate>) {
    exists u :: u in updates && u.effort == effort && u.fingerprint == message
  }

  lemma {:induction false} SplicePlacement(input: seq<Item>, updates: seq<EffortUpdate>)
    requires HostOnly(input) && AnchorsIncrease(updates) && AllAnchored(updates, Some(input))
    ensures Within(updates, |input|)
    ensures EachBeforeItsMessage(Splice(input, updates), updates)
    decreases |updates|
  {
    AnchorsWithin(input, updates);
    if updates != [] {
      var last := updates[|updates| - 1];
      var fewer := updates[..|updates| - 1];
      assert StillAnchored(last, Some(input));
      forall k | 0 <= k < |fewer| ensures StillAnchored(fewer[k], Some(input[..last.anchor])) {
        assert StillAnchored(updates[k], Some(input));
        assert updates[k].anchor < updates[|updates| - 1].anchor;
      }
      SplicePlacement(input[..last.anchor], fewer);
      var inner := Splice(input[..last.anchor], fewer);
      var sent := Splice(input, updates);
      assert forall j :: |inner| < j < |sent| ==> sent[j] == input[last.anchor + (j - |inner| - 1)];
      forall i | 0 <= i < |sent| && sent[i].ConfigurationUpdate?
        ensures i + 1 < |sent| && IsUser(sent[i + 1]) && EffortUpdateFor(sent[i].effort, sent[i + 1], updates)
      {
        if i < |inner| {
          assert sent[i] == inner[i] && sent[i + 1] == inner[i + 1];
          var u :| u in fewer && u.effort == inner[i].effort && u.fingerprint == inner[i + 1];
          assert u in updates;
        } else {
          assert sent[|inner| + 1] == input[last.anchor] && last in updates;
        }
      }
    }
  }

  /**
   * The rewrite, on every rewritten request of every run: the provider reads the requested effort
   * at the last user message, erasing the injected items gives the host's list, each injected item
   * precedes the user message it was recorded on (so no two are adjacent), and every recorded
   * change is sent.
   */
  lemma RewritePreservesMeaning(rs: seq<Request>, r: Request)
    requires Rewrites(After(FRESH_STATE, rs), r) && HostOnly(r.input.value)
    ensures var o := Apply(After(FRESH_STATE, rs), r);
            && o.effort.Some? && o.input.Some?
            && var pin, sent := o.effort.value, o.input.value;
            && Erase(sent) == r.input.value
            && Fold(pin, sent) == r.effort.value
            && (LastUser(sent) >= 0 ==> Fold(pin, sent[..LastUser(sent)]) == r.effort.value)
            && (LastUser(sent) >= 0 <==> LastUser(r.input.value) >= 0)
            && EachBeforeItsMessage(sent, o.state.updates)
            && (forall i :: 0 <= i < |sent| - 1 ==>
                  !(sent[i].ConfigurationUpdate? && sent[i + 1].ConfigurationUpdate?))
            && |sent| == |r.input.value| + |o.state.updates|
  {
    var s := After(FRESH_STATE, rs);
    EveryRunKeepsInv(FRESH_STATE, rs);
    ApplyKeepsInv(s, r);
    var input, pin, updates := r.input.value, s.pinned.value, Apply(s, r).state.updates;
    SplicePlacement(input, updates);
    SpliceMeaning(pin, input, updates);
    EffortAtLastUser(pin, input, updates);
  }

  /** The provider has read every update by the time it reaches the last user message. */
  lemma EffortAtLastUser(pin: string, input: seq<Item>, updates: seq<EffortUpdate>)
    requires HostOnly(input) && AnchorsIncrease(updates) && AllAnchored(updates, Some(input))
    requires Within(updates, |input|)
    ensures var sent := Splice(input, updates);
            && (LastUser(sent) >= 0 <==> LastUser(input) >= 0)
            && (LastUser(sent) >= 0 ==> Fold(pin, sent[..LastUser(sent)]) == Effective(pin, updates))
  {
    var sent := Splice(input, updates);
    if updates == [] {
      if LastUser(sent) >= 0 {
        HostTail(pin, [], sent[..LastUser(sent)]);
        assert [] + sent[..LastUser(sent)] == sent[..LastUser(sent)];
      }
    } else {
      var last := updates[|updates| - 1];
      assert StillAnchored(last, Some(input));
      var fewer := updates[..|updates| - 1];
      var head := Splice(input[..last.anchor], fewer) + [ConfigurationUpdate(last.effort)];
      var tail := input[last.anchor..];
      assert sent == head + tail && IsUser(tail[0]);
      LastUserIsLast(tail, 0);
      LastUserIsLast(input, last.anchor);
      LastUserOfConcat(head, tail);
      assert sent[..LastUser(sent)] == head + tail[..LastUser(tail)];
      HostTail(pin, head, tail[..LastUser(tail)]);
    }
  }

  // ---------------------------------------------------------------------------
  // The cached prefix
  // ---------------------------------------------------------------------------

  lemma {:induction false} IneligibleLeavesState(s: EffortState, rs: seq<Request>)
    requires forall i :: 0 <= i < |rs| ==> !Eligible(rs[i])
    ensures After(s, rs) == s
  {
    if rs != [] {
      IneligibleLeavesState(s, rs[1..]);
    }
  }

  /**
   * Whatever the session holds, what is sent differs from what the host made only where the rewrite applies;
   * and such a request changes the session only when it starts it over, at its own effort.
   */
  lemma UntouchedUnlessRewritten(s: EffortState, r: Request)
    ensures Apply(s, r).effort != r.effort || Apply(s, r).input != r.input ==> Rewrites(s, r)
    ensures !Rewrites(s, r) ==>
      Apply(s, r).state
      == if Eligible(r) && (s.pinned.None? || !AllAnchored(s.updates, r.input)) then EffortState(r.effort, []) else s
    ensures Rewrites(s, r) && Inv(s) ==> Apply(s, r).effort == s.pinned
  {
    if Inv(s) {
      ApplyKeepsInv(s, r);
    }
  }

  /** A request of a hidden helper agent, for another model, or that names no effort. */
  predicate Helper(r: Request) {
    || r.agent == Some("title") || r.agent == Some("compaction") || r.agent == Some("summary")
    || !(r.model == "gpt-6-astra" || r.model == "gpt-6-sol" || r.model == "gpt-6-luna" || r.model == "gpt-6.1-sol")
    || r.effort.None? || r.effort == Some("")
  }

  /**
   * Helper requests in between those of a conversation, and only those, pass whatever the session is: each
   * goes out exactly as the host made it, and finds and leaves the session as the conversation left it.
   */
  lemma {:induction false} HelpersGoUntouched(s: EffortState, between: seq<Request>, i: nat)
    requires i < |between| && forall k :: 0 <= k <= i ==> Helper(between[k])
    ensures Apply(After(s, between[..i]), between[i]) == Outcome(s, between[i].effort, between[i].input)
    ensures forall r :: Helper(r) <==> !Eligible(r)
  {
    forall k | 0 <= k < i ensures !Eligible(between[..i][k]) {
      assert between[..i][k] == between[k];
    }
    IneligibleLeavesState(s, between[..i]);
  }

  /** Updates recorded inside `input` land in the same place when the host appends to it. */
  lemma SpliceOfGrowth(input: seq<Item>, grown: seq<Item>, updates: seq<EffortUpdate>)
    requires AnchorsIncrease(updates) && AllAnchored(updates, Some(input)) && input <= grown
    ensures AllAnchored(updates, Some(grown))
    ensures Within(updates, |input|)
    ensures Splice(input, updates) <= Splice(grown, updates)
  {
    forall k | 0 <= k < |updates| ensures StillAnchored(updates[k], Some(grown)) {
      assert StillAnchored(updates[k], Some(input));
    }
    AnchorsWithin(input, updates);
    if updates != [] {
      var last := updates[|updates| - 1];
      assert last in updates;
      assert input[..last.anchor] == grown[..last.anchor];
      assert input[last.anchor..] <= grown[last.anchor..];
    }
  }

  /** A change recorded beyond the old list leaves the old sent list in place. */
  lemma SpliceOfNewChange(input: seq<Item>, grown: seq<Item>, updates: seq<EffortUpdate>, u: EffortUpdate)
    requires AnchorsIncrease(updates) && AllAnchored(updates, Some(input)) && input <= grown
    requires |input| <= u.anchor <= |grown|
    ensures AnchorsIncrease(updates + [u])
    ensures Within(updates, |input|)
    ensures Within(updates + [u], |grown|)
    ensures Splice(input, updates) <= Splice(grown, updates + [u])
  {
    SpliceOfGrowth(input, grown[..u.anchor], updates);
    forall k | 0 <= k < |updates| ensures updates[k].anchor < u.anchor {
      assert StillAnchored(updates[k], Some(input));
    }
    assert AnchorsIncrease(updates + [u]);
    SpliceLast(grown, updates, u);
  }

  /** The growth from `before` to `after` brings a user message. */
  predicate BringsUser(before: seq<Item>, after: seq<Item>) {
    LastUser(after) >= |before|
  }

  /**
   * The request is sent under its own effort, not the pin: no user message can carry the change, so
   * the host's effort is left alone.
   */
  predicate NoTurn(s: EffortState, r: Request) {
    && s.pinned.Some? && AllAnchored(s.updates, r.input)
    && r.input.Some? && LastUser(r.input.value) < 0 && r.effort != s.pinned
  }

  /** `later` repeats what `first` sent, and goes on from there under the same request-level effort. */
  predicate Continues(first: Outcome, later: Outcome) {
    first.effort == later.effort && first.input.Some? && later.input.Some? && first.input.value <= later.input.value
  }

  lemma SentUnderPin(s: EffortState, r: Request)
    requires Inv(s) && Eligible(r) && r.input.Some?
    ensures Apply(s, r).effort == Apply(s, r).state.pinned <==> !NoTurn(s, r)
    ensures NoTurn(s, r) ==> Apply(s, r) == Outcome(s, r.effort, r.input) && s.updates == []
  {
    if s.pinned.Some? && AllAnchored(s.updates, r.input) {
      AnchoredNeedsUser(s.updates, r.input.value);
      ApplyKeepsInv(s, r);
    }
  }

  /** After a request sent under its own effort, the next is sent the same way until a user message comes. */
  lemma NoTurnGoesOn(s: EffortState, r1: Request, r2: Request)
    requires Inv(s) && Eligible(r1) && Eligible(r2) && NoTurn(s, r1)
    requires r2.input.Some? && r1.input.value <= r2.input.value
    requires r2.effort == r1.effort || BringsUser(r1.input.value, r2.input.value)
    ensures var o2 := Apply(s, r2);
            if LastUser(r2.input.value) < 0 then NoTurn(s, r2) && o2 == Outcome(s, r1.effort, r2.input)
            else o2.effort == s.pinned == o2.state.pinned && !NoTurn(s, r2)
  {
    SentUnderPin(s, r1);
    SentUnderPin(s, r2);
    ApplyKeepsInv(s, r2);
  }

  /**
   * When the host's list only grew, and the effort is unchanged or the growth brings a user
   * message, the list sent before is a prefix of the list sent now, under the same request-level
   * effort: exactly unless the earlier request was sent under its own effort and a user message has
   * come since. Requests of helper agents and of other models may come in between.
   */
  lemma PrefixStable(s: EffortState, r1: Request, between: seq<Request>, r2: Request)
    requires Inv(s) && Eligible(r1) && Eligible(r2)
    requires forall i :: 0 <= i < |between| ==> !Eligible(between[i])
    requires r1.input.Some? && r2.input.Some? && r1.input.value <= r2.input.value
    requires r2.effort == r1.effort || BringsUser(r1.input.value, r2.input.value)
    ensures var o1 := Apply(s, r1);
            var o2 := Apply(After(o1.state, between), r2);
            && (Continues(o1, o2) <==> !NoTurn(s, r1) || LastUser(r2.input.value) < 0)
            && (!NoTurn(s, r1) ==> o2.effort == o2.state.pinned)
  {
    var o1 := Apply(s, r1);
    IneligibleLeavesState(o1.state, between);
    SentUnderPin(s, r1);
    if NoTurn(s, r1) {
      NoTurnGoesOn(s, r1, r2);
    } else {
      ApplyKeepsInv(s, r1);
      PinnedSendIsSplice(s, r1);
      GrowthKeepsPrefix(o1.state, r1, r2);
    }
  }

  const GREETING := Message("assistant", "hello")
  const QUESTION := Message("user", "why?")

  /** A session pinned at "low", and a request for `effort` with the items `input`. */
  const PINNED_LOW := EffortState(Some("low"), [])

  function RequestFor(effort: string, input: seq<Item>): Request {
    Request(None, "gpt-6-sol", Some(effort), Some(input))
  }

  /**
   * The exception is real. In a session pinned at "low", a list with no user message is sent under "high",
   * as asked; once the user speaks the request goes back to "low", and the cached prefix is lost.
   */
  lemma NoTurnLosesPrefix()
    ensures var r1, r2 := RequestFor("high", [GREETING]), RequestFor("high", [GREETING, QUESTION]);
            && After(FRESH_STATE, [RequestFor("low", [])]) == PINNED_LOW
            && Eligible(r1) && Eligible(r2) && r1.input.value <= r2.input.value && r1.effort == r2.effort
            && NoTurn(PINNED_LOW, r1)
            && Apply(PINNED_LOW, r1).effort == Some("high")
            && Apply(Apply(PINNED_LOW, r1).state, r2).effort == Some("low")
            && !Continues(Apply(PINNED_LOW, r1), Apply(Apply(PINNED_LOW, r1).state, r2))
  {
    var r0, r1, r2 := RequestFor("low", []), RequestFor("high", [GREETING]), RequestFor("high", [GREETING, QUESTION]);
    assert [r0][1..] == [];
    assert Apply(FRESH_STATE, r0).state == PINNED_LOW;
    assert LastUser([GREETING]) == -1 by { assert [GREETING][..0] == []; }
    assert LastUser([GREETING, QUESTION]) == 1;
    NoTurnGoesOn(PINNED_LOW, r1, r2);
    SentUnderPin(PINNED_LOW, r1);
  }

  /** A request sent under the pin sends its list with exactly the recorded updates spliced in. */
  lemma PinnedSendIsSplice(s: EffortState, r: Request)
    requires Inv(s) && Eligible(r) && r.input.Some? && Apply(s, r).effort == Apply(s, r).state.pinned
    ensures var s1 := Apply(s, r).state;
            && Inv(s1) && s1.pinned.Some? && AllAnchored(s1.updates, r.input)
            && Within(s1.updates, |r.input.value|)
            && Effective(s1.pinned.value, s1.updates) == r.effort.value
            && Apply(s, r).input == Some(Splice(r.input.value, s1.updates))
  {
    ApplyKeepsInv(s, r);
    AnchorsWithin(r.input.value, Apply(s, r).state.updates);
    if !Rewrites(s, r) && s.pinned.Some? && AllAnchored(s.updates, r.input) {
      AnchoredNeedsUser(s.updates, r.input.value);
    }
  }

  /** A change at a message behind the old list is added behind every earlier change. */
  lemma ChangeBehindAll(
      pin: string, before: seq<Item>, updates: seq<EffortUpdate>, anchor: nat, mark: Item, effort: string)
    requires AllAnchored(updates, Some(before)) && anchor >= |before| && effort != Effective(pin, updates)
    ensures Revise(pin, updates, anchor, mark, effort) == updates + [EffortUpdate(anchor, mark, effort)]
  {
    if updates != [] {
      assert StillAnchored(updates[|updates| - 1], Some(before));
    }
  }

  /** An unchanged effort replays the recorded changes over the grown list. */
  lemma GrowthUnchanged(pin: string, updates: seq<EffortUpdate>, before: seq<Item>, after: seq<Item>)
    requires AnchorsIncrease(updates) && AllAnchored(updates, Some(before)) && before <= after
    ensures AllAnchored(updates, Some(after)) && Within(updates, |before|)
    ensures var o := ApplyPinned(pin, updates, after, Effective(pin, updates));
            && o.effort == Some(pin) == o.state.pinned
            && o.input.Some? && Splice(before, updates) <= o.input.value
  {
    SpliceOfGrowth(before, after, updates);
    PinnedSend(pin, updates, after, Effective(pin, updates), updates);
  }

  /** A changed effort is recorded at a message the growth brought, behind everything sent before. */
  lemma GrowthChanged(pin: string, updates: seq<EffortUpdate>, before: seq<Item>, after: seq<Item>, effort: string)
    requires AnchorsIncrease(updates) && AllAnchored(updates, Some(before)) && before <= after
    requires effort != Effective(pin, updates) && BringsUser(before, after)
    ensures AllAnchored(updates, Some(after)) && Within(updates, |before|)
    ensures var o := ApplyPinned(pin, updates, after, effort);
            && o.effort == Some(pin) == o.state.pinned
            && o.input.Some? && Splice(before, updates) <= o.input.value
  {
    var k := LastUser(after);
    SpliceOfGrowth(before, after, updates);
    ChangeBehindAll(pin, before, updates, k, after[k], effort);
    SpliceOfNewChange(before, after, updates, EffortUpdate(k, after[k], effort));
    PinnedSend(pin, updates, after, effort, updates + [EffortUpdate(k, after[k], effort)]);
  }

  lemma GrowthKeepsPrefix(s: EffortState, r1: Request, r2: Request)
    requires Inv(s) && s.pinned.Some? && r1.input.Some? && AllAnchored(s.updates, r1.input)
    requires Eligible(r1) && Effective(s.pinned.value, s.updates) == r1.effort.value
    requires Eligible(r2) && r2.input.Some? && r1.input.value <= r2.input.value
    requires r2.effort == r1.effort || BringsUser(r1.input.value, r2.input.value)
    ensures Within(s.updates, |r1.input.value|)
    ensures var o2 := Apply(s, r2);
            && o2.effort == s.pinned == o2.state.pinned
            && o2.input.Some? && Splice(r1.input.value, s.updates) <= o2.input.value
  {
    var before, after, pin := r1.input.value, r2.input.value, s.pinned.value;
    if after == [] {
      SpliceOfGrowth(before, after, s.updates);
      AnchoredNeedsUser(s.updates, after);
    } else if r2.effort == r1.effort {
      GrowthUnchanged(pin, s.updates, before, after);
    } else {
      GrowthChanged(pin, s.updates, before, after, r2.effort.value);
    }
  }

  /** Each request grows the one before it, keeping its effort or bringing a user message. */
  predicate Conversation(rs: seq<Request>) {
    && (forall i :: 0 <= i < |rs| ==> Eligible(rs[i]) && rs[i].input.Some?)
    && (forall i :: 0 < i < |rs| ==>
          && rs[i - 1].input.value <= rs[i].input.value
          && (rs[i].effort == rs[i - 1].effort || BringsUser(rs[i - 1].input.value, rs[i].input.value)))
  }

  /** What the i-th request of a run sends. */
  function SentAt(s: EffortState, rs: seq<Request>, i: nat): Outcome
    requires i < |rs|
    decreases i
  {
    if i == 0 then Apply(s, rs[0]) else SentAt(Apply(s, rs[0]).state, rs[1..], i - 1)
  }

  /** The facts about the second request that a conversation's first one decides. */
  lemma FirstDecidesSecond(s: EffortState, rs: seq<Request>)
    requires Inv(s) && Conversation(rs) && |rs| > 1
    ensures var first := Apply(s, rs[0]);
            && Inv(first.state)
            && (Continues(first, Apply(first.state, rs[1])) <==> !NoTurn(s, rs[0]) || LastUser(rs[1].input.value) < 0)
            && (NoTurn(first.state, rs[1]) <==> NoTurn(s, rs[0]) && LastUser(rs[1].input.value) < 0)
            && (NoTurn(s, rs[0]) ==> first == Outcome(s, rs[0].effort, rs[0].input))
            && (NoTurn(first.state, rs[1]) ==> rs[1].effort == rs[0].effort)
            && (!NoTurn(first.state, rs[1]) ==>
                  Apply(first.state, rs[1]).state.pinned == if NoTurn(s, rs[0]) then s.pinned else first.state.pinned)
  {
    var first := Apply(s, rs[0]);
    ApplyKeepsInv(s, rs[0]);
    SentUnderPin(s, rs[0]);
    PrefixStable(s, rs[0], [], rs[1]);
    SentUnderPin(first.state, rs[1]);
    if NoTurn(s, rs[0]) {
      NoTurnGoesOn(s, rs[0], rs[1]);
    }
  }

  /** Which effort the i-th request is sent under. */
  lemma {:induction false} ConversationEffort(s: EffortState, rs: seq<Request>, i: nat)
    requires Inv(s) && Conversation(rs) && i < |rs|
    ensures SentAt(s, rs, i).effort ==
      if !NoTurn(s, rs[0]) then Apply(s, rs[0]).state.pinned
      else if LastUser(rs[i].input.value) < 0 then rs[0].effort
      else s.pinned
    decreases i
  {
    SentUnderPin(s, rs[0]);
    if i > 0 {
      assert rs[1..][0] == rs[1] && rs[1..][i - 1] == rs[i];
      ConversationTail(rs);
      UserStays(rs, 1, i);
      FirstDecidesSecond(s, rs);
      ConversationEffort(Apply(s, rs[0]).state, rs[1..], i - 1);
    }
  }

  /**
   * Over a whole conversation, everything sent first stays a prefix of everything sent later: exactly
   * unless the first request was sent under its own effort and a user message has come since.
   */
  lemma {:induction false} ConversationKeepsPrefix(s: EffortState, rs: seq<Request>, i: nat)
    requires Inv(s) && Conversation(rs) && i < |rs|
    ensures Continues(SentAt(s, rs, 0), SentAt(s, rs, i)) <==> !NoTurn(s, rs[0]) || LastUser(rs[i].input.value) < 0
    decreases i
  {
    SentUnderPin(s, rs[0]);
    if i == 0 {
      assert Apply(s, rs[0]).input.Some?;
    } else if NoTurn(s, rs[0]) && LastUser(rs[i].input.value) >= 0 {
      ConversationEffort(s, rs, i);
    } else {
      assert rs[1..][0] == rs[1] && rs[1..][i - 1] == rs[i];
      ConversationTail(rs);
      UserStays(rs, 1, i);
      FirstDecidesSecond(s, rs);
      ConversationKeepsPrefix(Apply(s, rs[0]).state, rs[1..], i - 1);
    }
  }

  /** A list that only grows keeps its user messages. */
  lemma {:induction false} UserStays(rs: seq<Request>, j: nat, i: nat)
    requires Conversation(rs) && j <= i < |rs|
    ensures rs[j].input.value <= rs[i].input.value
    ensures LastUser(rs[i].input.value) < 0 ==> LastUser(rs[j].input.value) < 0
    decreases i
  {
    if j < i {
      UserStays(rs, j, i - 1);
      var k := LastUser(rs[j].input.value);
      if k >= 0 {
        LastUserIsLast(rs[i].input.value, k);
      }
    }
  }

  lemma ConversationTail(rs: seq<Request>)
    requires Conversation(rs) && |rs| > 1
    ensures Conversation(rs[1..])
  {
    var tail := rs[1..];
    forall i | 0 < i < |tail| ensures
      && tail[i - 1].input.value <= tail[i].input.value
      && (tail[i].effort == tail[i - 1].effort || BringsUser(tail[i - 1].input.value, tail[i].input.value))
    {
      assert tail[i] == rs[i + 1] && tail[i - 1] == rs[i];
    }
  }
}
