/**
 * Roster preservation in the two config writers (packages/core/src/accounts.ts): raw entries the
 * loader rejected are carried to disk verbatim, whatever the writer emits.
 */
module Roster {
  import opened Prelude

  /** An element of the config's `accounts` array: a record, with its string id if it has one, or not. */
  datatype RawEntry = Record(id: Option<string>, body: string) | NotRecord

  /** An account the loader accepted, as a writer serializes it. */
  datatype Account = Account(id: string, body: string)

  // ---------------------------------------------------------------------------
  // Trimming
  // ---------------------------------------------------------------------------

  predicate IsSpace(c: char) {
    c as int in {0x9, 0xA, 0xB, 0xC, 0xD, 0x20, 0xA0, 0x1680, 0x2000, 0x2001, 0x2002, 0x2003, 0x2004, 0x2005,
      0x2006, 0x2007, 0x2008, 0x2009, 0x200A, 0x2028, 0x2029, 0x202F, 0x205F, 0x3000, 0xFEFF}
  }

  function TrimStart(s: string): (r: string)
    ensures r == [] || !IsSpace(r[0])
  {
    if s != [] && IsSpace(s[0]) then TrimStart(s[1..]) else s
  }

  function TrimEnd(s: string): (r: string)
    ensures r <= s
    ensures r == [] || !IsSpace(r[|r| - 1])
  {
    if s != [] && IsSpace(s[|s| - 1]) then TrimEnd(s[..|s| - 1]) else s
  }

  function Trim(s: string): string {
    TrimEnd(TrimStart(s))
  }

  lemma TrimTwice(s: string)
    ensures Trim(Trim(s)) == Trim(s)
  {
    var t := Trim(s);
    assert t == [] || t[0] == TrimStart(s)[0];
  }

  /** The non-blank trimmed id of an entry. */
  function RosterId(e: RawEntry): Option<string> {
    if e.Record? && e.id.Some? && Trim(e.id.value) != "" then Some(Trim(e.id.value)) else None
  }

  predicate HasId(entries: seq<RawEntry>, id: string) {
    exists i :: 0 <= i < |entries| && RosterId(entries[i]) == Some(id)
  }

  // ---------------------------------------------------------------------------
  // The raw roster and what is preserved of it
  // ---------------------------------------------------------------------------

  /** The ids of the raw roster, each once, in file order. */
  function RosterIds(entries: seq<RawEntry>): seq<string> {
    if entries == [] then []
    else
      var earlier := RosterIds(entries[..|entries| - 1]);
      var id := RosterId(entries[|entries| - 1]);
      if id.None? || id.value in earlier then earlier else earlier + [id.value]
  }

  predicate Distinct(ids: seq<string>) {
    forall i, j :: 0 <= i < j < |ids| ==> ids[i] != ids[j]
  }

  lemma HasIdOfConcat(a: seq<RawEntry>, b: seq<RawEntry>, id: string)
    ensures HasId(a + b, id) <==> HasId(a, id) || HasId(b, id)
  {
    if HasId(a, id) {
      var i :| 0 <= i < |a| && RosterId(a[i]) == Some(id);
      assert RosterId((a + b)[i]) == Some(id);
    }
    if HasId(b, id) {
      var i :| 0 <= i < |b| && RosterId(b[i]) == Some(id);
      assert RosterId((a + b)[|a| + i]) == Some(id);
    }
  }

  lemma HasIdOfOne(e: RawEntry, id: string)
    ensures HasId([e], id) <==> RosterId(e) == Some(id)
  {
    assert [e][0] == e;
  }

  lemma {:induction false} RosterIdsAreTheIds(entries: seq<RawEntry>, id: string)
    ensures id in RosterIds(entries) <==> HasId(entries, id)
    ensures Distinct(RosterIds(entries))
    ensures id in RosterIds(entries) ==> id != "" && Trim(id) == id
  {
    if entries != [] {
      var init, last := entries[..|entries| - 1], entries[|entries| - 1];
      RosterIdsAreTheIds(init, id);
      assert entries == init + [last];
      HasIdOfConcat(init, [last], id);
      HasIdOfOne(last, id);
      if RosterId(last) == Some(id) {
        TrimTwice(last.id.value);
      }
    }
  }

  /** The first entry with `id`. */
  function FirstWithId(entries: seq<RawEntry>, id: string): (e: Option<RawEntry>)
    ensures e.Some? <==> HasId(entries, id)
    ensures e.Some? ==> e.value in entries && RosterId(e.value) == Some(id)
  {
    if entries == [] then None
    else if RosterId(entries[0]) == Some(id) then Some(entries[0])
    else
      assert HasId(entries[1..], id) ==> HasId(entries, id) by {
        if HasId(entries[1..], id) {
          var i :| 0 <= i < |entries[1..]| && RosterId(entries[1..][i]) == Some(id);
          assert RosterId(entries[i + 1]) == Some(id);
        }
      }
      assert HasId(entries, id) ==> HasId(entries[1..], id) by {
        if HasId(entries, id) {
          var i :| 0 <= i < |entries| && RosterId(entries[i]) == Some(id);
          assert RosterId(entries[1..][i - 1]) == Some(id);
        }
      }
      FirstWithId(entries[1..], id)
  }

  /** The entries of `ids` that are neither in `exclude`d ids nor missing. */
  function EntriesFor(entries: seq<RawEntry>, ids: seq<string>, exclude: set<string>): seq<RawEntry> {
    if ids == [] then []
    else
      var earlier := EntriesFor(entries, ids[..|ids| - 1], exclude);
      var id := ids[|ids| - 1];
      var e := FirstWithId(entries, id);
      if id in exclude || e.None? then earlier else earlier + [e.value]
  }

  /** What a writer appends: rejected raw entries it does not drop on purpose and does not emit itself. */
  function Additions(raw: Option<seq<RawEntry>>, loaded: set<string>, allowDrop: set<string>, written: set<string>)
    : seq<RawEntry>
  {
    if raw.None? then [] else EntriesFor(raw.value, RosterIds(raw.value), loaded + allowDrop + written)
  }

  // ---------------------------------------------------------------------------
  // The writers
  // ---------------------------------------------------------------------------

  function Serialize(accounts: seq<Account>): (r: seq<RawEntry>)
    ensures |r| == |accounts|
  {
    seq(|accounts|, i requires 0 <= i < |accounts| => Record(Some(accounts[i].id), accounts[i].body))
  }

  function WrittenIds(accounts: seq<Account>): set<string> {
    set a | a in accounts && Trim(a.id) != "" :: Trim(a.id)
  }

  function LoadedIds(accounts: seq<Account>): set<string> {
    set a | a in accounts :: a.id
  }

  function MutateWrites(raw: Option<seq<RawEntry>>, loaded: seq<Account>, next: seq<Account>, allowDrop: set<string>)
    : seq<RawEntry>
  {
    Serialize(next) + Additions(raw, LoadedIds(loaded), allowDrop, WrittenIds(next))
  }

  /** The disk's accounts with each incoming one in place of, or after, them. */
  function Union(latest: seq<Account>, incoming: seq<Account>): seq<Account> {
    if incoming == [] then latest
    else
      var earlier := Union(latest, incoming[..|incoming| - 1]);
      Put(earlier, incoming[|incoming| - 1])
  }

  /** The accounts as a map by id holds them: one entry each, the last one's, in the first one's place. */
  function Keyed(accounts: seq<Account>): seq<Account> {
    Union([], accounts)
  }

  /** Setting a key of an insertion-ordered map. */
  function Put(accounts: seq<Account>, a: Account): seq<Account> {
    if accounts == [] then [a]
    else if accounts[0].id == a.id then [a] + accounts[1..]
    else [accounts[0]] + Put(accounts[1..], a)
  }

  function SaveWrites(raw: Option<seq<RawEntry>>, latest: Option<seq<Account>>, incoming: seq<Account>): seq<RawEntry> {
    var merged := if latest.None? then incoming else Union(Keyed(latest.value), incoming);
    Serialize(merged) + Additions(raw, LoadedIds(latest.GetOr([])), {}, WrittenIds(merged))
  }

  method CollectConfigRosterIds(raw: Option<seq<RawEntry>>) returns (ids: Option<seq<string>>)
    ensures ids == if raw.None? then None else Some(RosterIds(raw.value))
  {
    if raw.None? { return None; }
    var found: seq<string> := [];
    for i := 0 to |raw.value|
      invariant found == RosterIds(raw.value[..i])
    {
      assert raw.value[..i + 1][..i] == raw.value[..i];
      var account := raw.value[i];
      if account.NotRecord? || account.id.None? { continue; }
      var trimmed := Trim(account.id.value);
      if trimmed == "" { continue; }
      if trimmed !in found {
        found := found + [trimmed];
      }
    }
    assert raw.value[..|raw.value|] == raw.value;
    ids := Some(found);
  }

  method PickRawRosterEntriesForPreservation(
      raw: seq<RawEntry>, rawIds: seq<string>, current: set<string>, allowDrop: set<string>)
    returns (preserved: seq<RawEntry>)
    ensures preserved == EntriesFor(raw, rawIds, current + allowDrop)
  {
    preserved := [];
    for i := 0 to |rawIds|
      invariant preserved == EntriesFor(raw, rawIds[..i], current + allowDrop)
    {
      assert rawIds[..i + 1][..i] == rawIds[..i];
      var id := rawIds[i];
      if id in current || id in allowDrop { continue; }
      var entry := FirstWithId(raw, id);
      if entry.None? { continue; }
      preserved := preserved + [entry.value];
    }
    assert rawIds[..|rawIds|] == rawIds;
  }

  /** The shared pipeline of both writers, up to the caller's filter on what it emits itself. */
  method BuildAdditions(raw: Option<seq<RawEntry>>, loaded: set<string>, allowDrop: set<string>, written: set<string>)
    returns (additions: seq<RawEntry>)
    ensures additions == Additions(raw, loaded, allowDrop, written)
  {
    var rawIds := CollectConfigRosterIds(raw);
    if rawIds.None? { return []; }
    var preserved := PickRawRosterEntriesForPreservation(raw.value, rawIds.value, loaded, allowDrop);
    FilterIsExclusion(raw.value, rawIds.value, loaded + allowDrop, written);
    additions := NotWritten(preserved, written);
  }

  /** Entries whose id is not among the written ones. */
  function NotWritten(entries: seq<RawEntry>, written: set<string>): seq<RawEntry> {
    if entries == [] then []
    else
      var earlier, last := NotWritten(entries[..|entries| - 1], written), entries[|entries| - 1];
      if last.Record? && last.id.Some? && Trim(last.id.value) !in written then earlier + [last] else earlier
  }

  lemma {:induction false} FilterIsExclusion(
      entries: seq<RawEntry>, ids: seq<string>, exclude: set<string>, written: set<string>)
    ensures NotWritten(EntriesFor(entries, ids, exclude), written) == EntriesFor(entries, ids, exclude + written)
  {
    if ids != [] {
      FilterIsExclusion(entries, ids[..|ids| - 1], exclude, written);
      var earlier := EntriesFor(entries, ids[..|ids| - 1], exclude);
      var all := EntriesFor(entries, ids, exclude);
      if all != earlier {
        assert all[..|all| - 1] == earlier;
      }
    }
  }

  class ConfigFile {
    /** The `accounts` array; `None` when the file is absent or holds none. */
    var accounts: Option<seq<RawEntry>>

    constructor (accounts: Option<seq<RawEntry>>)
      ensures this.accounts == accounts
    {
      this.accounts := accounts;
    }

    /** `loaded` is what the loader made of the file, `next` what the mutator made of that. */
    method MutateAccounts(loaded: seq<Account>, next: seq<Account>, allowDrop: set<string>)
      modifies this
      ensures accounts == Some(MutateWrites(old(accounts), loaded, next, allowDrop))
    {
      var additions := BuildAdditions(accounts, LoadedIds(loaded), allowDrop, WrittenIds(next));
      accounts := Some(Serialize(next) + additions);
    }

    /** `latest` is what the loader made of the file, `None` when it made nothing of it. */
    method SaveAccounts(latest: Option<seq<Account>>, incoming: seq<Account>)
      modifies this
      ensures accounts == Some(SaveWrites(old(accounts), latest, incoming))
    {
      var merged := if latest.None? then incoming else Union(Keyed(latest.value), incoming);
      var additions := BuildAdditions(accounts, LoadedIds(latest.GetOr([])), {}, WrittenIds(merged));
      accounts := Some(Serialize(merged) + additions);
    }
  }

  // ---------------------------------------------------------------------------
  // No silent loss
  // ---------------------------------------------------------------------------

  lemma {:induction false} EntriesForIds(entries: seq<RawEntry>, ids: seq<string>, exclude: set<string>, id: string)
    ensures HasId(EntriesFor(entries, ids, exclude), id) <==> id in ids && id !in exclude && HasId(entries, id)
  {
    if ids != [] {
      var init, last := ids[..|ids| - 1], ids[|ids| - 1];
      EntriesForIds(entries, init, exclude, id);
      assert id in ids <==> id in init || id == last;
      var e := FirstWithId(entries, last);
      if last !in exclude && e.Some? {
        HasIdOfConcat(EntriesFor(entries, init, exclude), [e.value], id);
        HasIdOfOne(e.value, id);
      }
    }
  }

  lemma SerializedIds(accounts: seq<Account>, id: string)
    requires id != "" && Trim(id) == id
    ensures HasId(Serialize(accounts), id) <==> id in WrittenIds(accounts)
  {
    if id in WrittenIds(accounts) {
      var a :| a in accounts && Trim(a.id) == id;
      var i :| 0 <= i < |accounts| && accounts[i] == a;
      assert RosterId(Serialize(accounts)[i]) == Some(id);
    }
    if HasId(Serialize(accounts), id) {
      var i :| 0 <= i < |accounts| && RosterId(Serialize(accounts)[i]) == Some(id);
      assert accounts[i] in accounts;
    }
  }

  /**
   * The roster `mutateAccounts` writes, exactly: an id is in it when the mutator emits it, or when it
   * was in the raw file, the loader rejected it and the caller is not dropping it. So an id of the
   * raw file is lost only when it loaded and the mutator removed it, or the caller dropped it.
   */
  lemma MutateKeepsRoster(
      raw: seq<RawEntry>, loaded: seq<Account>, next: seq<Account>, allowDrop: set<string>, id: string)
    requires id != "" && Trim(id) == id
    ensures HasId(MutateWrites(Some(raw), loaded, next, allowDrop), id) <==>
      id in WrittenIds(next) || (HasId(raw, id) && id !in LoadedIds(loaded) && id !in allowDrop)
    ensures HasId(raw, id) && !HasId(MutateWrites(Some(raw), loaded, next, allowDrop), id) ==>
      (id in LoadedIds(loaded) && id !in WrittenIds(next)) || id in allowDrop
  {
    var exclude := LoadedIds(loaded) + allowDrop + WrittenIds(next);
    HasIdOfConcat(Serialize(next), Additions(Some(raw), LoadedIds(loaded), allowDrop, WrittenIds(next)), id);
    EntriesForIds(raw, RosterIds(raw), exclude, id);
    RosterIdsAreTheIds(raw, id);
    SerializedIds(next, id);
  }

  lemma {:induction false} PutKeepsIds(accounts: seq<Account>, a: Account)
    ensures LoadedIds(Put(accounts, a)) == LoadedIds(accounts) + {a.id}
  {
    if accounts != [] {
      assert LoadedIds(accounts) == {accounts[0].id} + LoadedIds(accounts[1..]);
      if accounts[0].id == a.id {
        assert LoadedIds([a] + accounts[1..]) == {a.id} + LoadedIds(accounts[1..]);
      } else {
        PutKeepsIds(accounts[1..], a);
        var rest := Put(accounts[1..], a);
        assert LoadedIds([accounts[0]] + rest) == {accounts[0].id} + LoadedIds(rest);
      }
    }
  }

  lemma {:induction false} UnionKeepsIds(latest: seq<Account>, incoming: seq<Account>)
    ensures LoadedIds(Union(latest, incoming)) == LoadedIds(latest) + LoadedIds(incoming)
  {
    if incoming != [] {
      var init, last := incoming[..|incoming| - 1], incoming[|incoming| - 1];
      UnionKeepsIds(latest, init);
      PutKeepsIds(Union(latest, init), last);
      assert LoadedIds(incoming) == LoadedIds(init) + {last.id};
    }
  }

  /** `saveAccounts` writes every raw id and every incoming id, for any mix of loaded and rejected entries. */
  lemma SaveKeepsRoster(raw: seq<RawEntry>, latest: Option<seq<Account>>, incoming: seq<Account>, id: string)
    requires id != "" && Trim(id) == id
    requires HasId(raw, id) || id in LoadedIds(incoming)
    ensures HasId(SaveWrites(Some(raw), latest, incoming), id)
  {
    var merged := if latest.None? then incoming else Union(Keyed(latest.value), incoming);
    var loaded := LoadedIds(latest.GetOr([]));
    if latest.Some? {
      UnionKeepsIds([], latest.value);
      UnionKeepsIds(Keyed(latest.value), incoming);
    }
    HasIdOfConcat(Serialize(merged), Additions(Some(raw), loaded, {}, WrittenIds(merged)), id);
    EntriesForIds(raw, RosterIds(raw), loaded + {} + WrittenIds(merged), id);
    RosterIdsAreTheIds(raw, id);
    SerializedIds(merged, id);
    assert id in LoadedIds(merged) ==> id in WrittenIds(merged);
  }

  /** A raw entry, verbatim, under one of `ids` that is not excluded. */
  predicate IsPreserved(e: RawEntry, entries: seq<RawEntry>, ids: seq<string>, exclude: set<string>) {
    e in entries && RosterId(e).Some? && RosterId(e).value in ids && RosterId(e).value !in exclude
  }

  predicate DistinctEntries(kept: seq<RawEntry>) {
    forall i, j :: 0 <= i < j < |kept| ==> RosterId(kept[i]) != RosterId(kept[j])
  }

  lemma {:induction false} EntriesForPreserved(entries: seq<RawEntry>, ids: seq<string>, exclude: set<string>)
    requires Distinct(ids)
    ensures forall i :: 0 <= i < |EntriesFor(entries, ids, exclude)| ==>
      IsPreserved(EntriesFor(entries, ids, exclude)[i], entries, ids, exclude)
    ensures DistinctEntries(EntriesFor(entries, ids, exclude))
  {
    if ids != [] {
      var init, last := ids[..|ids| - 1], ids[|ids| - 1];
      EntriesForPreserved(entries, init, exclude);
      var earlier, kept := EntriesFor(entries, init, exclude), EntriesFor(entries, ids, exclude);
      assert last !in init;
      forall i | 0 <= i < |kept| ensures IsPreserved(kept[i], entries, ids, exclude) {
        assert i < |earlier| ==> IsPreserved(earlier[i], entries, init, exclude);
      }
      forall i, j | 0 <= i < j < |kept| ensures RosterId(kept[i]) != RosterId(kept[j]) {
        assert IsPreserved(earlier[i], entries, init, exclude);
      }
    }
  }

  /**
   * What either writer appends is verbatim from the raw file, each id once, and never an id that
   * loaded, was dropped on purpose, or is emitted by the writer itself.
   */
  lemma AdditionsNeverDuplicate(raw: seq<RawEntry>, loaded: set<string>, allowDrop: set<string>, written: set<string>)
    ensures var kept := Additions(Some(raw), loaded, allowDrop, written);
            && (forall i :: 0 <= i < |kept| ==> IsPreserved(kept[i], raw, RosterIds(raw), loaded + allowDrop + written))
            && DistinctEntries(kept)
  {
    RosterIdsAreTheIds(raw, "");
    EntriesForPreserved(raw, RosterIds(raw), loaded + allowDrop + written);
  }

  // ---------------------------------------------------------------------------
  // What is written, entry by entry
  // ---------------------------------------------------------------------------

  predicate Increasing(at: seq<nat>) {
    forall i, j :: 0 <= i < j < |at| ==> at[i] < at[j]
  }

  /** The first entry with `id` is at `p`. */
  predicate FirstAt(entries: seq<RawEntry>, id: string, p: nat) {
    && p < |entries| && RosterId(entries[p]) == Some(id)
    && forall e :: 0 <= e < p ==> RosterId(entries[e]) != Some(id)
  }

  lemma {:induction false} FoundFirst(entries: seq<RawEntry>, id: string, p: nat)
    requires FirstAt(entries, id, p)
    ensures FirstWithId(entries, id) == Some(entries[p])
    decreases p
  {
    if p > 0 {
      assert RosterId(entries[0]) != Some(id);
      FoundFirst(entries[1..], id, p - 1);
    }
  }

  /** The ids first occur at these places, in file order. */
  predicate Positions(raw: seq<RawEntry>, ids: seq<string>, at: seq<nat>) {
    && |at| == |ids| && Increasing(at)
    && forall i :: 0 <= i < |ids| ==> FirstAt(raw, ids[i], at[i])
  }

  lemma PositionsStay(raw: seq<RawEntry>, e: RawEntry, ids: seq<string>, at: seq<nat>)
    requires Positions(raw, ids, at)
    ensures Positions(raw + [e], ids, at)
    ensures at != [] ==> at[|at| - 1] < |raw|
  {
    forall i | 0 <= i < |ids| ensures FirstAt(raw + [e], ids[i], at[i]) {
      assert FirstAt(raw, ids[i], at[i]);
    }
    if at != [] {
      assert FirstAt(raw, ids[|ids| - 1], at[|at| - 1]);
    }
  }

  lemma OnePositionMore(raw: seq<RawEntry>, ids: seq<string>, at: seq<nat>, id: string, p: nat)
    requires Positions(raw, ids, at) && FirstAt(raw, id, p) && (at != [] ==> at[|at| - 1] < p)
    ensures Positions(raw, ids + [id], at + [p])
  {
  }

  lemma NewIdIsFirst(raw: seq<RawEntry>, e: RawEntry)
    requires RosterId(e).Some? && RosterId(e).value !in RosterIds(raw)
    ensures FirstAt(raw + [e], RosterId(e).value, |raw|)
  {
    RosterIdsAreTheIds(raw, RosterId(e).value);
    assert forall k :: 0 <= k < |raw| ==> (raw + [e])[k] == raw[k];
  }

  lemma {:induction false} RosterPositions(raw: seq<RawEntry>) returns (at: seq<nat>)
    ensures Positions(raw, RosterIds(raw), at)
  {
    at := [];
    if raw != [] {
      var init, last := raw[..|raw| - 1], raw[|raw| - 1];
      assert raw == init + [last];
      at := RosterPositions(init);
      PositionsStay(init, last, RosterIds(init), at);
      var id := RosterId(last);
      if id.Some? && id.value !in RosterIds(init) {
        NewIdIsFirst(init, last);
        OnePositionMore(raw, RosterIds(init), at, id.value, |init|);
        at := at + [|init|];
      }
    }
  }

  /** `e` stands at `p` in the raw roster, and no entry before it has its id. */
  predicate IsFirstOfItsId(raw: seq<RawEntry>, e: RawEntry, p: nat) {
    RosterId(e).Some? && FirstAt(raw, RosterId(e).value, p) && e == raw[p]
  }

  /** The entries stand at these places of the raw roster, in file order, each the first of its id. */
  predicate InFileOrder(raw: seq<RawEntry>, entries: seq<RawEntry>, at: seq<nat>) {
    && |at| == |entries| && Increasing(at)
    && forall i :: 0 <= i < |at| ==> IsFirstOfItsId(raw, entries[i], at[i])
  }

  lemma OneEntryMore(raw: seq<RawEntry>, entries: seq<RawEntry>, at: seq<nat>, e: RawEntry, p: nat)
    requires InFileOrder(raw, entries, at) && IsFirstOfItsId(raw, e, p) && (at != [] ==> at[|at| - 1] < p)
    ensures InFileOrder(raw, entries + [e], at + [p])
  {
  }

  lemma FewerPositions(raw: seq<RawEntry>, ids: seq<string>, id: string, at: seq<nat>, p: nat)
    requires Positions(raw, ids + [id], at + [p]) && |ids| == |at|
    ensures Positions(raw, ids, at) && FirstAt(raw, id, p) && (at != [] ==> at[|at| - 1] < p)
  {
    var allIds, all := ids + [id], at + [p];
    assert FirstAt(raw, allIds[|ids|], all[|at|]);
    forall i | 0 <= i < |ids| ensures FirstAt(raw, ids[i], at[i]) {
      assert FirstAt(raw, allIds[i], all[i]);
    }
    forall i, j | 0 <= i < j < |at| ensures at[i] < at[j] {
      assert all[i] < all[j];
    }
    assert at != [] ==> all[|at| - 1] < all[|at|];
  }

  /** One more id of the raw roster, whose first entry stands behind all the others'. */
  lemma KeepOneMore(
      raw: seq<RawEntry>, ids: seq<string>, id: string, kept: seq<nat>, p: nat, exclude: set<string>)
    returns (more: seq<nat>)
    requires InFileOrder(raw, EntriesFor(raw, ids, exclude), kept)
    requires FirstAt(raw, id, p) && (kept != [] ==> kept[|kept| - 1] < p)
    ensures InFileOrder(raw, EntriesFor(raw, ids + [id], exclude), more)
    ensures more == kept || more == kept + [p]
  {
    assert (ids + [id])[..|ids|] == ids;
    FoundFirst(raw, id, p);
    if id in exclude {
      more := kept;
    } else {
      OneEntryMore(raw, EntriesFor(raw, ids, exclude), kept, raw[p], p);
      more := kept + [p];
    }
  }

  lemma {:induction false} KeptPositions(raw: seq<RawEntry>, ids: seq<string>, at: seq<nat>, exclude: set<string>)
    returns (kept: seq<nat>)
    requires Positions(raw, ids, at)
    ensures InFileOrder(raw, EntriesFor(raw, ids, exclude), kept)
    ensures kept != [] ==> at != [] && kept[|kept| - 1] <= at[|at| - 1]
  {
    kept := [];
    if ids != [] {
      var n := |ids| - 1;
      var init, id, before, p := ids[..n], ids[n], at[..n], at[n];
      assert ids == init + [id] && at == before + [p];
      FewerPositions(raw, init, id, before, p);
      var earlier := KeptPositions(raw, init, before, exclude);
      kept := KeepOneMore(raw, init, id, earlier, p, exclude);
    }
  }

  /** What either writer carries over is, in file order, the first raw entry of each id. */
  lemma PreservedInFileOrder(raw: seq<RawEntry>, loaded: set<string>, allowDrop: set<string>, written: set<string>)
    returns (at: seq<nat>)
    ensures InFileOrder(raw, Additions(Some(raw), loaded, allowDrop, written), at)
  {
    var positions := RosterPositions(raw);
    at := KeptPositions(raw, RosterIds(raw), positions, loaded + allowDrop + written);
  }

  /** The last account with `id`. */
  function LastWith(accounts: seq<Account>, id: string): Option<Account> {
    if accounts == [] then None
    else if accounts[|accounts| - 1].id == id then Some(accounts[|accounts| - 1])
    else LastWith(accounts[..|accounts| - 1], id)
  }

  predicate DistinctAccounts(accounts: seq<Account>) {
    forall i, j :: 0 <= i < j < |accounts| ==> accounts[i].id != accounts[j].id
  }

  /** An account is replaced where it first stands, or added behind all others. */
  lemma {:induction false} PutExactly(accounts: seq<Account>, a: Account) returns (k: nat)
    ensures k <= |accounts| && forall i :: 0 <= i < k ==> accounts[i].id != a.id
    ensures k < |accounts| ==> accounts[k].id == a.id && Put(accounts, a) == accounts[k := a]
    ensures k == |accounts| ==> Put(accounts, a) == accounts + [a]
  {
    k := 0;
    if accounts != [] && accounts[0].id != a.id {
      var j := PutExactly(accounts[1..], a);
      k := j + 1;
      forall i | 0 < i < k ensures accounts[i].id != a.id {
        assert accounts[i] == accounts[1..][i - 1];
      }
      assert accounts == [accounts[0]] + accounts[1..];
    } else if accounts != [] {
      assert accounts[0 := a] == [a] + accounts[1..];
    }
  }

  /** `a` is the last account that came in under its id, or the one on disk at `i` when none did. */
  predicate Prevails(a: Account, i: nat, latest: seq<Account>, incoming: seq<Account>) {
    || LastWith(incoming, a.id) == Some(a)
    || (LastWith(incoming, a.id).None? && i < |latest| && a == latest[i])
  }

  /** The union keeps the places of the accounts on disk, and holds one account under each id: the last to come in. */
  lemma {:induction false} UnionExactly(latest: seq<Account>, incoming: seq<Account>)
    requires DistinctAccounts(latest)
    ensures var r := Union(latest, incoming);
            && |latest| <= |r| && DistinctAccounts(r)
            && (forall i :: 0 <= i < |latest| ==> r[i].id == latest[i].id)
            && forall i :: 0 <= i < |r| ==> Prevails(r[i], i, latest, incoming)
  {
    if incoming != [] {
      var init, last := incoming[..|incoming| - 1], incoming[|incoming| - 1];
      UnionExactly(latest, init);
      var before, r := Union(latest, init), Union(latest, incoming);
      var k := PutExactly(before, last);
      assert r[k] == last;
      forall i | 0 <= i < |r| && i != k ensures r[i] == before[i] && r[i].id != last.id {
        assert k < |before| ==> before[k].id != before[i].id;
      }
      forall i | 0 <= i < |r| ensures Prevails(r[i], i, latest, incoming) {
        assert i != k ==> Prevails(before[i], i, latest, init);
      }
    }
  }

  /** The account under `id` that came in last, or else the last one on disk. */
  function Latest(latest: seq<Account>, incoming: seq<Account>, id: string): Option<Account> {
    if LastWith(incoming, id).Some? then LastWith(incoming, id) else LastWith(latest, id)
  }

  /**
   * `saveAccounts` writes, in front of what it carries over, each account once, as the caller has it: an account
   * the caller does not hold as it is on disk, and with nothing loaded exactly the caller's list.
   */
  lemma SaveWritesAccounts(raw: Option<seq<RawEntry>>, latest: Option<seq<Account>>, incoming: seq<Account>)
    returns (merged: seq<Account>)
    ensures var out := SaveWrites(raw, latest, incoming);
            && |merged| <= |out|
            && (forall i :: 0 <= i < |merged| ==> out[i] == Record(Some(merged[i].id), merged[i].body))
            && out[|merged|..] == Additions(raw, LoadedIds(latest.GetOr([])), {}, WrittenIds(merged))
    ensures latest.None? ==> merged == incoming
    ensures latest.Some? ==>
      && DistinctAccounts(merged)
      && LoadedIds(merged) == LoadedIds(latest.value) + LoadedIds(incoming)
      && forall i :: 0 <= i < |merged| ==>
           Some(merged[i]) == Latest(latest.value, incoming, merged[i].id)
  {
    merged := if latest.None? then incoming else Union(Keyed(latest.value), incoming);
    if latest.Some? {
      var keyed := Keyed(latest.value);
      UnionExactly([], latest.value);
      UnionExactly(keyed, incoming);
      UnionKeepsIds([], latest.value);
      UnionKeepsIds(keyed, incoming);
      forall i | 0 <= i < |merged| ensures
        Some(merged[i]) == Latest(latest.value, incoming, merged[i].id)
      {
        assert Prevails(merged[i], i, keyed, incoming);
        assert i < |keyed| ==> Prevails(keyed[i], i, [], latest.value);
      }
    }
  }

  /** `mutateAccounts` writes what the mutator emits, verbatim and in its order, and then what it carries over. */
  lemma MutateWritesAccounts(
      raw: Option<seq<RawEntry>>, loaded: seq<Account>, next: seq<Account>, allowDrop: set<string>)
    ensures var out := MutateWrites(raw, loaded, next, allowDrop);
            && |next| <= |out|
            && (forall i :: 0 <= i < |next| ==> out[i] == Record(Some(next[i].id), next[i].body))
            && out[|next|..] == Additions(raw, LoadedIds(loaded), allowDrop, WrittenIds(next))
            && (raw.None? ==> |out| == |next|)
  {
  }
}
