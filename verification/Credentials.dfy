/**
 * The account store's merges (packages/core/src/accounts.ts): which of two copies of an account's
 * credential a save keeps, and what a state save leaves in the file.
 */
module Credentials {
  import opened Prelude

  datatype OperationError = OperationError(message: string, checkedAt: int)

  /** The five fields that travel together. */
  datatype Credential = Credential(
    access: Option<string>,
    refresh: Option<string>,
    expires: Option<int>,
    lastRefreshedAt: Option<int>,
    lastRefreshError: Option<OperationError>)

  /** A quota snapshot, with the newest of its windows' stamps (0 when it has none). */
  datatype Quota = Quota(reading: string, checkedAt: nat)

  /** One account's entry in the state file. */
  datatype Entry = Entry(
    credential: Credential,
    lastUsed: Option<int>,
    quota: Option<Quota>,
    lastQuotaRefreshError: Option<OperationError>,
    apiKey: Option<string>)

  const NO_CREDENTIAL := Credential(None, None, None, None, None)
  const EMPTY_ENTRY := Entry(NO_CREDENTIAL, None, None, None, None)

  const FUTURE_REFRESH_STAMP_TOLERANCE_MS := 5 * 60_000

  // ---------------------------------------------------------------------------
  // The newer credential wins
  // ---------------------------------------------------------------------------

  /** A stamp too far ahead of the clock says nothing and counts as absent. */
  function TrustedRefreshStamp(stamp: Option<int>, now: int): int {
    if stamp.None? || stamp.value > now + FUTURE_REFRESH_STAMP_TOLERANCE_MS then 0 else stamp.value
  }

  function Stamp(c: Credential, now: int): int {
    TrustedRefreshStamp(c.lastRefreshedAt, now)
  }

  predicate SameToken(a: Credential, b: Credential) {
    a.access == b.access && a.refresh == b.refresh && a.expires == b.expires && a.lastRefreshedAt == b.lastRefreshedAt
  }

  function ErrorAt(c: Credential): int {
    if c.lastRefreshError.Some? then c.lastRefreshError.value.checkedAt else 0
  }

  function SelectSameTokenState(existing: Credential, incoming: Credential): Credential {
    if !SameToken(existing, incoming) then incoming
    else if incoming.lastRefreshError.None? then existing
    else if existing.lastRefreshError.None? then incoming
    else if ErrorAt(incoming) > ErrorAt(existing) then incoming else existing
  }

  /** The whole credential of whichever side is newer. */
  function NewerCredential(existing: Credential, incoming: Credential, now: int): Credential {
    if Stamp(incoming, now) > Stamp(existing, now) then incoming
    else if Stamp(existing, now) > Stamp(incoming, now) then existing
    else if incoming.expires.GetOr(0) > existing.expires.GetOr(0) then incoming
    else if existing.expires.GetOr(0) > incoming.expires.GetOr(0) then existing
    else SelectSameTokenState(existing, incoming)
  }

  function Present<T>(preferred: Option<T>, otherwise: Option<T>): Option<T> {
    if preferred.Some? then preferred else otherwise
  }

  function CheckedAt(q: Option<Quota>): nat {
    if q.Some? then q.value.checkedAt else 0
  }

  /** A state save's entry: the newer credential, the newer quota, the later use. */
  function MergeEntry(existing: Option<Entry>, incoming: Entry, now: int): Entry {
    if existing.None? then incoming
    else
      var e := existing.value;
      var quotaIsNewer := CheckedAt(e.quota) > CheckedAt(incoming.quota);
      Entry(
        NewerCredential(e.credential, incoming.credential, now),
        if e.lastUsed.Some? && (incoming.lastUsed.None? || e.lastUsed.value > incoming.lastUsed.value)
          then e.lastUsed else incoming.lastUsed,
        if quotaIsNewer then e.quota else Present(incoming.quota, e.quota),
        if quotaIsNewer then e.lastQuotaRefreshError else incoming.lastQuotaRefreshError,
        Present(incoming.apiKey, e.apiKey))
  }

  /**
   * A state save never goes back: the quota kept is the newest of the two, with the error that goes
   * with it, the use kept is the latest, and saving the same entry again changes nothing.
   */
  lemma MergeNeverGoesBack(e: Entry, incoming: Entry, now: int)
    ensures var m := MergeEntry(Some(e), incoming, now);
            && CheckedAt(m.quota) >= CheckedAt(e.quota) && CheckedAt(m.quota) >= CheckedAt(incoming.quota)
            && (m.quota == e.quota || m.quota == incoming.quota)
            && (CheckedAt(incoming.quota) > CheckedAt(e.quota) ==> m.quota == incoming.quota)
            && (CheckedAt(e.quota) > CheckedAt(incoming.quota) ==> m.lastQuotaRefreshError == e.lastQuotaRefreshError)
            && (CheckedAt(e.quota) <= CheckedAt(incoming.quota) ==>
                  m.lastQuotaRefreshError == incoming.lastQuotaRefreshError)
            && (e.lastUsed.Some? ==> m.lastUsed.Some? && m.lastUsed.value >= e.lastUsed.value)
            && (incoming.lastUsed.Some? ==> m.lastUsed.Some? && m.lastUsed.value >= incoming.lastUsed.value)
            && MergeEntry(Some(m), incoming, now) == m
  {
  }

  /** A row of the account list. */
  datatype Account =
    | OAuth(id: string, entry: Entry)
    | CorruptOAuth(id: string)
    | ApiKey(id: string, apiKey: Option<string>, lastUsed: Option<int>)

  function RuntimeState(a: Account): Entry {
    match a
    case OAuth(_, e) => e.(apiKey := None)
    case CorruptOAuth(_) => EMPTY_ENTRY
    case ApiKey(_, key, used) => EMPTY_ENTRY.(apiKey := key, lastUsed := used)
  }

  /** A full save's row: the incoming one, with the newer credential of the two. */
  function KeepNewerCredential(onDisk: Account, incoming: Account, now: int): Account {
    if !onDisk.OAuth? || !incoming.OAuth? then incoming
    else incoming.(entry :=
      incoming.entry.(credential := NewerCredential(onDisk.entry.credential, incoming.entry.credential, now)))
  }

  // ---------------------------------------------------------------------------
  // Convergence
  // ---------------------------------------------------------------------------

  /** One save of an account by either writer, at the writer's clock. */
  datatype Save = Save(fullStore: bool, incoming: Entry, now: int)

  /** The entry the store holds after a save. */
  function AfterSave(id: string, stored: Entry, save: Save): Entry {
    if save.fullStore then
      RuntimeState(KeepNewerCredential(OAuth(id, stored), OAuth(id, save.incoming), save.now))
    else MergeEntry(Some(stored), RuntimeState(OAuth(id, save.incoming)), save.now)
  }

  function AfterSaves(id: string, stored: Entry, saves: seq<Save>): Entry
    decreases |saves|
  {
    if saves == [] then stored else AfterSaves(id, AfterSave(id, stored, saves[0]), saves[1..])
  }

  /** At every save's clock `c` is trusted less than `newest`, or it carries the same fields. */
  predicate OlderThan(c: Credential, newest: Credential, saves: seq<Save>) {
    c == newest || forall i :: 0 <= i < |saves| ==> Stamp(c, saves[i].now) < Stamp(newest, saves[i].now)
  }

  /** Both writers keep one of the two credentials whole. */
  lemma SaveKeepsOneWhole(id: string, stored: Entry, save: Save)
    ensures AfterSave(id, stored, save).credential
         == NewerCredential(stored.credential, save.incoming.credential, save.now)
    ensures AfterSave(id, stored, save).credential in {stored.credential, save.incoming.credential}
  {
  }

  /**
   * After any mix of full saves and state saves, in any order and each at its own clock, the stored
   * credential is the newest one seen, whole, whenever the newest is trusted ahead of every other.
   */
  lemma {:induction false} SavesConverge(id: string, stored: Entry, saves: seq<Save>, newest: Credential)
    requires OlderThan(stored.credential, newest, saves)
    requires forall i :: 0 <= i < |saves| ==> OlderThan(saves[i].incoming.credential, newest, saves)
    requires stored.credential == newest || exists i :: 0 <= i < |saves| && saves[i].incoming.credential == newest
    ensures AfterSaves(id, stored, saves).credential == newest
    decreases |saves|
  {
    if saves != [] {
      var next, later := AfterSave(id, stored, saves[0]), saves[1..];
      SaveKeepsOneWhole(id, stored, saves[0]);
      assert OlderThan(saves[0].incoming.credential, newest, saves);
      forall c | OlderThan(c, newest, saves) ensures OlderThan(c, newest, later) {
        assert forall i :: 0 <= i < |later| ==> later[i] == saves[i + 1];
      }
      forall i | 0 <= i < |later| ensures OlderThan(later[i].incoming.credential, newest, later) {
        assert later[i] == saves[i + 1];
      }
      if next.credential != newest {
        var i :| 0 <= i < |saves| && saves[i].incoming.credential == newest;
        assert i > 0 && later[i - 1] == saves[i];
      }
      SavesConverge(id, next, later, newest);
    }
  }

  /** A stamp far in the future never beats a trusted one, from either side. */
  lemma FarFutureNeverWins(ahead: Credential, trusted: Credential, now: int)
    requires ahead.lastRefreshedAt.Some? && ahead.lastRefreshedAt.value > now + FUTURE_REFRESH_STAMP_TOLERANCE_MS
    requires Stamp(trusted, now) > 0
    ensures NewerCredential(ahead, trusted, now) == trusted == NewerCredential(trusted, ahead, now)
  {
  }

  // ---------------------------------------------------------------------------
  // A state save
  // ---------------------------------------------------------------------------

  /** The accounts a scoped save writes: those asked for that the roster, when readable, still holds. */
  predicate Writes(a: Account, ids: Option<set<string>>, roster: Option<set<string>>) {
    (ids.Some? ==> a.id in ids.value) && (roster.Some? ==> a.id in roster.value)
  }

  function MergeAll(
      entries: map<string, Entry>, accounts: seq<Account>, ids: Option<set<string>>, roster: Option<set<string>>,
      now: int)
    : map<string, Entry>
  {
    if accounts == [] then entries
    else
      var a := accounts[|accounts| - 1];
      var earlier := MergeAll(entries, accounts[..|accounts| - 1], ids, roster, now);
      if !Writes(a, ids, roster) then earlier
      else earlier[a.id := MergeEntry(if a.id in earlier then Some(earlier[a.id]) else None, RuntimeState(a), now)]
  }

  function AccountIds(accounts: seq<Account>): set<string> {
    set a | a in accounts :: a.id
  }

  /** Asked-for ids the caller no longer has are dropped, and so is everything off the roster. */
  function Pruned(
      entries: map<string, Entry>, accounts: seq<Account>, ids: Option<set<string>>, roster: Option<set<string>>)
    : map<string, Entry>
  {
    map id | id in entries
      && !(ids.Some? && id in ids.value && id !in AccountIds(accounts))
      && (roster.Some? ==> id in roster.value) :: entries[id]
  }

  class StateFile {
    var accounts: map<string, Entry>

    constructor (accounts: map<string, Entry>)
      ensures this.accounts == accounts
    {
      this.accounts := accounts;
    }

    /** The `accounts` part of `saveAccountState`, under the state lock. */
    method SaveAccountState(storage: seq<Account>, ids: Option<set<string>>, roster: Option<set<string>>, now: int)
      modifies this
      ensures accounts == Pruned(MergeAll(old(accounts), storage, ids, roster, now), storage, ids, roster)
    {
      for i := 0 to |storage|
        invariant accounts == MergeAll(old(accounts), storage[..i], ids, roster, now)
      {
        assert storage[..i + 1][..i] == storage[..i];
        var a := storage[i];
        if Writes(a, ids, roster) {
          accounts := accounts[a.id :=
            MergeEntry(if a.id in accounts then Some(accounts[a.id]) else None, RuntimeState(a), now)];
        }
      }
      assert storage[..|storage|] == storage;
      if ids.Some? {
        accounts := map id | id in accounts && !(id in ids.value && id !in AccountIds(storage)) :: accounts[id];
      }
      if roster.Some? {
        accounts := map id | id in accounts && id in roster.value :: accounts[id];
      }
    }

    /** The `accounts` part of what `saveAccounts` leaves in the state file, when every entry loads. */
    method SaveAccounts(incoming: seq<Account>, now: int)
      modifies this
      ensures accounts == FullSaved(old(accounts), incoming, now)
    {
      var merged := OnDisk(accounts);
      for i := 0 to |incoming|
        invariant merged == MergedForSave(OnDisk(old(accounts)), incoming[..i], now)
        invariant accounts == old(accounts)
      {
        assert incoming[..i + 1][..i] == incoming[..i];
        var a := incoming[i];
        merged := merged[a.id := if a.id in merged then KeepNewerCredential(merged[a.id], a, now) else a];
      }
      assert incoming[..|incoming|] == incoming;
      accounts := map id | id in merged :: RuntimeState(merged[id]);
    }
  }

  /** The accounts the loader makes of the entries. */
  function OnDisk(entries: map<string, Entry>): map<string, Account> {
    map id | id in entries :: OAuth(id, entries[id])
  }

  /** Every incoming account takes its place, with the newer credential of the two. */
  function MergedForSave(latest: map<string, Account>, incoming: seq<Account>, now: int): map<string, Account> {
    if incoming == [] then latest
    else
      var earlier := MergedForSave(latest, incoming[..|incoming| - 1], now);
      var a := incoming[|incoming| - 1];
      earlier[a.id := if a.id in earlier then KeepNewerCredential(earlier[a.id], a, now) else a]
  }

  function FullSaved(entries: map<string, Entry>, incoming: seq<Account>, now: int): map<string, Entry> {
    var merged := MergedForSave(OnDisk(entries), incoming, now);
    map id | id in merged :: RuntimeState(merged[id])
  }

  lemma {:induction false} MergeAllOther(
      entries: map<string, Entry>, accounts: seq<Account>, ids: Option<set<string>>, roster: Option<set<string>>,
      now: int, id: string)
    requires forall i :: 0 <= i < |accounts| ==> accounts[i].id != id || !Writes(accounts[i], ids, roster)
    ensures var merged := MergeAll(entries, accounts, ids, roster, now);
            (id in merged <==> id in entries) && (id in entries ==> merged[id] == entries[id])
  {
    if accounts != [] {
      MergeAllOther(entries, accounts[..|accounts| - 1], ids, roster, now, id);
    }
  }

  /**
   * A stale snapshot cannot bring a removed account's secrets back: with a readable roster, nothing
   * off it is left in the file; and an account the save was not asked to write, or that the caller
   * does not hold, keeps its entry unless the caller asked for it or the roster dropped it.
   */
  lemma StateSaveRespectsRoster(
      entries: map<string, Entry>, accounts: seq<Account>, ids: Option<set<string>>, roster: Option<set<string>>,
      now: int, id: string)
    ensures var after := Pruned(MergeAll(entries, accounts, ids, roster, now), accounts, ids, roster);
            && (roster.Some? && id !in roster.value ==> id !in after)
            && (id in entries && (roster.Some? ==> id in roster.value)
                  && (if ids.Some? then id !in ids.value else id !in AccountIds(accounts)) ==>
                  id in after && after[id] == entries[id])
  {
    if id in entries && (if ids.Some? then id !in ids.value else id !in AccountIds(accounts)) {
      MergeAllOther(entries, accounts, ids, roster, now, id);
    }
  }

  // ---------------------------------------------------------------------------
  // What a save leaves for an account it writes
  // ---------------------------------------------------------------------------

  /** The entries a state save has to choose from for `id`: the stored one and the caller's that it writes. */
  function Candidates(
      entries: map<string, Entry>, accounts: seq<Account>, ids: Option<set<string>>, roster: Option<set<string>>,
      id: string)
    : set<Entry>
  {
    (if id in entries then {entries[id]} else {})
    + set a | a in accounts && a.id == id && Writes(a, ids, roster) :: RuntimeState(a)
  }

  /** The stamp of `c` is trusted ahead of that of every candidate with another credential. */
  predicate Leads(c: Entry, candidates: set<Entry>, now: int) {
    && c in candidates
    && forall d :: d in candidates ==>
         d.credential == c.credential || Stamp(d.credential, now) < Stamp(c.credential, now)
  }

  /**
   * `e` has one candidate's credential whole, that of the one whose stamp leads if there is one; the quota of
   * one that none is newer than; and the latest use.
   */
  ghost predicate BestOf(e: Entry, candidates: set<Entry>, now: int) {
    && (exists c :: c in candidates && e.credential == c.credential)
    && (forall c :: Leads(c, candidates, now) ==> e.credential == c.credential)
    && (exists c :: c in candidates && e.quota == c.quota)
    && (forall c :: c in candidates ==> CheckedAt(c.quota) <= CheckedAt(e.quota))
    && (exists c :: c in candidates && e.lastUsed == c.lastUsed)
    && forall c :: c in candidates && c.lastUsed.Some? ==>
         e.lastUsed.Some? && c.lastUsed.value <= e.lastUsed.value
  }

  lemma BestOfOne(e: Entry, now: int)
    ensures BestOf(e, {e}, now)
  {
    assert e in {e};
  }

  lemma BestOfOneMore(e: Entry, candidates: set<Entry>, incoming: Entry, now: int)
    requires BestOf(e, candidates, now)
    ensures BestOf(MergeEntry(Some(e), incoming, now), candidates + {incoming}, now)
  {
    var all, merged := candidates + {incoming}, MergeEntry(Some(e), incoming, now);
    var c :| c in candidates && e.credential == c.credential;
    assert c in all && incoming in all;
    var q :| q in candidates && e.quota == q.quota;
    assert q in all && (merged.quota == q.quota || merged.quota == incoming.quota);
    var u :| u in candidates && e.lastUsed == u.lastUsed;
    assert u in all && (merged.lastUsed == u.lastUsed || merged.lastUsed == incoming.lastUsed);
    forall first | Leads(first, all, now) ensures merged.credential == first.credential {
      if first in candidates {
        assert Leads(first, candidates, now);
      }
    }
  }

  lemma CandidatesOneMore(
      entries: map<string, Entry>, accounts: seq<Account>, a: Account, ids: Option<set<string>>,
      roster: Option<set<string>>, id: string)
    ensures Candidates(entries, accounts + [a], ids, roster, id)
         == Candidates(entries, accounts, ids, roster, id)
            + if a.id == id && Writes(a, ids, roster) then {RuntimeState(a)} else {}
  {
  }

  /** What the merge of one more account adds, seen from `id`. */
  lemma MergeOneMore(
      entries: map<string, Entry>, init: seq<Account>, a: Account, ids: Option<set<string>>,
      roster: Option<set<string>>, now: int, id: string)
    ensures var earlier := MergeAll(entries, init, ids, roster, now);
            var merged := MergeAll(entries, init + [a], ids, roster, now);
            if a.id == id && Writes(a, ids, roster) then
              && id in merged
              && merged[id] == MergeEntry(if id in earlier then Some(earlier[id]) else None, RuntimeState(a), now)
            else
              (id in merged <==> id in earlier) && (id in earlier ==> merged[id] == earlier[id])
  {
    assert (init + [a])[..|init|] == init;
  }

  lemma BestOfMerged(
      earlier: map<string, Entry>, candidates: set<Entry>, incoming: Entry, now: int, id: string)
    requires id in earlier <==> candidates != {}
    requires id in earlier ==> BestOf(earlier[id], candidates, now)
    ensures BestOf(
      MergeEntry(if id in earlier then Some(earlier[id]) else None, incoming, now), candidates + {incoming}, now)
  {
    if id in earlier {
      BestOfOneMore(earlier[id], candidates, incoming, now);
    } else {
      assert candidates + {incoming} == {incoming};
      BestOfOne(incoming, now);
    }
  }

  lemma {:induction false} MergeAllIsBest(
      entries: map<string, Entry>, accounts: seq<Account>, ids: Option<set<string>>, roster: Option<set<string>>,
      now: int, id: string)
    ensures var merged := MergeAll(entries, accounts, ids, roster, now);
            var candidates := Candidates(entries, accounts, ids, roster, id);
            (id in merged <==> candidates != {}) && (id in merged ==> BestOf(merged[id], candidates, now))
  {
    if accounts == [] {
      if id in entries {
        assert Candidates(entries, [], ids, roster, id) == {entries[id]};
        BestOfOne(entries[id], now);
      }
    } else {
      var init, a := accounts[..|accounts| - 1], accounts[|accounts| - 1];
      var earlier, candidates := MergeAll(entries, init, ids, roster, now), Candidates(entries, init, ids, roster, id);
      assert accounts == init + [a];
      MergeAllIsBest(entries, init, ids, roster, now, id);
      MergeOneMore(entries, init, a, ids, roster, now, id);
      CandidatesOneMore(entries, init, a, ids, roster, id);
      if a.id == id && Writes(a, ids, roster) {
        BestOfMerged(earlier, candidates, RuntimeState(a), now, id);
        assert RuntimeState(a) in candidates + {RuntimeState(a)};
      } else {
        assert candidates + {} == candidates;
      }
    }
  }

  /**
   * What a state save leaves for an account that it writes: its entry is there, with the credential of the
   * stored entry or of the caller's, whole, that of whichever stamp is trusted ahead; and its quota and last
   * use do not go back. An account asked for that the caller no longer holds is gone.
   */
  lemma StateSaveMerges(
      entries: map<string, Entry>, accounts: seq<Account>, ids: Option<set<string>>, roster: Option<set<string>>,
      now: int, i: nat)
    requires i < |accounts| && Writes(accounts[i], ids, roster)
    ensures var after := Pruned(MergeAll(entries, accounts, ids, roster, now), accounts, ids, roster);
            var id := accounts[i].id;
            id in after && BestOf(after[id], Candidates(entries, accounts, ids, roster, id), now)
    ensures var after := Pruned(MergeAll(entries, accounts, ids, roster, now), accounts, ids, roster);
            forall id :: ids.Some? && id in ids.value && (forall k :: 0 <= k < |accounts| ==> accounts[k].id != id) ==>
              id !in after
  {
    var id := accounts[i].id;
    MergeAllIsBest(entries, accounts, ids, roster, now, id);
    assert accounts[i] in accounts;
    assert RuntimeState(accounts[i]) in Candidates(entries, accounts, ids, roster, id);
    forall gone | ids.Some? && gone in ids.value && (forall k :: 0 <= k < |accounts| ==> accounts[k].id != gone)
      ensures gone !in AccountIds(accounts)
    {
    }
  }

  // ---------------------------------------------------------------------------
  // Convergence of whole files
  // ---------------------------------------------------------------------------

  /** One save of the whole `accounts` map by either writer. */
  datatype MapSave =
    | StateSave(accounts: seq<Account>, ids: Option<set<string>>, roster: Option<set<string>>, now: int)
    | FullSave(accounts: seq<Account>, now: int)

  function AfterMapSave(entries: map<string, Entry>, save: MapSave): map<string, Entry> {
    match save
    case StateSave(accounts, ids, roster, now) =>
      Pruned(MergeAll(entries, accounts, ids, roster, now), accounts, ids, roster)
    case FullSave(accounts, now) => FullSaved(entries, accounts, now)
  }

  function AfterMapSaves(entries: map<string, Entry>, saves: seq<MapSave>): map<string, Entry>
    decreases |saves|
  {
    if saves == [] then entries else AfterMapSaves(AfterMapSave(entries, saves[0]), saves[1..])
  }

  /** The save puts `a` in the balance for its id. */
  predicate Brings(save: MapSave, a: Account) {
    a in save.accounts && (save.StateSave? ==> Writes(a, save.ids, save.roster))
  }

  /** The save takes the account out of the file. */
  predicate Removes(save: MapSave, id: string) {
    && save.StateSave?
    && ((save.roster.Some? && id !in save.roster.value)
        || (save.ids.Some? && id in save.ids.value && id !in AccountIds(save.accounts)))
  }

  /** At every save's clock the stamp of `c` is trusted less than that of `newest`, or they are one. */
  predicate Behind(c: Credential, newest: Credential, saves: seq<MapSave>) {
    c == newest || forall i :: 0 <= i < |saves| ==> Stamp(c, saves[i].now) < Stamp(newest, saves[i].now)
  }

  /** What is stored for `id`, and what the saves bring for it, are OAuth credentials behind `newest`. */
  ghost predicate AllBehind(entries: map<string, Entry>, saves: seq<MapSave>, id: string, newest: Credential) {
    && (id in entries ==> Behind(entries[id].credential, newest, saves))
    && forall i, a :: 0 <= i < |saves| && Brings(saves[i], a) && a.id == id ==>
         a.OAuth? && Behind(a.entry.credential, newest, saves)
  }

  /** One of the saves' accounts carries the newest credential. */
  ghost predicate BringsNewest(save: MapSave, id: string, newest: Credential) {
    exists a :: Brings(save, a) && a.id == id && a.OAuth? && a.entry.credential == newest
  }

  /** A full save keeps, for an id whose accounts are OAuth ones, a credential that is nowhere behind. */
  lemma {:induction false} FullSaveChooses(
      latest: map<string, Account>, incoming: seq<Account>, now: int, id: string, newest: Credential)
    requires id in latest ==>
      latest[id].OAuth? && (var c := latest[id].entry.credential; c == newest || Stamp(c, now) < Stamp(newest, now))
    requires forall a :: a in incoming && a.id == id ==>
      a.OAuth? && (var c := a.entry.credential; c == newest || Stamp(c, now) < Stamp(newest, now))
    ensures var merged := MergedForSave(latest, incoming, now);
            && (id in merged <==> id in latest || exists a :: a in incoming && a.id == id)
            && (id in merged ==>
                  && merged[id].OAuth?
                  && (var c := merged[id].entry.credential;
                      && (c == newest || Stamp(c, now) < Stamp(newest, now))
                      && ((id in latest && c == latest[id].entry.credential)
                          || exists a :: a in incoming && a.id == id && a.OAuth? && c == a.entry.credential)
                      && ((id in latest && latest[id].entry.credential == newest)
                          || (exists a :: a in incoming && a.id == id && a.OAuth? && a.entry.credential == newest) ==>
                          c == newest)))
  {
    if incoming != [] {
      var init, last := incoming[..|incoming| - 1], incoming[|incoming| - 1];
      assert incoming == init + [last];
      FullSaveChooses(latest, init, now, id, newest);
      var earlier, merged := MergedForSave(latest, init, now), MergedForSave(latest, incoming, now);
      assert last in incoming && forall a :: a in init ==> a in incoming;
    }
  }

  /** What one save leaves for `id`: the newest credential once it is stored or brought, and nothing ahead of it. */
  lemma MapSaveKeepsNewest(entries: map<string, Entry>, saves: seq<MapSave>, id: string, newest: Credential)
    requires saves != [] && AllBehind(entries, saves, id, newest)
    ensures var after := AfterMapSave(entries, saves[0]);
            && AllBehind(after, saves[1..], id, newest)
            && (!Removes(saves[0], id)
                && ((id in entries && entries[id].credential == newest) || BringsNewest(saves[0], id, newest)) ==>
                id in after && after[id].credential == newest)
  {
    var save := saves[0];
    if save.StateSave? {
      StateMapSaveKeepsNewest(entries, saves, id, newest);
    } else {
      FullMapSaveKeepsNewest(entries, saves, id, newest);
    }
    LaterBehind(entries, AfterMapSave(entries, save), saves, id, newest);
  }

  lemma LaterBehind(
      entries: map<string, Entry>, after: map<string, Entry>, saves: seq<MapSave>, id: string, newest: Credential)
    requires saves != [] && AllBehind(entries, saves, id, newest)
    requires id in after ==> Behind(after[id].credential, newest, saves)
    ensures AllBehind(after, saves[1..], id, newest)
  {
    var later := saves[1..];
    forall c | Behind(c, newest, saves) ensures Behind(c, newest, later) {
      assert forall i :: 0 <= i < |later| ==> later[i] == saves[i + 1];
    }
    forall i, a | 0 <= i < |later| && Brings(later[i], a) && a.id == id
      ensures a.OAuth? && Behind(a.entry.credential, newest, later)
    {
      assert later[i] == saves[i + 1] && Brings(saves[i + 1], a);
    }
  }

  lemma StateMapSaveKeepsNewest(entries: map<string, Entry>, saves: seq<MapSave>, id: string, newest: Credential)
    requires saves != [] && AllBehind(entries, saves, id, newest) && saves[0].StateSave?
    ensures var after := AfterMapSave(entries, saves[0]);
            && (id in after ==> Behind(after[id].credential, newest, saves))
            && (!Removes(saves[0], id)
                && ((id in entries && entries[id].credential == newest) || BringsNewest(saves[0], id, newest)) ==>
                id in after && after[id].credential == newest)
  {
    var StateSave(accounts, ids, roster, now) := saves[0];
    MergeAllIsBest(entries, accounts, ids, roster, now, id);
    var candidates := Candidates(entries, accounts, ids, roster, id);
    forall c | c in candidates ensures Behind(c.credential, newest, saves) {
      if id !in entries || c != entries[id] {
        var a :| a in accounts && a.id == id && Writes(a, ids, roster) && c == RuntimeState(a);
        assert Brings(saves[0], a);
      }
    }
    if BringsNewest(saves[0], id, newest) {
      var a :| Brings(saves[0], a) && a.id == id && a.OAuth? && a.entry.credential == newest;
      assert RuntimeState(a) in candidates && Leads(RuntimeState(a), candidates, now);
    }
    if id in entries && entries[id].credential == newest {
      assert Leads(entries[id], candidates, now);
    }
  }

  lemma FullMapSaveKeepsNewest(entries: map<string, Entry>, saves: seq<MapSave>, id: string, newest: Credential)
    requires saves != [] && AllBehind(entries, saves, id, newest) && saves[0].FullSave?
    ensures var after := AfterMapSave(entries, saves[0]);
            && (id in after ==> Behind(after[id].credential, newest, saves))
            && ((id in entries && entries[id].credential == newest) || BringsNewest(saves[0], id, newest) ==>
                  id in after && after[id].credential == newest)
  {
    var FullSave(accounts, now) := saves[0];
    forall a | a in accounts && a.id == id
      ensures a.OAuth? && Behind(a.entry.credential, newest, saves)
    {
      assert Brings(saves[0], a);
    }
    FullSaveChooses(OnDisk(entries), accounts, now, id, newest);
  }

  lemma {:induction false} NewestStays(
      entries: map<string, Entry>, saves: seq<MapSave>, id: string, newest: Credential)
    requires AllBehind(entries, saves, id, newest) && id in entries && entries[id].credential == newest
    requires forall i :: 0 <= i < |saves| ==> !Removes(saves[i], id)
    ensures var final := AfterMapSaves(entries, saves); id in final && final[id].credential == newest
    decreases |saves|
  {
    if saves != [] {
      MapSaveKeepsNewest(entries, saves, id, newest);
      assert forall i :: 0 <= i < |saves[1..]| ==> saves[1..][i] == saves[i + 1];
      NewestStays(AfterMapSave(entries, saves[0]), saves[1..], id, newest);
    }
  }

  /**
   * Whole files converge: over any sequence of saves of any accounts by either writer, each at its own clock,
   * the file ends with the newest credential of an account, whole, once some save has brought it and none
   * from then on removes the account.
   */
  lemma {:induction false} MapSavesConverge(
      entries: map<string, Entry>, saves: seq<MapSave>, id: string, newest: Credential, k: nat)
    requires AllBehind(entries, saves, id, newest)
    requires k < |saves| && BringsNewest(saves[k], id, newest)
    requires forall i :: k <= i < |saves| ==> !Removes(saves[i], id)
    ensures var final := AfterMapSaves(entries, saves); id in final && final[id].credential == newest
    decreases k
  {
    MapSaveKeepsNewest(entries, saves, id, newest);
    assert forall i :: 0 <= i < |saves[1..]| ==> saves[1..][i] == saves[i + 1];
    if k == 0 {
      NewestStays(AfterMapSave(entries, saves[0]), saves[1..], id, newest);
    } else {
      MapSavesConverge(AfterMapSave(entries, saves[0]), saves[1..], id, newest, k - 1);
    }
  }

  /** A full save takes everything but the credential from the incoming account. */
  lemma FullSaveKeepsTheRest(onDisk: Account, incoming: Account, now: int)
    ensures var kept := KeepNewerCredential(onDisk, incoming, now);
            && kept.id == incoming.id
            && (incoming.OAuth? ==> kept == OAuth(incoming.id, incoming.entry.(credential := kept.entry.credential)))
            && (!incoming.OAuth? || !onDisk.OAuth? ==> kept == incoming)
  {
  }
}
