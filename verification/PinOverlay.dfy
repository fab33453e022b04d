/**
 * The pins this process has decided and may not have on disk yet (packages/opencode/src/sidebar-state.ts):
 * remembered in the order they were decided, applied over a snapshot of the file, and dropped once a
 * snapshot read after the write landed is in hand.
 */
module PinOverlay {
  import opened Prelude
  import opened StickyPins

  /** `id` grows with every entry: it tells entries apart and gives the order they were inserted in. */
  datatype Entry = Entry(pin: Pin, id: nat, persistedAt: Option<int>)

  type Overlay = map<string, Entry>

  datatype Snapshot = Snapshot(state: Sidebar, readAt: int)

  ghost predicate WellFormed(o: Overlay, nextId: nat) {
    && (forall s :: s in o ==> o[s].id < nextId)
    && forall s, t :: s in o && t in o && o[s].id == o[t].id ==> s == t
  }

  // ---------------------------------------------------------------------------
  // Remembering a pin
  // ---------------------------------------------------------------------------

  ghost predicate IsFirst(o: Overlay, among: set<string>, s: string)
    requires among <= o.Keys
  {
    s in among && forall t :: t in among ==> o[s].id <= o[t].id
  }

  lemma {:induction false} FirstExists(o: Overlay, among: set<string>)
    requires among <= o.Keys && among != {}
    ensures exists s :: IsFirst(o, among, s)
    decreases |among|
  {
    var s :| s in among;
    if among == {s} {
      assert IsFirst(o, among, s);
    } else {
      FirstExists(o, among - {s});
      var first :| IsFirst(o, among - {s}, first);
      assert IsFirst(o, among, if o[s].id <= o[first].id then s else first);
    }
  }

  ghost function First(o: Overlay): (s: string)
    requires o != map[]
    ensures IsFirst(o, o.Keys, s)
  {
    assert o.Keys != {};
    FirstExists(o, o.Keys);
    var s :| IsFirst(o, o.Keys, s);
    s
  }

  lemma RemovingOne(o: Overlay, s: string)
    requires s in o
    ensures |o - {s}| == |o| - 1
  {
    assert (o - {s}).Keys == o.Keys - {s};
    assert |o.Keys - {s}| == |o.Keys| - 1;
    assert |o - {s}| == |(o - {s}).Keys|;
  }

  /** The newest at most 256 entries. */
  ghost function Newest(o: Overlay): Overlay
    decreases |o|
  {
    if |o| <= MAX_ENTRIES then o
    else
      RemovingOne(o, First(o));
      Newest(o - {First(o)})
  }

  /** What is kept is younger than what is forgotten. */
  lemma {:induction false} NewestAreKept(o: Overlay, nextId: nat)
    requires WellFormed(o, nextId)
    ensures var kept := Newest(o);
            && WellFormed(kept, nextId)
            && kept.Keys <= o.Keys && (forall s :: s in kept ==> kept[s] == o[s])
            && |kept| == (if |o| <= MAX_ENTRIES then |o| else MAX_ENTRIES)
            && forall s, t :: s in o && s !in kept && t in kept ==> o[s].id < o[t].id
    decreases |o|
  {
    if |o| > MAX_ENTRIES {
      var first := First(o);
      var rest := o - {first};
      RemovingOne(o, first);
      NewestAreKept(rest, nextId);
      var kept := Newest(rest);
      forall s, t | s in o && s !in kept && t in kept ensures o[s].id < o[t].id {
        assert t in rest && o[first].id <= o[t].id;
        if s != first {
          assert rest[s].id < rest[t].id;
        }
      }
    }
  }

  ghost function Remembered(o: Overlay, s: string, pin: Pin, id: nat): Overlay {
    Newest(o[s := Entry(pin, id, None)])
  }

  lemma RememberedIsNewest(o: Overlay, s: string, pin: Pin, id: nat)
    requires WellFormed(o, id)
    ensures WellFormed(o[s := Entry(pin, id, None)], id + 1)
  {
  }

  /** The one just remembered is never the first to go. */
  lemma NewestHasIt(o: Overlay, s: string, pin: Pin, id: nat)
    requires WellFormed(o, id)
    ensures s in Remembered(o, s, pin, id)
  {
    var all := o[s := Entry(pin, id, None)];
    RememberedIsNewest(o, s, pin, id);
    NewestAreKept(all, id + 1);
    var r := Newest(all);
    assert s in all && |all| > 0;
    assert r != map[];
    var u :| u in r;
    assert all[u].id <= all[s].id;
  }

  /** The pin is remembered, at most 256 are, and others are forgotten only past 256, oldest first. */
  lemma RememberedHasIt(o: Overlay, s: string, pin: Pin, id: nat)
    requires WellFormed(o, id)
    ensures var r := Remembered(o, s, pin, id);
            && WellFormed(r, id + 1) && |r| <= MAX_ENTRIES
            && s in r && r[s] == Entry(pin, id, None)
            && (forall t :: t in r && t != s ==> t in o && r[t] == o[t])
            && (forall t, u :: t in o && t !in r && u in r ==> t != s && o[t].id < r[u].id)
            && (|o.Keys + {s}| <= MAX_ENTRIES ==> r == o[s := Entry(pin, id, None)])
  {
    var all := o[s := Entry(pin, id, None)];
    RememberedIsNewest(o, s, pin, id);
    NewestAreKept(all, id + 1);
    assert all.Keys == o.Keys + {s};
    assert |all| == |all.Keys|;
    NewestHasIt(o, s, pin, id);
  }

  // ---------------------------------------------------------------------------
  // Applying the overlay
  // ---------------------------------------------------------------------------

  /** The snapshot was read after the entry's write landed. */
  predicate Landed(e: Entry, readAt: int) {
    e.persistedAt.Some? && readAt > e.persistedAt.value
  }

  function Ahead(o: Overlay, readAt: int): Overlay {
    map s | s in o && !Landed(o[s], readAt) :: o[s]
  }

  function PinsOf(o: Overlay): Pins {
    map s | s in o :: o[s].pin
  }

  function Applied(snapshot: Snapshot, o: Overlay): Sidebar {
    var ahead := Ahead(o, snapshot.readAt);
    if ahead == map[] then snapshot.state
    else snapshot.state.(pins := Some(Held(snapshot.state.pins) + PinsOf(ahead)))
  }

  /** Pin by pin: the overlay's, unless the snapshot was read after it landed, and else the snapshot's. */
  lemma AppliedPin(snapshot: Snapshot, o: Overlay, s: string)
    ensures PinOf(Applied(snapshot, o).pins, s)
      == if s in o && !Landed(o[s], snapshot.readAt) then Some(o[s].pin) else PinOf(snapshot.state.pins, s)
  {
    var ahead := Ahead(o, snapshot.readAt);
    assert s in ahead <==> s in o && !Landed(o[s], snapshot.readAt);
  }

  class StickyPinOverlay {
    var entries: Overlay
    var nextId: nat

    ghost predicate Valid()
      reads this
    {
      WellFormed(entries, nextId) && |entries| <= MAX_ENTRIES
    }

    constructor ()
      ensures Valid() && entries == map[]
    {
      entries, nextId := map[], 0;
    }

    method RememberStickyPin(s: string, pin: Pin) returns (entry: Entry)
      requires Valid()
      modifies this
      ensures Valid()
      ensures entry == Entry(pin, old(nextId), None)
      ensures entries == Remembered(old(entries), s, pin, old(nextId)) && nextId == old(nextId) + 1
    {
      RememberedHasIt(entries, s, pin, nextId);
      RememberedIsNewest(entries, s, pin, nextId);
      entry := Entry(pin, nextId, None);
      entries := entries[s := entry];
      nextId := nextId + 1;
      ghost var all := entries;
      while |entries| > MAX_ENTRIES
        invariant nextId == old(nextId) + 1 && WellFormed(entries, nextId)
        invariant Newest(entries) == Newest(all)
        decreases |entries|
      {
        assert IsFirst(entries, entries.Keys, First(entries));
        var oldest :| oldest in entries && forall t :: t in entries ==> entries[oldest].id <= entries[t].id;
        assert oldest == First(entries);
        RemovingOne(entries, oldest);
        entries := entries - {oldest};
      }
      assert Newest(entries) == entries;
    }

    /** The write of one entry landed; a later entry of the same session is left alone. */
    method MarkPersisted(s: string, entry: Entry, now: int)
      requires Valid()
      modifies this`entries
      ensures Valid()
      ensures entries == if s in old(entries) && old(entries)[s].id == entry.id
                         then old(entries)[s := old(entries)[s].(persistedAt := Some(now))] else old(entries)
    {
      if s in entries && entries[s].id == entry.id {
        var marked := entries[s := entries[s].(persistedAt := Some(now))];
        assert marked.Keys == entries.Keys;
        assert |marked| == |marked.Keys| == |entries.Keys|;
        entries := marked;
      }
    }

    /** The snapshot's state with this process's own newer pins; entries the snapshot already shows go. */
    method ApplyStickyPinOverlay(snapshot: Snapshot) returns (state: Sidebar)
      requires Valid()
      modifies this`entries
      ensures Valid()
      ensures state == Applied(snapshot, old(entries))
      ensures entries == Ahead(old(entries), snapshot.readAt)
    {
      ghost var before := entries;
      var left := entries.Keys;
      var assignments := Held(snapshot.state.pins);
      AheadValid(before, nextId, snapshot.readAt);
      while left != {}
        invariant left <= before.Keys
        invariant Applying(before, left, entries, assignments, snapshot)
        decreases left
      {
        var s :| s in left;
        ghost var now, pins := entries, assignments;
        if Landed(entries[s], snapshot.readAt) {
          entries := entries - {s};
        } else {
          assignments := assignments[s := entries[s].pin];
        }
        ApplyingOneMore(before, left, now, pins, snapshot, s);
        left := left - {s};
      }
      Done(before, entries, assignments, snapshot);
      if entries == map[] {
        return snapshot.state;
      }
      return snapshot.state.(pins := Some(assignments));
    }
  }

  /** The loop's state when the entries in `left` are still to be looked at. */
  ghost predicate Applying(
      before: Overlay, left: set<string>, entries: Overlay, assignments: Pins, snapshot: Snapshot)
  {
    && (forall s :: s in entries <==> s in before && (s in left || !Landed(before[s], snapshot.readAt)))
    && (forall s :: s in entries ==> entries[s] == before[s])
    && (forall s :: s in assignments <==> s in Held(snapshot.state.pins) || (s in entries && s !in left))
    && forall s :: s in assignments ==>
         assignments[s] == if s in entries && s !in left then before[s].pin else Held(snapshot.state.pins)[s]
  }

  lemma ApplyingOneMore(
      before: Overlay, left: set<string>, entries: Overlay, assignments: Pins, snapshot: Snapshot, s: string)
    requires left <= before.Keys && s in left && Applying(before, left, entries, assignments, snapshot)
    ensures var drop := Landed(before[s], snapshot.readAt);
            Applying(before, left - {s}, if drop then entries - {s} else entries,
                     if drop then assignments else assignments[s := before[s].pin], snapshot)
  {
  }

  lemma Done(before: Overlay, entries: Overlay, assignments: Pins, snapshot: Snapshot)
    requires Applying(before, {}, entries, assignments, snapshot)
    ensures entries == Ahead(before, snapshot.readAt)
    ensures assignments == Held(snapshot.state.pins) + PinsOf(entries)
  {
  }

  lemma AheadValid(o: Overlay, nextId: nat, readAt: int)
    requires WellFormed(o, nextId)
    ensures WellFormed(Ahead(o, readAt), nextId) && |Ahead(o, readAt)| <= |o|
  {
    var ahead := Ahead(o, readAt);
    Smaller(ahead.Keys, o.Keys);
    assert |ahead| == |ahead.Keys| && |o| == |o.Keys|;
  }
}
