/**
 * The composition ledger: compositions are recorded or committed with a snapshot of their
 * owners' revisions, a gate compares the latest accepted snapshot of a slot with the current
 * revisions, and a cleanup drops what the gate no longer reads.
 */
module CompositionLedger {
  import opened Common

  /** One run's slot, with its provenance: the compositions one gate looks at. */
  datatype Slot = Slot(runId: string, kind: string, provenance: string)

  /** An owner as the composer or the caller describes it; `None` is an absent property. */
  datatype Owner = Owner(ownerType: Option<string>, ownerId: Option<string>, provenance: Option<string>,
                         provenanceKey: Option<string>, revision: Option<int>)

  /** A row of the owner-state table. */
  datatype Row = Row(ownerType: string, ownerId: string, provenanceKey: string, revision: Option<int>)

  /** A composition event with its owner rows; `accepted` is the acceptance time, `None` while pending. */
  datatype Event = Event(id: string, slot: Slot, created: int, accepted: Option<int>, owners: seq<Row>)

  const DAY := 86400

  // ---------------------------------------------------------------- owners

  function Shown(text: Option<string>): string {
    if text.Some? then text.value else "undefined"
  }

  function ComparedProvenance(o: Owner): string {
    if o.provenanceKey.Some? then o.provenanceKey.value else if o.provenance.Some? then o.provenance.value else ""
  }

  function StoredProvenance(o: Owner): string {
    if o.provenance.Some? then o.provenance.value else if o.provenanceKey.Some? then o.provenanceKey.value else ""
  }

  function Key(ownerType: string, ownerId: string, provenance: string): string {
    ownerType + ":" + ownerId + ":" + provenance
  }

  function OwnerKey(o: Owner): string {
    Key(Shown(o.ownerType), Shown(o.ownerId), ComparedProvenance(o))
  }

  function RowKey(r: Row): string {
    Key(r.ownerType, r.ownerId, r.provenanceKey)
  }

  /** The columns are NOT NULL, so an owner without a type or an id has no row. */
  predicate Storable(o: Owner) {
    o.ownerType.Some? && o.ownerId.Some?
  }

  function RowOf(o: Owner): Row
    requires Storable(o)
  {
    Row(o.ownerType.value, o.ownerId.value, StoredProvenance(o), o.revision)
  }

  /** Equal primary keys within one composition. */
  predicate SameOwner(a: Row, b: Row) {
    a.ownerType == b.ownerType && a.ownerId == b.ownerId && a.provenanceKey == b.provenanceKey
  }

  predicate Insertable(owners: seq<Owner>) {
    && (forall i :: 0 <= i < |owners| ==> Storable(owners[i]))
    && (forall i, j :: 0 <= i < j < |owners| ==> !SameOwner(RowOf(owners[i]), RowOf(owners[j])))
  }

  function RowsOf(owners: seq<Owner>): seq<Row>
    requires forall i :: 0 <= i < |owners| ==> Storable(owners[i])
  {
    seq(|owners|, i requires 0 <= i < |owners| && Storable(owners[i]) => RowOf(owners[i]))
  }

  // ---------------------------------------------------------------- the gate

  datatype Verdict = NoPrior | NewOwner | RevisionIncreased | RevisionGained | RemovedOwner | Unchanged

  /** The revisions by owner key, for the rows as the query returns them; a later row replaces an earlier one. */
  function Snapshot(rows: seq<Row>): map<string, Option<int>> {
    if rows == [] then map[]
    else Snapshot(rows[..|rows| - 1])[RowKey(rows[|rows| - 1]) := rows[|rows| - 1].revision]
  }

  predicate Increased(now: Option<int>, prior: Option<int>) {
    now.Some? && prior.Some? && now.value > prior.value
  }

  predicate Gained(now: Option<int>, prior: Option<int>) {
    now.Some? && prior.None?
  }

  predicate Listed(key: string, current: seq<Owner>) {
    exists i :: 0 <= i < |current| && OwnerKey(current[i]) == key
  }

  predicate Steady(o: Owner, prior: map<string, Option<int>>) {
    var key := OwnerKey(o);
    key in prior && !Increased(o.revision, prior[key]) && !Gained(o.revision, prior[key])
  }

  /** No owner appeared, disappeared, or gained or increased its revision. */
  predicate Settled(prior: map<string, Option<int>>, current: seq<Owner>) {
    && (forall i :: 0 <= i < |current| ==> Steady(current[i], prior))
    && (forall key :: key in prior ==> Listed(key, current))
  }

  /** The stored rows in some order: the query that reads them back names none. */
  ghost predicate Reading(rows: seq<Row>, stored: seq<Row>) {
    multiset(rows) == multiset(stored)
  }

  /** The gate is settled in whatever order the rows are read back. */
  ghost predicate Converges(stored: seq<Row>, owners: seq<Owner>) {
    forall rows :: Reading(rows, stored) ==> Settled(Snapshot(rows), owners)
  }

  /** What each answer of the gate says of the owners. */
  predicate Justified(v: Verdict, prior: map<string, Option<int>>, current: seq<Owner>) {
    match v
    case NoPrior => true
    case NewOwner => exists i :: 0 <= i < |current| && OwnerKey(current[i]) !in prior
    case RevisionIncreased =>
      exists i :: 0 <= i < |current| && OwnerKey(current[i]) in prior
        && Increased(current[i].revision, prior[OwnerKey(current[i])])
    case RevisionGained =>
      exists i :: 0 <= i < |current| && OwnerKey(current[i]) in prior
        && Gained(current[i].revision, prior[OwnerKey(current[i])])
    case RemovedOwner => exists key :: key in prior && !Listed(key, current)
    case Unchanged => Settled(prior, current)
  }

  // ---------------------------------------------------------------- the latest composition

  predicate Candidate(e: Event, slot: Slot) {
    e.accepted.Some? && e.slot == slot
  }

  /** Ordered by acceptance time, then by creation time. */
  predicate NotAfter(a: Event, b: Event)
    requires a.accepted.Some? && b.accepted.Some?
  {
    a.accepted.value < b.accepted.value || (a.accepted.value == b.accepted.value && a.created <= b.created)
  }

  /** The position of the latest accepted composition of a slot; row order breaks ties. */
  function Latest(events: seq<Event>, slot: Slot): (r: Option<nat>)
    ensures r.Some? ==> r.value < |events| && Candidate(events[r.value], slot)
  {
    if events == [] then None
    else
      var n := |events| - 1;
      var before := Latest(events[..n], slot);
      if Candidate(events[n], slot) && (before.None? || NotAfter(events[before.value], events[n])) then Some(n)
      else before
  }

  /** Nothing of the slot comes after the latest, and what ties with it was inserted earlier. */
  lemma {:induction false} LatestIsLatest(events: seq<Event>, slot: Slot, i: nat)
    requires i < |events| && Candidate(events[i], slot)
    ensures Latest(events, slot).Some?
    ensures var m := Latest(events, slot).value;
      NotAfter(events[i], events[m]) && (NotAfter(events[m], events[i]) ==> i <= m)
  {
    var n := |events| - 1;
    if i < n {
      LatestIsLatest(events[..n], slot, i);
    }
  }

  /** Nothing of the slot comes after an event, and what ties with it was inserted earlier. */
  predicate Leads(events: seq<Event>, slot: Slot, m: nat) {
    && m < |events| && Candidate(events[m], slot)
    && forall i :: 0 <= i < |events| && Candidate(events[i], slot) ==>
         NotAfter(events[i], events[m]) && (NotAfter(events[m], events[i]) ==> i <= m)
  }

  lemma LatestLeads(events: seq<Event>, slot: Slot, m: nat)
    ensures Latest(events, slot) == Some(m) <==> Leads(events, slot, m)
  {
    if Latest(events, slot) == Some(m) {
      forall i | 0 <= i < |events| && Candidate(events[i], slot)
        ensures NotAfter(events[i], events[m]) && (NotAfter(events[m], events[i]) ==> i <= m)
      {
        LatestIsLatest(events, slot, i);
      }
    }
    if Leads(events, slot, m) {
      LatestIsLatest(events, slot, m);
    }
  }

  function LatestOwners(events: seq<Event>, slot: Slot): Option<seq<Row>> {
    var m := Latest(events, slot);
    if m.Some? then Some(events[m.value].owners) else None
  }

  // ---------------------------------------------------------------- retention

  /** What a cleanup of a slot keeps: everything but its older accepted rows and stale pending ones. */
  predicate Keeps(e: Event, slot: Slot, latest: Option<string>, now: int) {
    && !(Candidate(e, slot) && Some(e.id) != latest)
    && !(e.accepted.None? && e.created < now - DAY)
  }

  function Filter(events: seq<Event>, slot: Slot, latest: Option<string>, now: int): seq<Event> {
    if events == [] then []
    else
      var n := |events| - 1;
      var before := Filter(events[..n], slot, latest, now);
      if Keeps(events[n], slot, latest, now) then before + [events[n]] else before
  }

  function LatestId(events: seq<Event>, slot: Slot): Option<string> {
    var m := Latest(events, slot);
    if m.Some? then Some(events[m.value].id) else None
  }

  function Cleaned(events: seq<Event>, slot: Slot, now: int): seq<Event> {
    Filter(events, slot, LatestId(events, slot), now)
  }

  predicate UniqueIds(events: seq<Event>) {
    forall i, j :: 0 <= i < j < |events| ==> events[i].id != events[j].id
  }

  /** The event the gate of a slot reads. */
  function Read(events: seq<Event>, slot: Slot): Option<Event> {
    var m := Latest(events, slot);
    if m.Some? then Some(events[m.value]) else None
  }

  function Better(before: Option<Event>, e: Event, slot: Slot): Option<Event>
    requires before.Some? ==> Candidate(before.value, slot)
  {
    if Candidate(e, slot) && (before.None? || NotAfter(before.value, e)) then Some(e) else before
  }

  lemma ReadGrows(events: seq<Event>, e: Event, slot: Slot)
    ensures Read(events, slot).Some? ==> Candidate(Read(events, slot).value, slot)
    ensures Read(events + [e], slot) == Better(Read(events, slot), e, slot)
  {
    assert (events + [e])[..|events|] == events;
  }

  /** For another slot a filter drops nothing that its gate could read. */
  lemma {:induction false} FilterKeepsOtherSlots(events: seq<Event>, slot: Slot, latest: Option<string>, now: int,
                                                 other: Slot)
    requires other != slot
    ensures Read(Filter(events, slot, latest, now), other) == Read(events, other)
  {
    if events != [] {
      var n := |events| - 1;
      var e := events[n];
      FilterKeepsOtherSlots(events[..n], slot, latest, now, other);
      assert events == events[..n] + [e];
      ReadGrows(events[..n], e, other);
      ReadGrows(Filter(events[..n], slot, latest, now), e, other);
    }
  }

  /** For its own slot a filter keeps the one event with the given id, if that is accepted. */
  lemma {:induction false} FilterKeepsTheLatest(events: seq<Event>, slot: Slot, m: nat, now: int)
    requires m < |events| && UniqueIds(events) && Candidate(events[m], slot)
    ensures Read(Filter(events, slot, Some(events[m].id), now), slot) == Some(events[m])
  {
    var n := |events| - 1;
    var id := Some(events[m].id);
    if m == n {
      FilterDropsTheRest(events[..n], slot, id, now);
      ReadGrows(Filter(events[..n], slot, id, now), events[n], slot);
    } else {
      FilterKeepsTheLatest(events[..n], slot, m, now);
      ReadGrows(Filter(events[..n], slot, id, now), events[n], slot);
    }
  }

  /** What a cleanup leaves is what it keeps, in the same order. */
  lemma {:induction false} FilterIsExact(events: seq<Event>, slot: Slot, latest: Option<string>, now: int, e: Event)
    ensures e in Filter(events, slot, latest, now) <==> e in events && Keeps(e, slot, latest, now)
    ensures |Filter(events, slot, latest, now)| <= |events|
  {
    if events != [] {
      var n := |events| - 1;
      FilterIsExact(events[..n], slot, latest, now, e);
      assert events == events[..n] + [events[n]];
    }
  }

  lemma FilterDropsTheRest(events: seq<Event>, slot: Slot, id: Option<string>, now: int)
    requires forall i :: 0 <= i < |events| ==> Some(events[i].id) != id
    ensures Read(Filter(events, slot, id, now), slot) == None
  {
    var m := Latest(Filter(events, slot, id, now), slot);
    if m.Some? {
      FilterIsExact(events, slot, id, now, Filter(events, slot, id, now)[m.value]);
    }
  }

  lemma NothingToDrop(events: seq<Event>, slot: Slot, now: int)
    requires forall i :: 0 <= i < |events| ==> !Candidate(events[i], slot)
    ensures Read(Filter(events, slot, None, now), slot) == None && Read(events, slot) == None
  {
    var m := Latest(Filter(events, slot, None, now), slot);
    if m.Some? {
      FilterIsExact(events, slot, None, now, Filter(events, slot, None, now)[m.value]);
    }
  }

  /** Cleaning one slot changes the answer of no gate: neither its own nor any other slot's. */
  lemma CleanupIsInvisible(events: seq<Event>, slot: Slot, now: int, other: Slot)
    requires UniqueIds(events)
    ensures Read(Cleaned(events, slot, now), other) == Read(events, other)
    ensures LatestOwners(Cleaned(events, slot, now), other) == LatestOwners(events, other)
  {
    var m := Latest(events, slot);
    if other != slot {
      FilterKeepsOtherSlots(events, slot, LatestId(events, slot), now, other);
    } else if m.Some? {
      FilterKeepsTheLatest(events, slot, m.value, now);
    } else {
      forall i | 0 <= i < |events| ensures !Candidate(events[i], slot) {
        if Candidate(events[i], slot) { LatestIsLatest(events, slot, i); }
      }
      NothingToDrop(events, slot, now);
    }
  }

  /**
   * After a cleanup at most one accepted event of the slot is left, no pending event is older
   * than a day, and every other event is still there.
   */
  lemma CleanupLeavesOne(events: seq<Event>, slot: Slot, now: int, a: Event, b: Event)
    requires UniqueIds(events)
    ensures var left := Cleaned(events, slot, now);
      && (a in left && b in left && Candidate(a, slot) && Candidate(b, slot) ==> a == b)
      && (a in left && a.accepted.None? ==> a.created >= now - 86400)
      && (a in events && !Candidate(a, slot) && (a.accepted.Some? || a.created >= now - 86400) ==> a in left)
  {
    FilterIsExact(events, slot, LatestId(events, slot), now, a);
    FilterIsExact(events, slot, LatestId(events, slot), now, b);
  }

  // ---------------------------------------------------------------- convergence

  /** No row lies in the future, so a row written now is the latest. */
  predicate NothingAfter(events: seq<Event>, now: int) {
    forall i :: 0 <= i < |events| ==> events[i].created <= now && (events[i].accepted.Some? ==> events[i].accepted.value <= now)
  }

  /** The two precedences of an owner's provenance agree. */
  predicate Plain(o: Owner) {
    StoredProvenance(o) == ComparedProvenance(o)
  }

  /** A name without the separator. */
  predicate Separable(o: Owner) {
    Storable(o) && ':' !in o.ownerType.value && ':' !in o.ownerId.value
  }

  lemma FirstColon(s: string, i: nat, j: nat)
    requires i < |s| && j < |s| && s[i] == ':' && s[j] == ':'
    requires ':' !in s[..i] && ':' !in s[..j]
    ensures i == j
  {
  }

  lemma ColonSplits(a: string, x: string, b: string, y: string)
    requires a + (":" + x) == b + (":" + y) && ':' !in a && ':' !in b
    ensures a == b && x == y
  {
    var s := a + (":" + x);
    assert s[..|a|] == a && s[|a| + 1..] == x && s[..|b|] == b && s[|b| + 1..] == y;
    assert s[|a|] == ':' && s[|b|] == ':';
    FirstColon(s, |a|, |b|);
  }

  /** Without separators in type and id, equal keys mean the same owner. */
  lemma KeyIsInjective(a: Row, b: Row)
    requires ':' !in a.ownerType && ':' !in a.ownerId && ':' !in b.ownerType && ':' !in b.ownerId
    requires RowKey(a) == RowKey(b)
    ensures SameOwner(a, b)
  {
    assert RowKey(a) == a.ownerType + (":" + (a.ownerId + (":" + a.provenanceKey)));
    assert RowKey(b) == b.ownerType + (":" + (b.ownerId + (":" + b.provenanceKey)));
    ColonSplits(a.ownerType, a.ownerId + (":" + a.provenanceKey), b.ownerType, b.ownerId + (":" + b.provenanceKey));
    ColonSplits(a.ownerId, a.provenanceKey, b.ownerId, b.provenanceKey);
  }

  predicate DistinctKeys(rows: seq<Row>) {
    forall i, j :: 0 <= i < j < |rows| ==> RowKey(rows[i]) != RowKey(rows[j])
  }

  lemma {:induction false} SnapshotIsRows(rows: seq<Row>)
    requires DistinctKeys(rows)
    ensures forall i :: 0 <= i < |rows| ==>
      RowKey(rows[i]) in Snapshot(rows) && Snapshot(rows)[RowKey(rows[i])] == rows[i].revision
  {
    if rows != [] {
      SnapshotIsRows(rows[..|rows| - 1]);
    }
  }

  lemma {:induction false} SnapshotKeys(rows: seq<Row>)
    ensures forall key :: key in Snapshot(rows) <==> exists i :: 0 <= i < |rows| && RowKey(rows[i]) == key
  {
    if rows != [] {
      var n := |rows| - 1;
      SnapshotKeys(rows[..n]);
      assert forall i :: 0 <= i < n ==> rows[..n][i] == rows[i];
    }
  }

  lemma SameRows(rows: seq<Row>, stored: seq<Row>, r: Row)
    requires Reading(rows, stored)
    ensures r in rows <==> r in stored
  {
    assert r in multiset(rows) <==> r in multiset(stored);
  }

  lemma {:induction false} SnapshotHolds(rows: seq<Row>, key: string) returns (k: nat)
    requires key in Snapshot(rows)
    ensures k < |rows| && RowKey(rows[k]) == key && Snapshot(rows)[key] == rows[k].revision
  {
    k := |rows| - 1;
    if RowKey(rows[k]) != key {
      k := SnapshotHolds(rows[..k], key);
    }
  }

  lemma ReadingKeys(rows: seq<Row>, stored: seq<Row>)
    requires Reading(rows, stored)
    ensures Snapshot(rows).Keys == Snapshot(stored).Keys
  {
    SnapshotKeys(rows);
    SnapshotKeys(stored);
    forall key ensures key in Snapshot(rows) <==> key in Snapshot(stored) {
      if key in Snapshot(rows) {
        var k := SnapshotHolds(rows, key);
        SameRows(rows, stored, rows[k]);
      }
      if key in Snapshot(stored) {
        var k := SnapshotHolds(stored, key);
        SameRows(rows, stored, stored[k]);
      }
    }
  }

  /** With distinct keys the order of reading does not matter. */
  lemma OneSnapshot(rows: seq<Row>, stored: seq<Row>)
    requires Reading(rows, stored) && DistinctKeys(stored)
    ensures Snapshot(rows) == Snapshot(stored)
  {
    SnapshotIsRows(stored);
    ReadingKeys(rows, stored);
    forall key | key in Snapshot(rows) ensures Snapshot(rows)[key] == Snapshot(stored)[key] {
      var k := SnapshotHolds(rows, key);
      SameRows(rows, stored, rows[k]);
      var m :| 0 <= m < |stored| && stored[m] == rows[k];
    }
  }

  lemma DistinctKeysConverge(stored: seq<Row>, owners: seq<Owner>)
    requires DistinctKeys(stored) && Settled(Snapshot(stored), owners)
    ensures Converges(stored, owners)
  {
    forall rows | Reading(rows, stored) ensures Settled(Snapshot(rows), owners) {
      OneSnapshot(rows, stored);
    }
  }

  predicate AllPlain(owners: seq<Owner>) {
    forall i :: 0 <= i < |owners| ==> Plain(owners[i])
  }

  predicate AllSeparable(owners: seq<Owner>) {
    forall i :: 0 <= i < |owners| ==> Storable(owners[i]) && Separable(owners[i])
  }

  predicate Converging(owners: seq<Owner>) {
    AllPlain(owners) && AllSeparable(owners)
  }

  lemma SeparableKeys(owners: seq<Owner>)
    requires Insertable(owners) && AllSeparable(owners)
    ensures DistinctKeys(RowsOf(owners))
  {
    var rows := RowsOf(owners);
    forall i, j | 0 <= i < j < |rows| ensures RowKey(rows[i]) != RowKey(rows[j]) {
      assert !SameOwner(RowOf(owners[i]), RowOf(owners[j])) && Separable(owners[i]) && Separable(owners[j]);
      if RowKey(rows[i]) == RowKey(rows[j]) {
        KeyIsInjective(rows[i], rows[j]);
      }
    }
  }

  lemma PlainKeys(owners: seq<Owner>)
    requires Insertable(owners) && AllPlain(owners)
    ensures forall i :: 0 <= i < |owners| ==> RowKey(RowsOf(owners)[i]) == OwnerKey(owners[i])
  {
    forall i | 0 <= i < |owners| ensures RowKey(RowsOf(owners)[i]) == OwnerKey(owners[i]) {
      assert Plain(owners[i]);
    }
  }

  lemma SettledByOwnRows(owners: seq<Owner>, rows: seq<Row>)
    requires |rows| == |owners| && DistinctKeys(rows)
    requires forall i :: 0 <= i < |rows| ==> RowKey(rows[i]) == OwnerKey(owners[i]) && rows[i].revision == owners[i].revision
    ensures Settled(Snapshot(rows), owners)
  {
    SnapshotIsRows(rows);
    SnapshotKeys(rows);
    forall key | key in Snapshot(rows) ensures Listed(key, owners) {
      var i :| 0 <= i < |rows| && RowKey(rows[i]) == key;
      assert OwnerKey(owners[i]) == key;
    }
    forall i | 0 <= i < |owners| ensures Steady(owners[i], Snapshot(rows)) {
      assert RowKey(rows[i]) in Snapshot(rows);
    }
  }

  lemma ConvergingSettles(owners: seq<Owner>)
    requires Insertable(owners) && Converging(owners)
    ensures DistinctKeys(RowsOf(owners)) && Settled(Snapshot(RowsOf(owners)), owners)
    ensures Converges(RowsOf(owners), owners)
  {
    SeparableKeys(owners);
    PlainKeys(owners);
    SettledByOwnRows(owners, RowsOf(owners));
    DistinctKeysConverge(RowsOf(owners), owners);
  }

  /**
   * Once a composition is committed with the current owners and revisions, the gate answers
   * unchanged for them: composing converges.
   */
  lemma CommitConverges(events: seq<Event>, e: Event, now: int, owners: seq<Owner>)
    requires NothingAfter(events, now) && e.created == now && e.accepted == Some(now)
    requires Insertable(owners) && e.owners == RowsOf(owners) && Converging(owners)
    ensures Read(events + [e], e.slot) == Some(e) && Converges(e.owners, owners)
  {
    ConvergingSettles(owners);
  }

  /**
   * A lone owner converges exactly when its two provenances agree: otherwise it is stored under
   * one and looked up under the other, and the gate asks for a composition every time.
   */
  lemma LoneOwnerConverges(o: Owner, rows: seq<Row>)
    requires Storable(o) && Reading(rows, [RowOf(o)])
    ensures Insertable([o]) && RowsOf([o]) == [RowOf(o)]
    ensures Settled(Snapshot(rows), [o]) <==> Plain(o)
  {
    var row := RowOf(o);
    SnapshotKeys([row]);
    SnapshotIsRows([row]);
    OneSnapshot(rows, [row]);
    if OwnerKey(o) == RowKey(row) {
      KeyFixesProvenance(row.ownerType, row.ownerId, ComparedProvenance(o), StoredProvenance(o));
    }
    assert [row][0] == row;
    if Plain(o) {
      SettledByOwnRows([o], [row]);
    } else {
      FirstIsSteady(o, Snapshot([row]));
    }
  }

  /** No two owners have the same type and id. */
  predicate Distinct(owners: seq<Owner>) {
    forall i, j :: 0 <= i < j < |owners| ==>
      owners[i].ownerType != owners[j].ownerType || owners[i].ownerId != owners[j].ownerId
  }

  lemma StoredUnderItsKey(owners: seq<Owner>, i: nat)
    requires Insertable(owners) && AllSeparable(owners) && Distinct(owners)
    requires i < |owners| && OwnerKey(owners[i]) in Snapshot(RowsOf(owners))
    ensures Plain(owners[i])
  {
    var rows := RowsOf(owners);
    SnapshotKeys(rows);
    var j :| 0 <= j < |rows| && RowKey(rows[j]) == OwnerKey(owners[i]);
    assert Separable(owners[i]) && Separable(owners[j]);
    KeyIsInjective(rows[j], Row(owners[i].ownerType.value, owners[i].ownerId.value, ComparedProvenance(owners[i]), None));
    assert i == j;
  }

  /**
   * A list of separable owners, no two of the same type and id, converges exactly when the two
   * provenances of every owner agree, in whatever order its rows are read.
   */
  lemma ConvergesExactlyWhenPlain(owners: seq<Owner>, rows: seq<Row>)
    requires AllSeparable(owners) && Distinct(owners) && Reading(rows, RowsOf(owners))
    ensures Insertable(owners)
    ensures Settled(Snapshot(rows), owners) <==> AllPlain(owners)
  {
    SeparableKeys(owners);
    OneSnapshot(rows, RowsOf(owners));
    if AllPlain(owners) {
      ConvergingSettles(owners);
    }
    if Settled(Snapshot(rows), owners) {
      forall i | 0 <= i < |owners| ensures Plain(owners[i]) {
        assert Steady(owners[i], Snapshot(rows));
        StoredUnderItsKey(owners, i);
      }
    }
  }

  // ---------------------------------------------------------------- owners that share a key

  /** The row that decides its key is the last one read. */
  predicate LastOfKey(rows: seq<Row>, j: nat) {
    j < |rows| && forall k :: j < k < |rows| ==> RowKey(rows[k]) != RowKey(rows[j])
  }

  /** The gate would compose again for an owner that finds this revision under its key. */
  predicate Moved(o: Owner, revision: Option<int>) {
    Increased(o.revision, revision) || Gained(o.revision, revision)
  }

  lemma LastExists(rows: seq<Row>, i: nat) returns (j: nat)
    requires i < |rows|
    ensures LastOfKey(rows, j) && RowKey(rows[j]) == RowKey(rows[i])
    decreases |rows| - i
  {
    j := i;
    if k :| i < k < |rows| && RowKey(rows[k]) == RowKey(rows[i]) {
      j := LastExists(rows, k);
    }
  }

  lemma {:induction false} SnapshotOfLast(rows: seq<Row>, j: nat)
    requires LastOfKey(rows, j)
    ensures RowKey(rows[j]) in Snapshot(rows) && Snapshot(rows)[RowKey(rows[j])] == rows[j].revision
  {
    if j < |rows| - 1 {
      SnapshotOfLast(rows[..|rows| - 1], j);
    }
  }

  /** An owner without a revision is covered by anything, one with a revision by no smaller one and by no stored null. */
  predicate Covers(stored: Option<int>, now: Option<int>) {
    now == None || (stored.Some? && now.value <= stored.value)
  }

  /** The last row of an owner's key covers it. */
  predicate Covered(o: Owner, rows: seq<Row>) {
    exists j :: 0 <= j < |rows| && LastOfKey(rows, j) && RowKey(rows[j]) == OwnerKey(o) && Covers(rows[j].revision, o.revision)
  }

  predicate HasOwner(r: Row, owners: seq<Owner>) {
    exists o :: o in owners && OwnerKey(o) == RowKey(r)
  }

  lemma SteadyIsCovered(o: Owner, rows: seq<Row>)
    ensures Steady(o, Snapshot(rows)) <==> Covered(o, rows)
  {
    if OwnerKey(o) in Snapshot(rows) {
      var k := SnapshotHolds(rows, OwnerKey(o));
      var j := LastExists(rows, k);
      SnapshotOfLast(rows, j);
      assert forall i: nat :: LastOfKey(rows, i) && RowKey(rows[i]) == RowKey(rows[j]) ==> i == j;
    } else {
      SnapshotKeys(rows);
    }
  }

  /**
   * The gate's whole condition on the rows as they are read: the last row of each owner's key
   * covers it, and each row is some owner's.
   */
  lemma SettledExactly(rows: seq<Row>, owners: seq<Owner>)
    ensures Settled(Snapshot(rows), owners) <==>
      (forall o :: o in owners ==> Covered(o, rows)) && (forall r :: r in rows ==> HasOwner(r, owners))
  {
    RowsAreListed(rows, owners);
    forall i | 0 <= i < |owners| ensures Steady(owners[i], Snapshot(rows)) <==> Covered(owners[i], rows) {
      SteadyIsCovered(owners[i], rows);
    }
    assert (forall o :: o in owners ==> Covered(o, rows)) <==> forall i :: 0 <= i < |owners| ==> Covered(owners[i], rows);
  }

  lemma RowsAreListed(rows: seq<Row>, owners: seq<Owner>)
    ensures (forall key :: key in Snapshot(rows) ==> Listed(key, owners)) <==> forall r :: r in rows ==> HasOwner(r, owners)
  {
    SnapshotKeys(rows);
    forall r | r in rows ensures RowKey(r) in Snapshot(rows) && (HasOwner(r, owners) <==> Listed(RowKey(r), owners)) {}
    forall key | key in Snapshot(rows) ensures exists r :: r in rows && RowKey(r) == key {
      var i :| 0 <= i < |rows| && RowKey(rows[i]) == key;
      assert rows[i] in rows;
    }
  }

  /** An owner committed without a revision asks for a composition once it has one, and for none before. */
  lemma GainedRevisionComposes(o: Owner, now: Option<int>)
    requires Storable(o) && Plain(o) && o.revision == None
    ensures Settled(Snapshot(RowsOf([o])), [o.(revision := now)]) <==> now == None
  {
    var rows := RowsOf([o]);
    assert rows == [RowOf(o)];
    SettledExactly(rows, [o.(revision := now)]);
    assert rows[0] in rows && LastOfKey(rows, 0);
    if now == None {
      assert OwnerKey(o.(revision := now)) == OwnerKey(o) == RowKey(rows[0]);
    }
  }

  /** An owner's row has its provenance before its provenance key, and the key it is compared by the other way round. */
  lemma ProvenancePrecedence(a: string, b: string)
    ensures var o := Owner(Some("t"), Some("i"), Some(a), Some(b), None);
      RowOf(o) == Row("t", "i", a, None) && OwnerKey(o) == "t:i:" + b
    ensures var o := Owner(Some("t"), Some("i"), Some(a), None, None);
      RowOf(o) == Row("t", "i", a, None) && OwnerKey(o) == RowKey(RowOf(o)) == "t:i:" + a
    ensures var o := Owner(Some("t"), Some("i"), None, Some(b), None);
      RowOf(o) == Row("t", "i", b, None) && OwnerKey(o) == "t:i:" + b
    ensures RowOf(Owner(Some("t"), Some("i"), None, None, None)).provenanceKey == ""
    ensures OwnerKey(Owner(None, None, None, None, None)) == "undefined:undefined:"
  {
    assert "t" + ":" + "i" + ":" == "t:i:";
    assert "undefined" + ":" + "undefined" + ":" == "undefined:undefined:";
  }

  lemma OwnKeysAreListed(owners: seq<Owner>, rows: seq<Row>)
    requires Insertable(owners) && AllPlain(owners) && Reading(rows, RowsOf(owners))
    ensures forall key :: key in Snapshot(rows) ==> Listed(key, owners)
  {
    PlainKeys(owners);
    SnapshotKeys(RowsOf(owners));
    ReadingKeys(rows, RowsOf(owners));
    forall key | key in Snapshot(rows) ensures Listed(key, owners) {
      var k :| 0 <= k < |owners| && RowKey(RowsOf(owners)[k]) == key;
      assert OwnerKey(owners[k]) == key;
    }
  }

  /** An owner finds the last row read under its key. */
  lemma OwnerFinds(owners: seq<Owner>, rows: seq<Row>, i: nat) returns (j: nat)
    requires Insertable(owners) && AllPlain(owners) && Reading(rows, RowsOf(owners)) && i < |owners|
    ensures LastOfKey(rows, j) && RowKey(rows[j]) == OwnerKey(owners[i])
    ensures OwnerKey(owners[i]) in Snapshot(rows) && Snapshot(rows)[OwnerKey(owners[i])] == rows[j].revision
  {
    PlainKeys(owners);
    assert RowsOf(owners)[i] in RowsOf(owners);
    SameRows(rows, RowsOf(owners), RowsOf(owners)[i]);
    var k :| 0 <= k < |rows| && rows[k] == RowsOf(owners)[i];
    j := LastExists(rows, k);
    SnapshotOfLast(rows, j);
  }

  /** The owner has not moved against the row that comes last under its key. */
  predicate Abreast(o: Owner, rows: seq<Row>) {
    forall j :: 0 <= j < |rows| && LastOfKey(rows, j) && RowKey(rows[j]) == OwnerKey(o) ==> !Moved(o, rows[j].revision)
  }

  lemma SteadyIsAbreast(owners: seq<Owner>, rows: seq<Row>, i: nat)
    requires Insertable(owners) && AllPlain(owners) && Reading(rows, RowsOf(owners)) && i < |owners|
    ensures Steady(owners[i], Snapshot(rows)) <==> Abreast(owners[i], rows)
  {
    var last := OwnerFinds(owners, rows, i);
    assert forall j :: 0 <= j < |rows| && LastOfKey(rows, j) && RowKey(rows[j]) == RowKey(rows[last]) ==> j == last;
  }

  /**
   * Plain owners, whatever their names, are settled for one order of reading exactly when no owner
   * has moved against the row that comes last under its key.
   */
  lemma PlainSettlesInOrder(owners: seq<Owner>, rows: seq<Row>)
    requires Insertable(owners) && AllPlain(owners) && Reading(rows, RowsOf(owners))
    ensures Settled(Snapshot(rows), owners) <==> forall i :: 0 <= i < |owners| ==> Abreast(owners[i], rows)
  {
    OwnKeysAreListed(owners, rows);
    forall i | 0 <= i < |owners| ensures Steady(owners[i], Snapshot(rows)) <==> Abreast(owners[i], rows) {
      SteadyIsAbreast(owners, rows, i);
    }
  }

  /** Two owners that share a key although one of them has moved against the other. */
  predicate Clash(owners: seq<Owner>, i: nat, j: nat) {
    i < |owners| && j < |owners| && OwnerKey(owners[i]) == OwnerKey(owners[j]) && Moved(owners[i], owners[j].revision)
  }

  /** The rows read with one of them last. */
  lemma ReadLast(stored: seq<Row>, j: nat) returns (rows: seq<Row>)
    requires j < |stored|
    ensures Reading(rows, stored) && rows != [] && rows[|rows| - 1] == stored[j]
  {
    rows := stored[..j] + stored[j + 1..] + [stored[j]];
    assert stored == stored[..j] + [stored[j]] + stored[j + 1..];
  }

  lemma ClashFails(owners: seq<Owner>, i: nat, j: nat)
    requires Insertable(owners) && AllPlain(owners) && Clash(owners, i, j)
    ensures !Converges(RowsOf(owners), owners)
  {
    PlainKeys(owners);
    var rows := ReadLast(RowsOf(owners), j);
    assert !Steady(owners[i], Snapshot(rows));
    assert !Settled(Snapshot(rows), owners);
  }

  lemma WithoutClashSteady(owners: seq<Owner>, rows: seq<Row>, i: nat)
    requires Insertable(owners) && AllPlain(owners) && Reading(rows, RowsOf(owners)) && i < |owners|
    requires forall j: nat :: !Clash(owners, i, j)
    ensures Steady(owners[i], Snapshot(rows))
  {
    PlainKeys(owners);
    var last := OwnerFinds(owners, rows, i);
    SameRows(rows, RowsOf(owners), rows[last]);
    var j :| 0 <= j < |owners| && RowsOf(owners)[j] == rows[last];
    assert !Clash(owners, i, j);
  }

  /**
   * Plain owners, whatever their names, converge in every order of reading exactly when no two of
   * them share a key with revisions that differ upwards.
   */
  lemma PlainConvergesExactly(owners: seq<Owner>)
    requires Insertable(owners) && AllPlain(owners)
    ensures Converges(RowsOf(owners), owners) <==> forall i: nat, j: nat :: !Clash(owners, i, j)
  {
    if i: nat, j: nat :| Clash(owners, i, j) {
      ClashFails(owners, i, j);
    } else {
      forall rows | Reading(rows, RowsOf(owners)) ensures Settled(Snapshot(rows), owners) {
        OwnKeysAreListed(owners, rows);
        forall i | 0 <= i < |owners| ensures Steady(owners[i], Snapshot(rows)) {
          WithoutClashSteady(owners, rows, i);
        }
      }
    }
  }

  const COLLIDING: seq<Owner> := [
    Owner(Some("a"), Some("b:c"), Some("p"), None, Some(2)), Owner(Some("a:b"), Some("c"), Some("p"), None, Some(1))
  ]

  /**
   * Two owners whose names run together under one key, both plain and stored: read in the order they
   * were inserted, which is also that of the primary key, they do not settle; read the other way
   * round they do.
   */
  lemma CollidingKeysMayNotSettle()
    ensures Insertable(COLLIDING) && AllPlain(COLLIDING)
    ensures OwnerKey(COLLIDING[0]) == OwnerKey(COLLIDING[1])
    ensures var rows := RowsOf(COLLIDING);
      !Settled(Snapshot(rows), COLLIDING) && Settled(Snapshot([rows[1], rows[0]]), COLLIDING)
  {
    var rows := RowsOf(COLLIDING);
    assert rows == [Row("a", "b:c", "p", Some(2)), Row("a:b", "c", "p", Some(1))];
    assert OwnerKey(COLLIDING[0]) == "a:b:c:p" && OwnerKey(COLLIDING[1]) == "a:b:c:p";
    assert Snapshot(rows)["a:b:c:p"] == Some(1);
    assert !Steady(COLLIDING[0], Snapshot(rows));
    assert RowKey(rows[0]) == "a:b:c:p" && RowKey(rows[1]) == "a:b:c:p";
    var other := [rows[1], rows[0]];
    assert other[..1] == [rows[1]];
    assert Snapshot([rows[1]]) == map["a:b:c:p" := Some(1)];
    assert Snapshot(other) == Snapshot(other[..1])["a:b:c:p" := Some(2)];
    assert Listed("a:b:c:p", COLLIDING);
  }

  lemma FirstIsSteady(o: Owner, prior: map<string, Option<int>>)
    ensures Settled(prior, [o]) ==> Steady(o, prior)
  {
    assert [o][0] == o;
  }

  lemma KeyFixesProvenance(ownerType: string, ownerId: string, p: string, q: string)
    requires Key(ownerType, ownerId, p) == Key(ownerType, ownerId, q)
    ensures p == q
  {
    var front := ownerType + ":" + ownerId + ":";
    assert Key(ownerType, ownerId, p)[|front|..] == p && Key(ownerType, ownerId, q)[|front|..] == q;
  }

  // ---------------------------------------------------------------- runs

  /** A new event with its owner rows, or nothing when a constraint fails. */
  function Insert(events: seq<Event>, id: string, slot: Slot, owners: seq<Owner>, accepted: bool, now: int)
    : Option<seq<Event>>
  {
    if HasId(events, id) || !Insertable(owners) then None
    else Some(events + [Event(id, slot, now, if accepted then Some(now) else None, RowsOf(owners))])
  }

  predicate HasId(events: seq<Event>, id: string) {
    exists i :: 0 <= i < |events| && events[i].id == id
  }

  /** Accepts the pending event with an id. */
  function AcceptPending(events: seq<Event>, id: string, now: int): seq<Event> {
    seq(|events|, i requires 0 <= i < |events| =>
      if events[i].id == id && events[i].accepted.None? then events[i].(accepted := Some(now)) else events[i])
  }

  predicate IsPending(events: seq<Event>, id: string) {
    exists i :: 0 <= i < |events| && events[i].id == id && events[i].accepted.None?
  }

  datatype Step =
    | Record(id: string, slot: Slot, owners: seq<Owner>, now: int)
    | Commit(id: string, slot: Slot, owners: seq<Owner>, now: int)
    | Accept(id: string, now: int)
    | Cleanup(slot: Slot, now: int)

  function Take(events: seq<Event>, s: Step): seq<Event> {
    match s
    case Record(id, slot, owners, now) =>
      var r := Insert(events, id, slot, owners, false, now); if r.Some? then r.value else events
    case Commit(id, slot, owners, now) =>
      var r := Insert(events, id, slot, owners, true, now); if r.Some? then r.value else events
    case Accept(id, now) => AcceptPending(events, id, now)
    case Cleanup(slot, now) => Cleaned(events, slot, now)
  }

  function RunFrom(events: seq<Event>, steps: seq<Step>): seq<Event> {
    if steps == [] then events else Take(RunFrom(events, steps[..|steps| - 1]), steps[|steps| - 1])
  }

  function Reached(steps: seq<Step>): seq<Event> {
    RunFrom([], steps)
  }

  /** The steps come one after the other, none before a given time. */
  predicate ClockRuns(from: int, steps: seq<Step>) {
    && (forall i :: 0 <= i < |steps| ==> from <= steps[i].now)
    && (forall i, j :: 0 <= i < j < |steps| ==> steps[i].now <= steps[j].now)
  }

  lemma {:induction false} FilterKeepsShape(events: seq<Event>, slot: Slot, latest: Option<string>, now: int)
    requires UniqueIds(events)
    ensures UniqueIds(Filter(events, slot, latest, now))
    ensures forall i :: 0 <= i < |Filter(events, slot, latest, now)| ==> Filter(events, slot, latest, now)[i] in events
  {
    if events != [] {
      var n := |events| - 1;
      var front := events[..n];
      FilterKeepsShape(front, slot, latest, now);
      var before := Filter(front, slot, latest, now);
      forall i | 0 <= i < |before| ensures before[i] in events && before[i].id != events[n].id {
        var k :| 0 <= k < |front| && front[k] == before[i];
        assert events[k] == before[i];
      }
    }
  }

  lemma StepKeepsIds(events: seq<Event>, s: Step)
    requires UniqueIds(events)
    ensures UniqueIds(Take(events, s))
  {
    if s.Cleanup? {
      FilterKeepsShape(events, s.slot, LatestId(events, s.slot), s.now);
    }
  }

  lemma StepKeepsTimes(events: seq<Event>, s: Step, before: int)
    requires UniqueIds(events) && NothingAfter(events, before) && before <= s.now
    ensures NothingAfter(Take(events, s), s.now)
  {
    if s.Cleanup? {
      FilterKeepsShape(events, s.slot, LatestId(events, s.slot), s.now);
    }
  }

  lemma {:induction false} RunKeepsIds(events: seq<Event>, steps: seq<Step>)
    requires UniqueIds(events)
    ensures UniqueIds(RunFrom(events, steps))
  {
    if steps != [] {
      RunKeepsIds(events, steps[..|steps| - 1]);
      StepKeepsIds(RunFrom(events, steps[..|steps| - 1]), steps[|steps| - 1]);
    }
  }

  /** While the clock does not go back, no row lies in the future. */
  lemma {:induction false} RunKeepsTimes(events: seq<Event>, from: int, steps: seq<Step>, n: nat)
    requires UniqueIds(events) && NothingAfter(events, from) && ClockRuns(from, steps) && n <= |steps|
    ensures NothingAfter(RunFrom(events, steps[..n]), if n == 0 then from else steps[n - 1].now)
    decreases n
  {
    if n > 0 {
      assert steps[..n][..n - 1] == steps[..n - 1];
      RunKeepsTimes(events, from, steps, n - 1);
      RunKeepsIds(events, steps[..n - 1]);
      StepKeepsTimes(RunFrom(events, steps[..n - 1]), steps[n - 1], if n == 1 then from else steps[n - 2].now);
    }
  }

  /** In every reachable ledger a cleanup is invisible to every gate. */
  lemma RetentionIsInvisible(steps: seq<Step>, slot: Slot, now: int, other: Slot)
    ensures Read(Take(Reached(steps), Cleanup(slot, now)), other) == Read(Reached(steps), other)
  {
    RunKeepsIds([], steps);
    CleanupIsInvisible(Reached(steps), slot, now, other);
  }

  // ---------------------------------------------------------------- acceptance

  /** Accepting changes the ledger exactly when an event with the id is pending. */
  lemma AcceptChangesWhatIsPending(events: seq<Event>, id: string, now: int)
    ensures AcceptPending(events, id, now) != events <==> exists e :: e in events && e.id == id && e.accepted == None
    ensures IsPending(events, id) <==> exists e :: e in events && e.id == id && e.accepted == None
  {
    if i :| 0 <= i < |events| && events[i].id == id && events[i].accepted.None? {
      assert events[i] in events && AcceptPending(events, id, now)[i] != events[i];
    } else {
      assert AcceptPending(events, id, now) == events;
    }
  }

  /** Among the events of the slot accepted at the same time an event was created last. */
  predicate LastOfItsTime(events: seq<Event>, m: nat, now: int)
    requires m < |events|
  {
    forall i :: 0 <= i < |events| && Candidate(events[i], events[m].slot) && events[i].accepted == Some(now) ==>
      events[i].created < events[m].created || (events[i].created == events[m].created && i < m)
  }

  lemma AcceptTouchesOne(events: seq<Event>, m: nat, now: int)
    requires UniqueIds(events) && m < |events| && events[m].accepted.None?
    ensures var after := AcceptPending(events, events[m].id, now);
      |after| == |events| && after[m] == events[m].(accepted := Some(now))
      && forall i :: 0 <= i < |events| && i != m ==> after[i] == events[i]
  {
  }

  /**
   * A pending composition that is accepted becomes the one the gate reads exactly when every
   * other one accepted in the same second was created before it.
   */
  lemma AcceptedIsRead(events: seq<Event>, m: nat, now: int)
    requires UniqueIds(events) && NothingAfter(events, now) && m < |events| && events[m].accepted.None?
    ensures Latest(AcceptPending(events, events[m].id, now), events[m].slot) == Some(m) <==> LastOfItsTime(events, m, now)
  {
    var after := AcceptPending(events, events[m].id, now);
    AcceptTouchesOne(events, m, now);
    LatestLeads(after, events[m].slot, m);
    if Leads(after, events[m].slot, m) {
      forall i | 0 <= i < |events| && Candidate(events[i], events[m].slot) && events[i].accepted == Some(now)
        ensures events[i].created < events[m].created || (events[i].created == events[m].created && i < m)
      {
        assert after[i] == events[i];
      }
    }
  }

  /** An accepted event that does not lead leaves the gate with what it read before. */
  lemma AcceptedBehind(events: seq<Event>, m: nat, now: int, slot: Slot)
    requires UniqueIds(events) && m < |events| && events[m].accepted.None?
    requires Latest(AcceptPending(events, events[m].id, now), slot) != Some(m)
    ensures Read(AcceptPending(events, events[m].id, now), slot) == Read(events, slot)
  {
    var after := AcceptPending(events, events[m].id, now);
    AcceptTouchesOne(events, m, now);
    var l := Latest(after, slot);
    if l.Some? {
      LatestLeads(after, slot, l.value);
      assert forall i :: 0 <= i < |events| && Candidate(events[i], slot) ==> after[i] == events[i];
      LatestLeads(events, slot, l.value);
    } else if Latest(events, slot).Some? {
      LatestIsLatest(after, slot, Latest(events, slot).value);
    }
  }

  const SLOT := Slot("run", "operator", "p")
  const NOW_OWNERS: seq<Owner> := [Owner(Some("project"), Some("x"), Some("p"), None, Some(2))]
  const OLD_OWNERS: seq<Owner> := [Owner(Some("project"), Some("x"), Some("p"), None, Some(1))]

  /**
   * Record the current owners, commit older ones a second later, and accept the record in that
   * same second: the gate reads the older ones and asks again, although the last acceptance was
   * of the current owners.
   */
  lemma AcceptedInTheSameSecondIsNotRead()
    ensures var after := Reached([Record("a", SLOT, NOW_OWNERS, 0), Commit("b", SLOT, OLD_OWNERS, 1), Accept("a", 1)]);
      && LatestOwners(after, SLOT) == Some(RowsOf(OLD_OWNERS))
      && Justified(RevisionIncreased, Snapshot(RowsOf(OLD_OWNERS)), NOW_OWNERS)
      && !Settled(Snapshot(RowsOf(OLD_OWNERS)), NOW_OWNERS)
  {
    var a := Event("a", SLOT, 0, None, RowsOf(NOW_OWNERS));
    var b := Event("b", SLOT, 1, Some(1), RowsOf(OLD_OWNERS));
    ThreeSteps(Record("a", SLOT, NOW_OWNERS, 0), Commit("b", SLOT, OLD_OWNERS, 1), Accept("a", 1));
    assert Take([], Record("a", SLOT, NOW_OWNERS, 0)) == [a];
    assert Take([a], Commit("b", SLOT, OLD_OWNERS, 1)) == [a, b];
    assert Take([a, b], Accept("a", 1)) == [a.(accepted := Some(1)), b];
    LatestLeads([a.(accepted := Some(1)), b], SLOT, 1);
    var rows := RowsOf(OLD_OWNERS);
    assert rows == [Row("project", "x", "p", Some(1))];
    assert OwnerKey(NOW_OWNERS[0]) == RowKey(rows[0]) && Snapshot(rows)[RowKey(rows[0])] == Some(1);
    assert !Steady(NOW_OWNERS[0], Snapshot(rows));
  }

  lemma ThreeSteps(a: Step, b: Step, c: Step)
    ensures Reached([a, b, c]) == Take(Take(Take([], a), b), c)
  {
    assert [a, b, c][..2] == [a, b] && [a, b][..1] == [a] && [a][..0] == [];
    assert Reached([]) == [];
    assert Reached([a]) == Take(Reached([]), a);
    assert Reached([a, b]) == Take(Reached([a]), b);
  }

  // ---------------------------------------------------------------- how long a gate stays closed

  /** The steps after which the gate of a slot reads another composition. */
  predicate Replaces(events: seq<Event>, s: Step, slot: Slot) {
    match s
    case Record(_, _, _, _) => false
    case Commit(id, at, owners, now) => at == slot && !HasId(events, id) && Insertable(owners)
    case Accept(id, now) =>
      exists m :: 0 <= m < |events| && events[m].id == id && events[m].accepted.None? && events[m].slot == slot
        && LastOfItsTime(events, m, now)
    case Cleanup(_, _) => false
  }

  lemma AcceptStep(events: seq<Event>, id: string, now: int, slot: Slot)
    requires UniqueIds(events) && NothingAfter(events, now)
    ensures Read(Take(events, Accept(id, now)), slot) != Read(events, slot) <==> Replaces(events, Accept(id, now), slot)
  {
    var after := AcceptPending(events, id, now);
    if m :| 0 <= m < |events| && events[m].id == id && events[m].accepted.None? {
      AcceptTouchesOne(events, m, now);
      AcceptedIsRead(events, m, now);
      if Latest(after, slot) != Some(m) {
        AcceptedBehind(events, m, now, slot);
      } else {
        assert events[m].slot == slot;
        assert Read(events, slot).Some? ==> Read(events, slot).value.id != id;
      }
    } else {
      assert after == events;
    }
  }

  /** The gate reads another composition after a step exactly when the step replaces it. */
  lemma GateStep(events: seq<Event>, s: Step, slot: Slot)
    requires UniqueIds(events) && NothingAfter(events, s.now)
    ensures Read(Take(events, s), slot) != Read(events, slot) <==> Replaces(events, s, slot)
  {
    match s
    case Record(id, at, owners, now) =>
      ReadGrows(events, Event(id, at, now, None, if Insertable(owners) then RowsOf(owners) else []), slot);
    case Commit(id, at, owners, now) =>
      if !HasId(events, id) && Insertable(owners) {
        ReadGrows(events, Event(id, at, now, Some(now), RowsOf(owners)), slot);
      }
    case Accept(id, now) => AcceptStep(events, id, now, slot);
    case Cleanup(at, now) => CleanupIsInvisible(events, at, now, slot);
  }

  predicate Replaced(events: seq<Event>, steps: seq<Step>, slot: Slot) {
    exists n :: 0 <= n < |steps| && Replaces(RunFrom(events, steps[..n]), steps[n], slot)
  }

  /** What the gate reads after some of the steps. */
  function ReadAt(events: seq<Event>, steps: seq<Step>, n: nat, slot: Slot): Option<Event>
    requires n <= |steps|
  {
    Read(RunFrom(events, steps[..n]), slot)
  }

  predicate ReadThroughout(events: seq<Event>, steps: seq<Step>, slot: Slot) {
    forall n :: 0 <= n <= |steps| ==> ReadAt(events, steps, n, slot) == Read(events, slot)
  }

  lemma StepOfRun(events: seq<Event>, from: int, steps: seq<Step>, n: nat, slot: Slot)
    requires UniqueIds(events) && NothingAfter(events, from) && ClockRuns(from, steps) && n < |steps|
    ensures ReadAt(events, steps, n + 1, slot) != ReadAt(events, steps, n, slot)
      <==> Replaces(RunFrom(events, steps[..n]), steps[n], slot)
  {
    assert steps[..n + 1][..n] == steps[..n];
    RunKeepsIds(events, steps[..n]);
    RunKeepsTimes(events, from, steps, n);
    GateStep(RunFrom(events, steps[..n]), steps[n], slot);
  }

  /**
   * Over any further steps the gate of a slot goes on reading the same composition exactly until
   * another one of the slot is committed, or accepted as the last of its time.
   */
  lemma GateReadsUntilReplaced(events: seq<Event>, from: int, steps: seq<Step>, slot: Slot)
    requires UniqueIds(events) && NothingAfter(events, from) && ClockRuns(from, steps)
    ensures ReadThroughout(events, steps, slot) <==> !Replaced(events, steps, slot)
  {
    if ReadThroughout(events, steps, slot) {
      forall n | 0 <= n < |steps| ensures !Replaces(RunFrom(events, steps[..n]), steps[n], slot) {
        StepOfRun(events, from, steps, n, slot);
      }
    }
    if !Replaced(events, steps, slot) {
      forall n | 0 <= n <= |steps| ensures ReadAt(events, steps, n, slot) == Read(events, slot) {
        SameUpTo(events, from, steps, slot, n);
      }
    }
  }

  lemma {:induction false} SameUpTo(events: seq<Event>, from: int, steps: seq<Step>, slot: Slot, n: nat)
    requires UniqueIds(events) && NothingAfter(events, from) && ClockRuns(from, steps) && n <= |steps|
    requires !Replaced(events, steps, slot)
    ensures ReadAt(events, steps, n, slot) == Read(events, slot)
    decreases n
  {
    if n == 0 {
      assert steps[..0] == [];
    } else {
      SameUpTo(events, from, steps, slot, n - 1);
      StepOfRun(events, from, steps, n - 1, slot);
    }
  }

  /** The gate answers unchanged for these owners, in whatever order it reads their rows. */
  ghost predicate Closed(events: seq<Event>, slot: Slot, owners: seq<Owner>) {
    LatestOwners(events, slot).Some? && Converges(LatestOwners(events, slot).value, owners)
  }

  lemma ClosedGateStaysClosed(events: seq<Event>, from: int, more: seq<Step>, slot: Slot, owners: seq<Owner>)
    requires UniqueIds(events) && NothingAfter(events, from) && ClockRuns(from, more)
    requires Closed(events, slot, owners) && !Replaced(events, more, slot)
    ensures Closed(RunFrom(events, more), slot, owners)
  {
    GateReadsUntilReplaced(events, from, more, slot);
    assert more[..|more|] == more;
    assert ReadAt(events, more, |more|, slot) == Read(events, slot);
  }

  lemma CommitCloses(events: seq<Event>, id: string, slot: Slot, owners: seq<Owner>, now: int)
    requires NothingAfter(events, now) && !HasId(events, id) && Insertable(owners) && Converging(owners)
    ensures Closed(Take(events, Commit(id, slot, owners, now)), slot, owners)
  {
    CommitConverges(events, Event(id, slot, now, Some(now), RowsOf(owners)), now, owners);
  }

  lemma ReachedShape(from: int, steps: seq<Step>, now: int)
    requires ClockRuns(from, steps) && (steps == [] || steps[|steps| - 1].now <= now)
    ensures UniqueIds(Reached(steps)) && NothingAfter(Reached(steps), now)
  {
    RunKeepsIds([], steps);
    RunKeepsTimes([], from, steps, |steps|);
    assert steps[..|steps|] == steps;
  }

  /**
   * In every reachable ledger committing the current owners closes the gate of the slot, and it
   * stays closed for them until another composition of the slot is committed or accepted.
   */
  lemma CommittingClosesTheGate(from: int, steps: seq<Step>, id: string, slot: Slot, owners: seq<Owner>, now: int,
                                more: seq<Step>)
    requires ClockRuns(from, steps) && (steps == [] || steps[|steps| - 1].now <= now) && ClockRuns(now, more)
    requires Insertable(owners) && Converging(owners) && !HasId(Reached(steps), id)
    requires !Replaced(Take(Reached(steps), Commit(id, slot, owners, now)), more, slot)
    ensures Closed(RunFrom(Take(Reached(steps), Commit(id, slot, owners, now)), more), slot, owners)
  {
    var commit := Commit(id, slot, owners, now);
    ReachedShape(from, steps, now);
    CommitCloses(Reached(steps), id, slot, owners, now);
    StepKeepsIds(Reached(steps), commit);
    StepKeepsTimes(Reached(steps), commit, now);
    ClosedGateStaysClosed(Take(Reached(steps), commit), now, more, slot, owners);
  }

  lemma AcceptCloses(events: seq<Event>, m: nat, now: int, owners: seq<Owner>)
    requires UniqueIds(events) && NothingAfter(events, now) && m < |events| && events[m].accepted.None?
    requires Insertable(owners) && Converging(owners) && events[m].owners == RowsOf(owners)
    requires LastOfItsTime(events, m, now)
    ensures Closed(Take(events, Accept(events[m].id, now)), events[m].slot, owners)
  {
    AcceptedIsRead(events, m, now);
    AcceptTouchesOne(events, m, now);
    ConvergingSettles(owners);
  }

  /** Accepting a recorded composition of the current owners closes the gate as well, if it is the last of its time. */
  lemma AcceptingClosesTheGate(from: int, steps: seq<Step>, m: nat, now: int, owners: seq<Owner>, more: seq<Step>)
    requires ClockRuns(from, steps) && (steps == [] || steps[|steps| - 1].now <= now) && ClockRuns(now, more)
    requires m < |Reached(steps)| && Reached(steps)[m].accepted.None? && LastOfItsTime(Reached(steps), m, now)
    requires Insertable(owners) && Converging(owners) && Reached(steps)[m].owners == RowsOf(owners)
    requires !Replaced(Take(Reached(steps), Accept(Reached(steps)[m].id, now)), more, Reached(steps)[m].slot)
    ensures Closed(RunFrom(Take(Reached(steps), Accept(Reached(steps)[m].id, now)), more), Reached(steps)[m].slot, owners)
  {
    var accept := Accept(Reached(steps)[m].id, now);
    ReachedShape(from, steps, now);
    AcceptCloses(Reached(steps), m, now, owners);
    StepKeepsIds(Reached(steps), accept);
    StepKeepsTimes(Reached(steps), accept, now);
    ClosedGateStaysClosed(Take(Reached(steps), accept), now, more, Reached(steps)[m].slot, owners);
  }

  // ---------------------------------------------------------------- the service

  class CompositionLedgerService {
    var events: seq<Event>

    constructor ()
      ensures events == []
    {
      events := [];
    }

    /** The owner rows of one composition; stops at the first constraint that fails. */
    method InsertOwners(owners: seq<Owner>) returns (ok: bool, rows: seq<Row>)
      ensures ok <==> Insertable(owners)
      ensures ok ==> rows == RowsOf(owners)
    {
      rows := [];
      for i := 0 to |owners|
        invariant |rows| == i
        invariant forall k :: 0 <= k < i ==> Storable(owners[k]) && rows[k] == RowOf(owners[k])
        invariant forall k, l :: 0 <= k < l < i ==> !SameOwner(rows[k], rows[l])
      {
        var o := owners[i];
        if o.ownerType.None? || o.ownerId.None? {
          return false, rows;
        }
        var row := RowOf(o);
        if exists j :: 0 <= j < |rows| && SameOwner(rows[j], row) {
          return false, rows;
        }
        rows := rows + [row];
      }
      return true, rows;
    }

    /** Records a pending composition; answers nothing, and changes nothing, when the insert fails. */
    method Record(id: string, slot: Slot, owners: seq<Owner>, now: int) returns (r: Option<string>)
      modifies this
      ensures events == Take(old(events), Step.Record(id, slot, owners, now))
      ensures r == if Insert(old(events), id, slot, owners, false, now).Some? then Some(id) else None
    {
      var ok, rows := InsertOwners(owners);
      if !ok || HasId(events, id) {
        return None;
      }
      events := events + [Event(id, slot, now, None, rows)];
      return Some(id);
    }

    /** Commits an accepted composition in one transaction, or throws and changes nothing. */
    method CommitAccepted(id: string, slot: Slot, owners: seq<Owner>, now: int) returns (r: Result<string>)
      modifies this
      ensures events == Take(old(events), Commit(id, slot, owners, now))
      ensures r.Ok? <==> Insert(old(events), id, slot, owners, true, now).Some?
      ensures r.Ok? ==> r.value == id
    {
      var ok, rows := InsertOwners(owners);
      if !ok || HasId(events, id) {
        return Err(BadRequest);
      }
      events := events + [Event(id, slot, now, Some(now), rows)];
      return Ok(id);
    }

    method Accept(id: string, now: int) returns (changed: bool)
      modifies this
      ensures events == Take(old(events), Step.Accept(id, now))
      ensures changed == IsPending(old(events), id)
    {
      changed := false;
      var was := events;
      for i := 0 to |was|
        invariant |events| == |was|
        invariant changed <==> IsPending(was[..i], id)
        invariant forall j :: 0 <= j < |was| ==>
          events[j] == if j < i then AcceptPending(was, id, now)[j] else was[j]
      {
        assert was[..i + 1] == was[..i] + [was[i]];
        if was[i].id == id && was[i].accepted.None? {
          events := events[i := was[i].(accepted := Some(now))];
          changed := true;
          assert was[..i + 1][i] == was[i];
        }
        assert forall j :: 0 <= j < i ==> was[..i + 1][j] == was[..i][j];
      }
      assert was[..|was|] == was;
    }

    /** Looks for an owner that is new, or whose revision moved; collects the keys it passes. */
    static method CompareOwners(prior: map<string, Option<int>>, current: seq<Owner>)
      returns (v: Verdict, keys: set<string>)
      ensures !v.NoPrior? && !v.RemovedOwner?
      ensures v.Unchanged? <==> forall i :: 0 <= i < |current| ==> Steady(current[i], prior)
      ensures v.Unchanged? ==> forall key :: key in keys <==> Listed(key, current)
      ensures !v.Unchanged? ==> Justified(v, prior, current)
    {
      keys := {};
      for i := 0 to |current|
        invariant forall j :: 0 <= j < i ==> Steady(current[j], prior)
        invariant forall key :: key in keys <==> exists j :: 0 <= j < i && OwnerKey(current[j]) == key
      {
        var key := OwnerKey(current[i]);
        keys := keys + {key};
        var now := current[i].revision;
        if key !in prior {
          return NewOwner, keys;
        }
        if now.Some? && prior[key].Some? && now.value > prior[key].value {
          return RevisionIncreased, keys;
        }
        if now.Some? && prior[key].None? {
          return RevisionGained, keys;
        }
      }
      return Unchanged, keys;
    }

    /**
     * The gate: compares each current owner with the latest accepted snapshot, then looks for
     * missing ones. `rows` is what the query for the owner rows of that snapshot returns.
     */
    method ShouldCompose(slot: Slot, current: seq<Owner>, rows: seq<Row>) returns (compose: bool, v: Verdict)
      requires LatestOwners(events, slot).Some? ==> Reading(rows, LatestOwners(events, slot).value)
      ensures v.NoPrior? <==> LatestOwners(events, slot).None?
      ensures LatestOwners(events, slot).Some? ==>
        && (compose <==> !Settled(Snapshot(rows), current))
        && Justified(v, Snapshot(rows), current)
      ensures compose <==> !v.Unchanged?
      ensures Closed(events, slot, current) ==> !compose
    {
      if LatestOwners(events, slot).None? {
        return true, NoPrior;
      }
      var prior := ReadSnapshot(rows);
      var compared, currentKeys := CompareOwners(prior, current);
      if !compared.Unchanged? {
        return true, compared;
      }
      var left := prior.Keys;
      while left != {}
        invariant left <= prior.Keys && forall key :: key in prior && key !in left ==> Listed(key, current)
        decreases |left|
      {
        var key :| key in left;
        left := left - {key};
        if key !in currentKeys {
          return true, RemovedOwner;
        }
      }
      return false, Unchanged;
    }

    static method ReadSnapshot(rows: seq<Row>) returns (prior: map<string, Option<int>>)
      ensures prior == Snapshot(rows)
    {
      prior := map[];
      for i := 0 to |rows|
        invariant prior == Snapshot(rows[..i])
      {
        assert rows[..i + 1][..i] == rows[..i];
        prior := prior[RowKey(rows[i]) := rows[i].revision];
      }
      assert rows[..|rows|] == rows;
    }

    /** Deletes the slot's older accepted events, then every pending event older than a day. */
    method Cleanup(slot: Slot, now: int)
      modifies this
      ensures events == Take(old(events), Step.Cleanup(slot, now))
    {
      var latest := LatestId(events, slot);
      var was := events;
      events := [];
      for i := 0 to |was|
        invariant events == Filter(was[..i], slot, latest, now)
      {
        assert was[..i + 1][..i] == was[..i];
        var older := was[i].accepted.Some? && was[i].slot == slot && Some(was[i].id) != latest;
        var stale := was[i].accepted.None? && was[i].created < now - DAY;
        if !older && !stale {
          events := events + [was[i]];
        }
      }
      assert was[..|was|] == was;
    }
  }
}
