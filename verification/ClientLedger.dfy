/** A device's SQLite tables and the transactions that change them: what
    internal/client/storage/storage.go does. */
module ClientLedger {
  import opened Records
  import opened Sorting

  datatype FileState = FileState(size: int, modTime: Time)

  /** Keys of the observations and snapshots tables; times in whole milliseconds. */
  datatype SignInKey = SignInKey(provider: string, source: string, observedAt: Time)
  datatype SignIn = SignIn(accountRef: string, hint: string, planType: string)
  datatype ReadingKey = ReadingKey(provider: string, accountRef: string, source: string, observedAt: Time)
  datatype Reading = Reading(buckets: seq<Bucket>, planType: string, hint: string)

  datatype Payload =
    | ObservationPayload(observation: Observation)
    | EventPayload(event: SyncEvent)
    | SnapshotPayload(snapshot: SyncSnapshot)
    | LimitPayload(limit: LimitEvent)

  /** outbox.id is AUTOINCREMENT: never used twice, not even after a reset. */
  datatype OutboxItem = OutboxItem(id: nat, payload: Payload)

  datatype Local = Local(
    events: map<string, UsageEvent>,
    files: map<string, FileState>,
    signIns: map<SignInKey, SignIn>,
    readings: map<ReadingKey, Reading>,
    limits: map<string, LimitEvent>,
    outbox: seq<OutboxItem>,
    nextId: nat)

  const EMPTY := Local(map[], map[], map[], map[], map[], [], 0)

  /** Items are queued in id order, below the next id. */
  ghost predicate ValidOutbox(s: Local) {
    Ascending(s.outbox) && forall i :: 0 <= i < |s.outbox| ==> s.outbox[i].id < s.nextId
  }

  function Enqueue(s: Local, p: Payload): Local {
    s.(outbox := s.outbox + [OutboxItem(s.nextId, p)], nextId := s.nextId + 1)
  }

  function EnqueueAll(s: Local, ps: seq<Payload>): Local {
    if ps == [] then s else Enqueue(EnqueueAll(s, ps[..|ps| - 1]), ps[|ps| - 1])
  }

  // ------------------------------------------------------------ observations

  function Observe(s: Local, o: Observation): Local {
    var key := SignInKey(o.provider, o.source, CutToMilli(o.observedAt));
    if key in s.signIns then s
    else
      var s1 := s.(signIns := s.signIns[key := SignIn(o.accountRef, o.hint, o.planType)]);
      if o.accountRef == "" then s1 else Enqueue(s1, ObservationPayload(o))
  }

  // ------------------------------------------------------------------ events

  /** More of a request on the same account. */
  predicate Adds(row: UsageEvent, e: UsageEvent) {
    && e.accountRef == row.accountRef
    && (e.tokens.output > row.tokens.output
        || (row.requestId == "" && e.requestId != "")
        || (row.effort == "" && e.effort != ""))
  }

  /** The same request read again from its own session, now on another account. */
  predicate Reattributes(row: UsageEvent, e: UsageEvent) {
    e.accountRef != row.accountRef && e.session == row.session && e.originator == row.originator
  }

  predicate Takes(row: UsageEvent, e: UsageEvent) {
    Adds(row, e) || Reattributes(row, e)
  }

  /** The row a first reading leaves. */
  function FirstRow(e: UsageEvent): UsageEvent {
    e.(occurredAt := CutToMilli(e.occurredAt))
  }

  /** The upsert's DO UPDATE branch. */
  function Merge(row: UsageEvent, e: UsageEvent): UsageEvent {
    row.(accountRef := e.accountRef,
         tokens := Raise(row.tokens, e.tokens),
         requestId := Fill(row.requestId, e.requestId),
         parentRequestId := Fill(row.parentRequestId, e.parentRequestId),
         effort := Fill(row.effort, e.effort),
         status := Fill(row.status, e.status),
         aggregated := row.aggregated || e.aggregated)
  }

  /** The previous account a queued change names: the one it corrects. */
  function PreviousRef(row: UsageEvent, e: UsageEvent): string {
    if row.accountRef != e.accountRef && row.session == e.session && row.originator == e.originator then row.accountRef
        else ""
  }

  function SaveEvent(s: Local, e: UsageEvent): (Local, nat) {
    if e.dedupeKey !in s.events then
      (Enqueue(s.(events := s.events[e.dedupeKey := FirstRow(e)]), EventPayload(SyncEvent(e, ""))), 1)
    else
      var row := s.events[e.dedupeKey];
      if Takes(row, e) then
        (Enqueue(s.(events := s.events[e.dedupeKey := Merge(row, e)]), EventPayload(SyncEvent(e, PreviousRef(row, e)))),
            1)
      else (s, 0)
  }

  function SaveEvents(s: Local, es: seq<UsageEvent>): (Local, nat) {
    if es == [] then (s, 0)
    else
      var (s1, n) := SaveEvents(s, es[..|es| - 1]);
      var (s2, m) := SaveEvent(s1, es[|es| - 1]);
      (s2, n + m)
  }

  // ---------------------------------------------------------------- readings

  function KeyOf(snap: Snapshot): ReadingKey {
    ReadingKey(snap.provider, snap.accountRef, snap.source, CutToMilli(snap.observedAt))
  }

  function SaveReading(s: Local, snap: Snapshot): (Local, nat) {
    if KeyOf(snap) in s.readings then (s, 0)
    else
      (Enqueue(s.(readings := s.readings[KeyOf(snap) := Reading(snap.buckets, snap.planType, snap.hint)]),
               SnapshotPayload(SyncSnapshot(snap, ""))), 1)
  }

  function SaveReadings(s: Local, snaps: seq<Snapshot>): (Local, nat) {
    if snaps == [] then (s, 0)
    else
      var (s1, n) := SaveReadings(s, snaps[..|snaps| - 1]);
      var (s2, m) := SaveReading(s1, snaps[|snaps| - 1]);
      (s2, n + m)
  }

  /** The accounts a reading with the same time and buckets is recorded on. */
  function RecordedOn(s: Local, snap: Snapshot): set<string> {
    set k | k in s.readings && k == KeyOf(snap).(accountRef := k.accountRef)
        && s.readings[k].buckets == snap.buckets :: k.accountRef
  }

  function TheOne(refs: set<string>): (ref: string)
    requires |refs| == 1
    ensures refs == {ref}
  {
    assert forall x, y :: x in refs && y in refs ==> x == y by {
      forall x, y | x in refs && y in refs ensures x == y {
        assert |refs - {x}| == 0;
        assert y !in refs - {x};
      }
    }
    assert refs != {};
    var ref :| ref in refs;
    assert refs == {ref};
    ref
  }

  /** Moves a reading recorded on exactly one other account; otherwise changes nothing. */
  function CorrectReading(s: Local, snap: Snapshot): (Local, bool) {
    var refs := RecordedOn(s, snap);
    if |refs| != 1 || TheOne(refs) == snap.accountRef then (s, false)
    else
      var previous := TheOne(refs);
      var s1 := s.(readings := s.readings - {KeyOf(snap).(accountRef := previous)});
      (SaveReading(Enqueue(s1, SnapshotPayload(SyncSnapshot(snap, previous))), snap).0, true)
  }

  // ------------------------------------------------------------ limit events

  function SaveLimit(s: Local, l: LimitEvent): (Local, nat) {
    if l.dedupeKey in s.limits then (s, 0)
    else (Enqueue(s.(limits := s.limits[l.dedupeKey := l]), LimitPayload(l)), 1)
  }

  function SaveLimits(s: Local, ls: seq<LimitEvent>): (Local, nat) {
    if ls == [] then (s, 0)
    else
      var (s1, n) := SaveLimits(s, ls[..|ls| - 1]);
      var (s2, m) := SaveLimit(s1, ls[|ls| - 1]);
      (s2, n + m)
  }

  // ------------------------------------------------------------------- files

  /** What one file was parsed into. */
  datatype Scan = Scan(
    path: string, state: FileState, events: seq<UsageEvent>, snapshots: seq<Snapshot>, limits: seq<LimitEvent>)

  /** One file's transaction. */
  function IngestScan(s: Local, scan: Scan): (Local, nat) {
    var (s1, n1) := SaveEvents(s, scan.events);
    var (s2, n2) := SaveReadings(s1, scan.snapshots);
    var (s3, n3) := SaveLimits(s2, scan.limits);
    (s3.(files := s3.files[scan.path := scan.state]), n1 + n2 + n3)
  }

  // ------------------------------------------------------------------ outbox

  /** ORDER BY id LIMIT n of a queue kept in id order. */
  function Pending(s: Local, limit: nat): seq<OutboxItem> {
    if |s.outbox| <= limit then s.outbox else s.outbox[..limit]
  }

  /** DELETE FROM outbox WHERE id <= id. */
  function After(items: seq<OutboxItem>, id: nat): seq<OutboxItem> {
    if items == [] then []
    else (if items[0].id <= id then [] else [items[0]]) + After(items[1..], id)
  }

  function DeleteThrough(s: Local, id: nat): Local {
    s.(outbox := After(s.outbox, id))
  }

  ghost predicate Ascending(items: seq<OutboxItem>) {
    forall i, j :: 0 <= i < j < |items| ==> items[i].id < items[j].id
  }

  /** The oldest of the queued items, as many as the limit lets: every other one is newer. */
  ghost predicate OldestOf(items: seq<OutboxItem>, outbox: seq<OutboxItem>, limit: nat) {
    && Ascending(items) && |items| == Min(limit, |outbox|)
    && (forall it :: it in items ==> it in outbox)
    && (forall it, other :: it in items && other in outbox && other !in items ==> it.id < other.id)
  }

  lemma PendingOldest(s: Local, limit: nat)
    requires ValidOutbox(s)
    ensures OldestOf(Pending(s, limit), s.outbox, limit)
  {
    var items := Pending(s, limit);
    assert forall i :: 0 <= i < |items| ==> items[i] == s.outbox[i] && items[i] in items;
    forall it, other | it in items && other in s.outbox && other !in items ensures it.id < other.id {
      var i :| 0 <= i < |items| && items[i] == it;
      var j :| 0 <= j < |s.outbox| && s.outbox[j] == other;
      assert s.outbox[i] == it;
    }
  }

  /** Exactly the items of later ids stay. */
  lemma {:induction false} AfterKeeps(items: seq<OutboxItem>, id: nat)
    ensures forall it :: it in After(items, id) <==> it in items && it.id > id
  {
    if items != [] {
      AfterKeeps(items[1..], id);
      assert items == [items[0]] + items[1..];
    }
  }

  /** Of a queue in id order they are its tail from n on, untouched. */
  ghost predicate TailAfter(rest: seq<OutboxItem>, items: seq<OutboxItem>, id: nat, n: nat) {
    && n <= |items| && rest == items[n..]
    && (forall i :: 0 <= i < n ==> items[i].id <= id)
    && (forall i :: n <= i < |items| ==> items[i].id > id)
  }

  lemma {:induction false} AfterIsTail(items: seq<OutboxItem>, id: nat) returns (n: nat)
    requires Ascending(items)
    ensures TailAfter(After(items, id), items, id, n)
  {
    n := 0;
    if items != [] {
      if items[0].id <= id {
        var m := AfterIsTail(items[1..], id);
        n := m + 1;
        assert items[1..][m..] == items[n..];
        forall i | 0 <= i < n ensures items[i].id <= id {
          assert i > 0 ==> items[i] == items[1..][i - 1];
        }
        forall i | n <= i < |items| ensures items[i].id > id {
          assert items[i] == items[1..][i - 1];
        }
      } else {
        AfterNone(items, id);
      }
    }
  }

  lemma {:induction false} AfterNone(items: seq<OutboxItem>, id: nat)
    requires forall i :: 0 <= i < |items| ==> items[i].id > id
    ensures After(items, id) == items
  {
    if items != [] {
      AfterNone(items[1..], id);
    }
  }

  // ------------------------------------------------------------------- reset

  function SignInTime(k: SignInKey): int { k.observedAt }
  function ReadingTime(k: ReadingKey): int { k.observedAt }

  function PooledSignIns(s: Local): set<SignInKey> {
    set k | k in s.signIns && s.signIns[k].accountRef != ""
  }

  function SignInPayload(k: SignInKey, i: SignIn): Payload {
    ObservationPayload(Observation(k.provider, k.source, i.accountRef, i.hint, i.planType, k.observedAt))
  }

  function ReadingPayload(k: ReadingKey, r: Reading): Payload {
    SnapshotPayload(SyncSnapshot(Snapshot(k.accountRef, r.hint, r.planType, k.provider, k.source, k.observedAt,
        r.buckets), ""))
  }

  /** The queued reading is the stored row, column by column, and corrects nothing. */
  ghost predicate CarriesReading(p: Payload, k: ReadingKey, r: Reading) {
    && p.SnapshotPayload? && p.snapshot.previousRef == ""
    && var snap := p.snapshot.snapshot;
       && snap.provider == k.provider && snap.accountRef == k.accountRef && snap.source == k.source
       && snap.observedAt == k.observedAt && snap.buckets == r.buckets && snap.planType == r.planType
       && snap.hint == r.hint
  }

  /** The queued sign-in is the stored row, column by column. */
  ghost predicate CarriesSignIn(p: Payload, k: SignInKey, i: SignIn) {
    && p.ObservationPayload?
    && p.observation.provider == k.provider && p.observation.source == k.source
    && p.observation.observedAt == k.observedAt && p.observation.accountRef == i.accountRef
    && p.observation.hint == i.hint && p.observation.planType == i.planType
  }

  lemma PayloadsCarry()
    ensures forall k, i :: CarriesSignIn(SignInPayload(k, i), k, i)
    ensures forall k, r :: CarriesReading(ReadingPayload(k, r), k, r)
  {
  }

  /** Rows are kept under whole milliseconds. */
  ghost predicate WholeMillis(t: Time) {
    t % 1_000_000 == 0
  }

  /** A queued reading, saved where its row is not, is that row again. */
  lemma ReadingRoundTrip(s: Local, p: Payload, k: ReadingKey, r: Reading)
    requires CarriesReading(p, k, r) && WholeMillis(k.observedAt) && k !in s.readings
    ensures SaveReading(s, p.snapshot.snapshot).0.readings == s.readings[k := r]
  {
  }

  /** So is a queued sign-in. */
  lemma SignInRoundTrip(s: Local, p: Payload, k: SignInKey, i: SignIn)
    requires CarriesSignIn(p, k, i) && WholeMillis(k.observedAt) && k !in s.signIns
    ensures Observe(s, p.observation).signIns == s.signIns[k := i]
  {
  }

  function SignInPayloads(table: map<SignInKey, SignIn>, ks: seq<SignInKey>): seq<Payload>
    requires forall k :: k in ks ==> k in table
  {
    if ks == [] then []
    else SignInPayloads(table, ks[..|ks| - 1]) + [SignInPayload(ks[|ks| - 1], table[ks[|ks| - 1]])]
  }

  function ReadingPayloads(table: map<ReadingKey, Reading>, ks: seq<ReadingKey>): seq<Payload>
    requires forall k :: k in ks ==> k in table
  {
    if ks == [] then []
    else ReadingPayloads(table, ks[..|ks| - 1]) + [ReadingPayload(ks[|ks| - 1], table[ks[|ks| - 1]])]
  }

  /** The orders a reset may read its two tables in: oldest first. */
  predicate ResetOrders(s: Local, signIns: seq<SignInKey>, readings: seq<ReadingKey>) {
    Lists(signIns, PooledSignIns(s), SignInTime) && Lists(readings, s.readings.Keys, ReadingTime)
  }

  function Reset(s: Local, signIns: seq<SignInKey>, readings: seq<ReadingKey>): Local
    requires ResetOrders(s, signIns, readings)
  {
    ListsMembers(signIns, PooledSignIns(s), SignInTime);
    ListsMembers(readings, s.readings.Keys, ReadingTime);
    EnqueueAll(EnqueueAll(s.(events := map[], files := map[], outbox := [], limits := map[]),
                          SignInPayloads(s.signIns, signIns)),
               ReadingPayloads(s.readings, readings))
  }

  // ------------------------------------------------------------------- store

  class Store {
    var events: map<string, UsageEvent>
    var files: map<string, FileState>
    var signIns: map<SignInKey, SignIn>
    var readings: map<ReadingKey, Reading>
    var limits: map<string, LimitEvent>
    var outbox: seq<OutboxItem>
    var nextId: nat

    /** The tables as one value. */
    ghost function Tables(): Local
      reads this
    {
      Local(events, files, signIns, readings, limits, outbox, nextId)
    }

    constructor ()
      ensures Tables() == EMPTY
    {
      events, files, signIns, readings := map[], map[], map[], map[];
      limits, outbox, nextId := map[], [], 0;
    }

    method Queue(p: Payload)
      modifies `outbox, `nextId
      ensures Tables() == Enqueue(old(Tables()), p)
    {
      outbox, nextId := outbox + [OutboxItem(nextId, p)], nextId + 1;
    }

    method AddObservation(o: Observation)
      modifies this
      ensures Tables() == Observe(old(Tables()), o)
    {
      var key := SignInKey(o.provider, o.source, CutToMilli(o.observedAt));
      if key in signIns {
        return;
      }
      signIns := signIns[key := SignIn(o.accountRef, o.hint, o.planType)];
      if o.accountRef != "" {
        Queue(ObservationPayload(o));
      }
    }

    method IngestFile(scan: Scan) returns (changed: nat)
      modifies this
      ensures IngestScan(old(Tables()), scan) == (Tables(), changed)
    {
      var n1 := UpsertEvents(scan.events);
      var n2 := InsertSnapshots(scan.snapshots);
      var n3 := InsertLimitEvents(scan.limits);
      files := files[scan.path := scan.state];
      changed := n1 + n2 + n3;
    }

    /** IngestFile's loop over the parsed readings. */
    method InsertSnapshots(read: seq<Snapshot>) returns (changed: nat)
      modifies this
      ensures SaveReadings(old(Tables()), read) == (Tables(), changed)
    {
      changed := 0;
      for i := 0 to |read|
        invariant SaveReadings(old(Tables()), read[..i]) == (Tables(), changed)
      {
        assert read[..i + 1][..i] == read[..i];
        var n := InsertSnapshot(read[i]);
        changed := changed + n;
      }
      assert read[..|read|] == read;
    }

    /** IngestFile's loop over the parsed limit hits. */
    method InsertLimitEvents(read: seq<LimitEvent>) returns (changed: nat)
      modifies this
      ensures SaveLimits(old(Tables()), read) == (Tables(), changed)
    {
      changed := 0;
      for i := 0 to |read|
        invariant SaveLimits(old(Tables()), read[..i]) == (Tables(), changed)
      {
        assert read[..i + 1][..i] == read[..i];
        var n := InsertLimitEvent(read[i]);
        changed := changed + n;
      }
      assert read[..|read|] == read;
    }

    /** IngestFile's loop over the parsed events. */
    method UpsertEvents(read: seq<UsageEvent>) returns (changed: nat)
      modifies this
      ensures SaveEvents(old(Tables()), read) == (Tables(), changed)
    {
      changed := 0;
      for i := 0 to |read|
        invariant SaveEvents(old(Tables()), read[..i]) == (Tables(), changed)
      {
        assert read[..i + 1][..i] == read[..i];
        var e := read[i];
        if e.dedupeKey !in events {
          events := events[e.dedupeKey := FirstRow(e)];
          Queue(EventPayload(SyncEvent(e, "")));
        } else {
          var row := events[e.dedupeKey];
          if !Takes(row, e) {
            continue;
          }
          events := events[e.dedupeKey := Merge(row, e)];
          Queue(EventPayload(SyncEvent(e, PreviousRef(row, e))));
        }
        changed := changed + 1;
      }
      assert read[..|read|] == read;
    }

    method InsertLimitEvent(l: LimitEvent) returns (n: nat)
      modifies this
      ensures SaveLimit(old(Tables()), l) == (Tables(), n)
    {
      if l.dedupeKey in limits {
        return 0;
      }
      limits := limits[l.dedupeKey := l];
      Queue(LimitPayload(l));
      return 1;
    }

    method InsertSnapshot(snap: Snapshot) returns (n: nat)
      modifies this
      ensures SaveReading(old(Tables()), snap) == (Tables(), n)
    {
      if KeyOf(snap) in readings {
        return 0;
      }
      readings := readings[KeyOf(snap) := Reading(snap.buckets, snap.planType, snap.hint)];
      Queue(SnapshotPayload(SyncSnapshot(snap, "")));
      return 1;
    }

    method CorrectSnapshot(snap: Snapshot) returns (corrected: bool)
      modifies this
      ensures CorrectReading(old(Tables()), snap) == (Tables(), corrected)
    {
      var key := KeyOf(snap);
      var previousRefs := set k | k in readings && k == key.(accountRef := k.accountRef)
          && readings[k].buckets == snap.buckets :: k.accountRef;
      assert previousRefs == RecordedOn(Tables(), snap);
      if |previousRefs| != 1 || TheOne(previousRefs) == snap.accountRef {
        return false;
      }
      var previous := TheOne(previousRefs);
      readings := readings - {key.(accountRef := previous)};
      Queue(SnapshotPayload(SyncSnapshot(snap, previous)));
      var _ := InsertSnapshot(snap);
      return true;
    }

    method PendingOutbox(limit: nat) returns (items: seq<OutboxItem>)
      ensures items == Pending(Tables(), limit)
      ensures ValidOutbox(Tables()) ==> OldestOf(items, outbox, limit)
    {
      items := if |outbox| <= limit then outbox else outbox[..limit];
      if ValidOutbox(Tables()) {
        PendingOldest(Tables(), limit);
      }
    }

    method DeleteOutboxThrough(id: nat)
      modifies `outbox
      ensures Tables() == DeleteThrough(old(Tables()), id)
      ensures forall it :: it in outbox <==> it in old(outbox) && it.id > id
      ensures old(ValidOutbox(Tables())) ==>
          ValidOutbox(Tables()) && exists n: nat :: TailAfter(outbox, old(outbox), id, n)
    {
      AfterKeeps(outbox, id);
      if ValidOutbox(Tables()) {
        var n := AfterIsTail(outbox, id);
      }
      outbox := After(outbox, id);
    }

    method ResetLedger() returns (ghost signInOrder: seq<SignInKey>, ghost readingOrder: seq<ReadingKey>)
      modifies this
      ensures ResetOrders(old(Tables()), signInOrder, readingOrder)
      ensures Tables() == Reset(old(Tables()), signInOrder, readingOrder)
    {
      events, files, outbox, limits := map[], map[], [], map[];
      assert PooledSignIns(Tables()) == PooledSignIns(old(Tables()));
      signInOrder := RequeueObservations();
      readingOrder := RequeueSnapshots();
    }

    method RequeueObservations() returns (ghost order: seq<SignInKey>)
      modifies `outbox, `nextId
      ensures Lists(order, PooledSignIns(old(Tables())), SignInTime)
      ensures forall k :: k in order ==> k in signIns
      ensures Tables() == EnqueueAll(old(Tables()), SignInPayloads(signIns, order))
    {
      var pooled := set k | k in signIns && signIns[k].accountRef != "";
      assert pooled == PooledSignIns(Tables());
      ListingExists(pooled, SignInTime);
      var rows: seq<SignInKey> :| Lists(rows, pooled, SignInTime);
      ListsMembers(rows, pooled, SignInTime);
      assert forall k :: k in rows ==> k in pooled && k in signIns;
      for i := 0 to |rows|
        invariant Tables() == EnqueueAll(old(Tables()), SignInPayloads(signIns, rows[..i]))
      {
        assert rows[..i + 1][..i] == rows[..i];
        Queue(SignInPayload(rows[i], signIns[rows[i]]));
      }
      assert rows[..|rows|] == rows;
      order := rows;
    }

    method RequeueSnapshots() returns (ghost order: seq<ReadingKey>)
      modifies `outbox, `nextId
      ensures Lists(order, readings.Keys, ReadingTime)
      ensures forall k :: k in order ==> k in readings
      ensures Tables() == EnqueueAll(old(Tables()), ReadingPayloads(readings, order))
    {
      ListingExists(readings.Keys, ReadingTime);
      var rows: seq<ReadingKey> :| Lists(rows, readings.Keys, ReadingTime);
      ListsMembers(rows, readings.Keys, ReadingTime);
      for i := 0 to |rows|
        invariant Tables() == EnqueueAll(old(Tables()), ReadingPayloads(readings, rows[..i]))
      {
        assert rows[..i + 1][..i] == rows[..i];
        Queue(ReadingPayload(rows[i], readings[rows[i]]));
      }
      assert rows[..|rows|] == rows;
      order := rows;
    }
  }
}
