/** What each change to a device's ledger leaves in its tables and its queue,
    told by what is in them before and after. */
module LocalEffects {
  import opened Records
  import opened ClientLedger

  /** milli is t as the tables keep it: the whole millisecond it falls in. */
  predicate InMilli(milli: Time, t: Time) {
    milli % 1_000_000 == 0 && milli <= t < milli + 1_000_000
  }

  /** The items were queued last, in order, under the next ids. */
  ghost predicate Queued(s: Local, s': Local, ps: seq<Payload>) {
    && s'.nextId == s.nextId + |ps| && |s'.outbox| == |s.outbox| + |ps| && s.outbox <= s'.outbox
    && forall i :: 0 <= i < |ps| ==> s'.outbox[|s.outbox| + i] == OutboxItem(s.nextId + i, ps[i])
  }

  /** Every row but that of the key is as it was. */
  ghost predicate OnlyAt<K(!new), V(!new)>(m: map<K, V>, m': map<K, V>, key: K) {
    forall k :: k != key ==> (k in m' <==> k in m) && (k in m ==> m'[k] == m[k])
  }

  // ------------------------------------------------------------------ requests

  /** row is the request as it was read, its time in whole milliseconds. */
  ghost predicate RowOf(row: UsageEvent, e: UsageEvent) {
    && InMilli(row.occurredAt, e.occurredAt) && row.dedupeKey == e.dedupeKey && row.accountRef == e.accountRef
    && row.provider == e.provider && row.product == e.product && row.originator == e.originator
    && row.session == e.session && row.model == e.model && row.tokens == e.tokens
    && row.thirdParty == e.thirdParty && row.gateway == e.gateway && row.requestId == e.requestId
    && row.parentRequestId == e.parentRequestId && row.effort == e.effort && row.status == e.status
    && row.aggregated == e.aggregated
  }

  predicate Filled(now: string, was: string, offered: string) {
    now == if was != "" then was else offered
  }

  predicate Higher(now: int, was: int, offered: int) {
    now >= was && now >= offered && now in {was, offered}
  }

  /** What a row learns from another reading of its request: its account, more
      output, and evidence it had none of. Everything else stays. */
  ghost predicate Learned(now: UsageEvent, was: UsageEvent, e: UsageEvent) {
    && now.accountRef == e.accountRef
    && Higher(now.tokens.output, was.tokens.output, e.tokens.output)
    && Higher(now.tokens.reasoning, was.tokens.reasoning, e.tokens.reasoning)
    && now.tokens.input == was.tokens.input && now.tokens.cachedInput == was.tokens.cachedInput
    && now.tokens.cacheWrite == was.tokens.cacheWrite
    && Filled(now.requestId, was.requestId, e.requestId)
    && Filled(now.parentRequestId, was.parentRequestId, e.parentRequestId)
    && Filled(now.effort, was.effort, e.effort) && Filled(now.status, was.status, e.status)
    && (now.aggregated <==> was.aggregated || e.aggregated)
    && now.dedupeKey == was.dedupeKey && now.provider == was.provider && now.product == was.product
    && now.originator == was.originator && now.session == was.session && now.model == was.model
    && now.occurredAt == was.occurredAt && now.thirdParty == was.thirdParty && now.gateway == was.gateway
  }

  /** A reading of a request already in the ledger counts when it has more
      output, a request id or an effort the row has not, on the row's account;
      or comes from the row's own session and entrypoint, on another. */
  ghost predicate Counts(row: UsageEvent, e: UsageEvent) {
    if e.accountRef == row.accountRef then
      || e.tokens.output > row.tokens.output
      || (e.requestId != "" && row.requestId == "")
      || (e.effort != "" && row.effort == "")
    else e.session == row.session && e.originator == row.originator
  }

  /** A request is stored as read the first time, and learns from readings that
      count; each of these is queued for the server, with the account it was on
      before when that changed, and no other. */
  lemma RequestSaved(s: Local, e: UsageEvent)
    ensures var (s', n) := SaveEvent(s, e);
      && (e.dedupeKey !in s.events ==>
            && n == 1 && Queued(s, s', [EventPayload(SyncEvent(e, ""))]) && OnlyAt(s.events, s'.events, e.dedupeKey)
            && e.dedupeKey in s'.events && RowOf(s'.events[e.dedupeKey], e))
      && (e.dedupeKey in s.events && Counts(s.events[e.dedupeKey], e) ==>
            && n == 1 && OnlyAt(s.events, s'.events, e.dedupeKey)
            && e.dedupeKey in s'.events && Learned(s'.events[e.dedupeKey], s.events[e.dedupeKey], e)
            && var was := s.events[e.dedupeKey].accountRef;
               Queued(s, s', [EventPayload(SyncEvent(e, if was == e.accountRef then "" else was))]))
      && (e.dedupeKey in s.events && !Counts(s.events[e.dedupeKey], e) ==> s' == s && n == 0)
      && s' == s.(events := s'.events, outbox := s'.outbox, nextId := s'.nextId)
  {
  }

  // ------------------------------------------------------- sign-ins and limits

  /** A sign-in is kept once, under its millisecond, and queued only when it is
      on a pooled account. */
  lemma SignInSaved(s: Local, o: Observation, milli: Time)
    requires InMilli(milli, o.observedAt)
    ensures var s', key := Observe(s, o), SignInKey(o.provider, o.source, milli);
      && s' == s.(signIns := s'.signIns, outbox := s'.outbox, nextId := s'.nextId)
      && if key in s.signIns then s' == s
         else
           && OnlyAt(s.signIns, s'.signIns, key) && key in s'.signIns
           && s'.signIns[key] == SignIn(o.accountRef, o.hint, o.planType)
           && Queued(s, s', if o.accountRef == "" then [] else [ObservationPayload(o)])
  {
    MilliIs(milli, o.observedAt);
  }

  lemma MilliIs(milli: Time, t: Time)
    requires InMilli(milli, t)
    ensures milli == CutToMilli(t)
  {
  }

  lemma LimitSaved(s: Local, l: LimitEvent)
    ensures var (s', n) := SaveLimit(s, l);
      && (if l.dedupeKey in s.limits then s' == s && n == 0
          else
            && n == 1 && OnlyAt(s.limits, s'.limits, l.dedupeKey) && l.dedupeKey in s'.limits
            && s'.limits[l.dedupeKey] == l && Queued(s, s', [LimitPayload(l)]))
      && s' == s.(limits := s'.limits, outbox := s'.outbox, nextId := s'.nextId)
  {
  }

  // ------------------------------------------------------------------ readings

  /** The row of the reading, kept under its millisecond. */
  predicate RowKey(k: ReadingKey, snap: Snapshot) {
    && k.provider == snap.provider && k.accountRef == snap.accountRef && k.source == snap.source
    && InMilli(k.observedAt, snap.observedAt)
  }

  lemma RowKeyIs(k: ReadingKey, snap: Snapshot)
    ensures RowKey(k, snap) <==> k == KeyOf(snap)
  {
    if RowKey(k, snap) {
      MilliIs(k.observedAt, snap.observedAt);
    }
  }

  /** The first reading of an account, source and time stays as it was read. */
  lemma ReadingSaved(s: Local, snap: Snapshot, key: ReadingKey)
    requires RowKey(key, snap)
    ensures var (s', n) := SaveReading(s, snap);
      && (if key in s.readings then s' == s && n == 0
          else
            && n == 1 && OnlyAt(s.readings, s'.readings, key) && key in s'.readings
            && s'.readings[key].buckets == snap.buckets && s'.readings[key].planType == snap.planType
            && s'.readings[key].hint == snap.hint
            && Queued(s, s', [SnapshotPayload(SyncSnapshot(snap, ""))]))
      && s' == s.(readings := s'.readings, outbox := s'.outbox, nextId := s'.nextId)
  {
    RowKeyIs(key, snap);
  }

  /** The row holds the reading, whatever its account. */
  ghost predicate Holds(s: Local, k: ReadingKey, snap: Snapshot) {
    && k in s.readings && s.readings[k].buckets == snap.buckets
    && k.provider == snap.provider && k.source == snap.source && InMilli(k.observedAt, snap.observedAt)
  }

  /** The row is the only one to hold the reading. */
  ghost predicate OnlyHolder(s: Local, k: ReadingKey, snap: Snapshot) {
    Holds(s, k, snap) && forall j :: Holds(s, j, snap) ==> j == k
  }

  ghost predicate SameButAccount(k: ReadingKey, snap: Snapshot) {
    k == KeyOf(snap).(accountRef := k.accountRef)
  }

  lemma HoldersAre(s: Local, snap: Snapshot)
    ensures forall k :: Holds(s, k, snap) <==> SameButAccount(k, snap) && k.accountRef in RecordedOn(s, snap)
  {
    forall k | Holds(s, k, snap) ensures SameButAccount(k, snap) {
      RowKeyIs(k, snap.(accountRef := k.accountRef));
    }
    forall k | SameButAccount(k, snap) ensures InMilli(k.observedAt, snap.observedAt) {
      RowKeyIs(k, snap.(accountRef := k.accountRef));
    }
  }

  lemma OneHolder(s: Local, snap: Snapshot)
    ensures |RecordedOn(s, snap)| == 1 ==>
        OnlyHolder(s, KeyOf(snap).(accountRef := TheOne(RecordedOn(s, snap))), snap)
    ensures forall k :: OnlyHolder(s, k, snap) ==> RecordedOn(s, snap) == {k.accountRef}
  {
    HoldersAre(s, snap);
    hide RecordedOn, Holds;
    forall k | OnlyHolder(s, k, snap) ensures RecordedOn(s, snap) == {k.accountRef} {
      forall ref | ref in RecordedOn(s, snap) ensures ref == k.accountRef {
        assert Holds(s, k.(accountRef := ref), snap);
      }
    }
  }

  /** A correction applies exactly when one row holds the reading and it is
      another account's. */
  lemma CorrectionApplies(s: Local, snap: Snapshot)
    ensures var (s', corrected) := CorrectReading(s, snap);
      && (corrected <==> exists k :: OnlyHolder(s, k, snap) && k.accountRef != snap.accountRef)
      && (!corrected ==> s' == s)
  {
    OneHolder(s, snap);
    hide OnlyHolder, RecordedOn, SaveReading;
    forall k | OnlyHolder(s, k, snap)
        ensures |RecordedOn(s, snap)| == 1 && TheOne(RecordedOn(s, snap)) == k.accountRef {
    }
  }

  /** It removes that row and queues the reading with the account it was on;
      then the reading's own row is there, stored and queued when it was not. */
  lemma CorrectionMoves(s: Local, snap: Snapshot, k: ReadingKey, key: ReadingKey)
    requires RowKey(key, snap) && OnlyHolder(s, k, snap) && k.accountRef != snap.accountRef
    ensures CorrectReading(s, snap).1 && Moved(s, CorrectReading(s, snap).0, snap, k, key)
  {
    RowKeyIs(key, snap);
    OneHolder(s, snap);
    HoldersAre(s, snap);
    assert Holds(s, k, snap);
    hide OnlyHolder, RecordedOn, Moved, Holds, SaveReading;
    MovesRow(s, snap, k, key);
  }

  /** From the row k to the row key. */
  ghost predicate Moved(s: Local, s': Local, snap: Snapshot, k: ReadingKey, key: ReadingKey) {
    var taken := SnapshotPayload(SyncSnapshot(snap, k.accountRef));
    && s' == s.(readings := s'.readings, outbox := s'.outbox, nextId := s'.nextId)
    && k !in s'.readings && key in s'.readings
    && (forall j :: j != k && j != key ==> (j in s'.readings <==> j in s.readings))
    && (forall j :: j in s.readings && j in s'.readings ==> s'.readings[j] == s.readings[j])
    && if key in s.readings then Queued(s, s', [taken])
       else
         && s'.readings[key] == Reading(snap.buckets, snap.planType, snap.hint)
         && Queued(s, s', [taken, SnapshotPayload(SyncSnapshot(snap, ""))])
  }

  lemma MovesRow(s: Local, snap: Snapshot, k: ReadingKey, key: ReadingKey)
    requires key == KeyOf(snap) && k == key.(accountRef := k.accountRef) && k.accountRef != snap.accountRef
    requires RecordedOn(s, snap) == {k.accountRef}
    ensures CorrectReading(s, snap).1 && Moved(s, CorrectReading(s, snap).0, snap, k, key)
  {
    var s1 := s.(readings := s.readings - {k});
    var taken := SnapshotPayload(SyncSnapshot(snap, k.accountRef));
    assert TheOne(RecordedOn(s, snap)) == k.accountRef;
    hide RecordedOn;
    assert CorrectReading(s, snap) == (SaveReading(Enqueue(s1, taken), snap).0, true);
    assert key.accountRef == snap.accountRef;
    hide CorrectReading, SaveReading, Moved;
    SavedAfter(s, snap, k, key);
  }

  lemma SavedAfter(s: Local, snap: Snapshot, k: ReadingKey, key: ReadingKey)
    requires key == KeyOf(snap) && k != key
    ensures var taken := SnapshotPayload(SyncSnapshot(snap, k.accountRef));
            Moved(s, SaveReading(Enqueue(s.(readings := s.readings - {k}), taken), snap).0, snap, k, key)
  {
  }

  // --------------------------------------------------------------------- files

  /** What a file's transaction leaves behind: the file as scanned, a row for
      every request, reading and limit hit in it, and a queued item for each
      change it counts. */
  lemma FileSaved(s: Local, scan: Scan)
    ensures var (s', n) := IngestScan(s, scan);
      && s'.files == s.files[scan.path := scan.state] && s'.signIns == s.signIns
      && (forall e :: e in scan.events ==> e.dedupeKey in s'.events)
      && (forall snap :: snap in scan.snapshots ==> exists k :: k in s'.readings && RowKey(k, snap))
      && (forall l :: l in scan.limits ==> l.dedupeKey in s'.limits)
      && Grew(s, s', n)
  {
    var (s1, n1) := SaveEvents(s, scan.events);
    var (s2, n2) := SaveReadings(s1, scan.snapshots);
    EventsSaved(s, scan.events);
    ReadingsSaved(s1, scan.snapshots);
    LimitsSaved(s2, scan.limits);
    hide RowKey;
  }

  /** The queue grew by so many items. */
  ghost predicate Grew(s: Local, s': Local, n: nat) {
    s.outbox <= s'.outbox && |s'.outbox| == |s.outbox| + n && s'.nextId == s.nextId + n
  }

  /** Only the queue and the events change, the queue by as many items as counted. */
  lemma {:induction false} EventsSaved(s: Local, es: seq<UsageEvent>)
    ensures var (s', n) := SaveEvents(s, es);
      && (forall e :: e in es ==> e.dedupeKey in s'.events) && s.events.Keys <= s'.events.Keys
      && s' == s.(events := s'.events, outbox := s'.outbox, nextId := s'.nextId) && Grew(s, s', n)
  {
    if es != [] {
      var m := |es| - 1;
      EventsSaved(s, es[..m]);
      assert es == es[..m] + [es[m]];
      OneEventSaved(SaveEvents(s, es[..m]).0, es[m]);
      hide SaveEvent;
    }
  }

  lemma OneEventSaved(s: Local, e: UsageEvent)
    ensures var (s', n) := SaveEvent(s, e);
      && e.dedupeKey in s'.events && s.events.Keys <= s'.events.Keys
      && s' == s.(events := s'.events, outbox := s'.outbox, nextId := s'.nextId) && Grew(s, s', n)
  {
    hide Takes, FirstRow, Merge, PreviousRef;
  }

  lemma {:induction false} ReadingsSaved(s: Local, snaps: seq<Snapshot>)
    ensures var (s', n) := SaveReadings(s, snaps);
      && (forall snap :: snap in snaps ==> exists k :: k in s'.readings && RowKey(k, snap))
      && s.readings.Keys <= s'.readings.Keys
      && s' == s.(readings := s'.readings, outbox := s'.outbox, nextId := s'.nextId)
      && Grew(s, s', n)
  {
    if snaps != [] {
      var m := |snaps| - 1;
      ReadingsSaved(s, snaps[..m]);
      assert snaps == snaps[..m] + [snaps[m]];
      OneReadingSaved(SaveReadings(s, snaps[..m]).0, snaps[m]);
      hide RowKey, SaveReading;
    }
  }

  lemma OneReadingSaved(s: Local, snap: Snapshot)
    ensures var (s', n) := SaveReading(s, snap);
      && (exists k :: k in s'.readings && RowKey(k, snap)) && s.readings.Keys <= s'.readings.Keys
      && s' == s.(readings := s'.readings, outbox := s'.outbox, nextId := s'.nextId) && Grew(s, s', n)
  {
    RowKeyIs(KeyOf(snap), snap);
    hide RowKey;
  }

  lemma {:induction false} LimitsSaved(s: Local, ls: seq<LimitEvent>)
    ensures var (s', n) := SaveLimits(s, ls);
      && (forall l :: l in ls ==> l.dedupeKey in s'.limits) && s.limits.Keys <= s'.limits.Keys
      && s' == s.(limits := s'.limits, outbox := s'.outbox, nextId := s'.nextId)
      && Grew(s, s', n)
  {
    if ls != [] {
      var m := |ls| - 1;
      LimitsSaved(s, ls[..m]);
      assert ls == ls[..m] + [ls[m]];
      LimitSaved(SaveLimits(s, ls[..m]).0, ls[m]);
      hide SaveLimit;
    }
  }

  /** Requests are saved one after the other, as they were read. */
  lemma {:induction false} EventsInTurn(s: Local, a: seq<UsageEvent>, b: seq<UsageEvent>)
    ensures var (s1, n) := SaveEvents(s, a);
            var (s2, m) := SaveEvents(s1, b);
            SaveEvents(s, a + b) == (s2, n + m)
  {
    hide SaveEvent;
    if b == [] {
      assert a + b == a;
    } else {
      var k := |b| - 1;
      assert (a + b)[..|a + b| - 1] == a + b[..k];
      EventsInTurn(s, a, b[..k]);
    }
  }

  /** So are readings, of which the first stays. */
  lemma {:induction false} ReadingsInTurn(s: Local, a: seq<Snapshot>, b: seq<Snapshot>)
    ensures var (s1, n) := SaveReadings(s, a);
            var (s2, m) := SaveReadings(s1, b);
            SaveReadings(s, a + b) == (s2, n + m)
  {
    hide SaveReading;
    if b == [] {
      assert a + b == a;
    } else {
      var k := |b| - 1;
      assert (a + b)[..|a + b| - 1] == a + b[..k];
      ReadingsInTurn(s, a, b[..k]);
    }
  }
}
