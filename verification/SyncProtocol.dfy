/** A device and the server as steps: the device's transactions, uploaders
    that read, send and delete batches, answers that get lost, crashes, ledger
    resets, and other devices' batches in between. */
module SyncProtocol {
  import opened Records
  import opened Sorting
  import opened ClientLedger
  import Server = ServerLedger
  import History = LedgerHistory

  const BATCH_SIZE: nat := 500

  /** Where an upload loop stands: nothing read; a batch read and sent; the
      batch committed by the server, whose answer may still get lost. */
  datatype Uploader = Idle | Sending(batch: seq<OutboxItem>) | Accepted(batch: seq<OutboxItem>)

  datatype World = World(
    device: Server.Device,
    local: Local,
    server: Server.Ledger,
    uploaders: map<nat, Uploader>,
    /** Every item queued since the last reset. */
    log: seq<OutboxItem>,
    /** Every file ingested since the last reset. */
    scans: seq<Scan>,
    /** Every batch the server committed. */
    history: seq<History.Delivery>,
    /** The items of each batch of this device that the server committed. */
    sent: seq<seq<OutboxItem>>)

  datatype Step =
    | SignInSeen(o: Observation)
    | FileScanned(scan: Scan)
    | ReadingAdded(snap: Snapshot)
    | ReadingCorrected(snap: Snapshot)
    | LedgerReset(signIns: seq<SignInKey>, readings: seq<ReadingKey>)
    | BatchRead(u: nat)
    | BatchCommitted(u: nat)
    | BatchDeleted(u: nat)
    /** A crash, a failed request or a lost answer. */
    | UploaderStopped(u: nat)
    | CommittedElsewhere(device: Server.Device, request: SyncRequest)

  // ----------------------------------------------------------------- requests

  /** batchRequest: sorts a batch's payloads by kind, keeping their order. */
  function BatchRequest(items: seq<OutboxItem>): SyncRequest {
    if items == [] then SyncRequest([], [], [], [])
    else
      var r := BatchRequest(items[..|items| - 1]);
      match items[|items| - 1].payload
      case ObservationPayload(o) => r.(observations := r.observations + [o])
      case EventPayload(e) => r.(events := r.events + [e])
      case SnapshotPayload(s) => r.(snapshots := r.snapshots + [s])
      case LimitPayload(l) => r.(limits := r.limits + [l])
  }

  predicate Carries(r: SyncRequest, p: Payload) {
    match p
    case ObservationPayload(o) => o in r.observations
    case EventPayload(e) => e in r.events
    case SnapshotPayload(s) => s in r.snapshots
    case LimitPayload(l) => l in r.limits
  }

  lemma {:induction false} BatchCarriesItems(items: seq<OutboxItem>)
    ensures forall it :: it in items ==> Carries(BatchRequest(items), it.payload)
  {
    if items != [] {
      var n := |items| - 1;
      BatchCarriesItems(items[..n]);
      assert items == items[..n] + [items[n]];
    }
  }

  /** A batch of two parts sends each kind's items of the first, then those of
      the second: what was queued in an order is sent in that order. */
  lemma {:induction false} BatchConcat(a: seq<OutboxItem>, b: seq<OutboxItem>)
    ensures var r, x, y := BatchRequest(a + b), BatchRequest(a), BatchRequest(b);
      && r.observations == x.observations + y.observations && r.events == x.events + y.events
      && r.snapshots == x.snapshots + y.snapshots && r.limits == x.limits + y.limits
  {
    if b == [] {
      assert a + b == a;
    } else {
      var n := |b| - 1;
      BatchConcat(a, b[..n]);
      assert (a + b)[..|a + b| - 1] == a + b[..n];
    }
  }

  lemma BatchOfOne(it: OutboxItem)
    ensures BatchRequest([it]) == match it.payload
      case ObservationPayload(o) => SyncRequest([o], [], [], [])
      case EventPayload(e) => SyncRequest([], [e], [], [])
      case SnapshotPayload(s) => SyncRequest([], [], [s], [])
      case LimitPayload(l) => SyncRequest([], [], [], [l])
  {
    assert [it][..0] == [] && BatchRequest([]) == SyncRequest([], [], [], []);
  }

  /** Of two queued readings the one queued first is sent first, as a
      correction and what follows it must be. */
  lemma ReadingsInOrder(items: seq<OutboxItem>, i: nat, j: nat) returns (k: nat, m: nat)
    requires i < j < |items| && items[i].payload.SnapshotPayload? && items[j].payload.SnapshotPayload?
    ensures var sent := BatchRequest(items).snapshots;
      k < m < |sent| && sent[k] == items[i].payload.snapshot && sent[m] == items[j].payload.snapshot
  {
    var r1, r2 := BatchRequest(items[..i]).snapshots, BatchRequest(items[i + 1..j]).snapshots;
    var r3 := BatchRequest(items[j + 1..]).snapshots;
    var a, b := items[i].payload.snapshot, items[j].payload.snapshot;
    assert items == items[..i] + ([items[i]] + (items[i + 1..j] + ([items[j]] + items[j + 1..])));
    BatchConcat(items[..i], [items[i]] + (items[i + 1..j] + ([items[j]] + items[j + 1..])));
    BatchConcat([items[i]], items[i + 1..j] + ([items[j]] + items[j + 1..]));
    BatchConcat(items[i + 1..j], [items[j]] + items[j + 1..]);
    BatchConcat([items[j]], items[j + 1..]);
    BatchOfOne(items[i]);
    BatchOfOne(items[j]);
    hide BatchRequest;
    k, m := |r1|, |r1| + 1 + |r2|;
    assert BatchRequest(items).snapshots == r1 + ([a] + (r2 + ([b] + r3)));
  }

  // -------------------------------------------------------------------- steps

  function UploaderOf(w: World, u: nat): Uploader {
    if u in w.uploaders then w.uploaders[u] else Idle
  }

  /** The world after one of the device's own transactions: they only append to the outbox. */
  function WithLocal(w: World, s: Local): World {
    w.(local := s, log := w.log + s.outbox[Records.Min(|w.local.outbox|, |s.outbox|)..])
  }

  function LastId(batch: seq<OutboxItem>): nat {
    if batch == [] then 0 else batch[|batch| - 1].id
  }

  function ReadBatch(w: World, u: nat): World {
    var batch := Pending(w.local, BATCH_SIZE);
    if UploaderOf(w, u).Idle? && batch != [] then w.(uploaders := w.uploaders[u := Sending(batch)]) else w
  }

  function CommitBatch(w: World, u: nat): World {
    var up := UploaderOf(w, u);
    if up.Sending? then
      Commit(w, w.device, BatchRequest(up.batch)).(
        uploaders := w.uploaders[u := Accepted(up.batch)], sent := w.sent + [up.batch])
    else w
  }

  function DeleteBatch(w: World, u: nat): World {
    var up := UploaderOf(w, u);
    if up.Accepted? then
      w.(local := DeleteThrough(w.local, LastId(up.batch)), uploaders := w.uploaders[u := Idle])
    else w
  }

  function StopUploader(w: World, u: nat): World {
    w.(uploaders := w.uploaders[u := Idle])
  }

  function ResetWorld(w: World, signIns: seq<SignInKey>, readings: seq<ReadingKey>): World {
    if ResetOrders(w.local, signIns, readings) then
      var s := Reset(w.local, signIns, readings);
      w.(local := s, log := s.outbox, scans := [])
    else w
  }

  /** One step; a step that cannot be taken changes nothing. */
  function Take(w: World, step: Step): World {
    match step
    case SignInSeen(o) => WithLocal(w, Observe(w.local, o))
    case FileScanned(scan) => WithLocal(w, IngestScan(w.local, scan).0).(scans := w.scans + [scan])
    case ReadingAdded(snap) => WithLocal(w, SaveReading(w.local, snap).0)
    case ReadingCorrected(snap) => WithLocal(w, CorrectReading(w.local, snap).0)
    case LedgerReset(signIns, readings) => ResetWorld(w, signIns, readings)
    case BatchRead(u) => ReadBatch(w, u)
    case BatchCommitted(u) => CommitBatch(w, u)
    case BatchDeleted(u) => DeleteBatch(w, u)
    case UploaderStopped(u) => StopUploader(w, u)
    case CommittedElsewhere(d, request) => Commit(w, d, request)
  }

  /** The server's transaction over one batch. */
  function Commit(w: World, d: Server.Device, request: SyncRequest): World {
    w.(server := Server.IngestBatch(w.server, d, request).ledger,
       history := w.history + [History.Delivery(d, request)])
  }

  function Steps(w: World, steps: seq<Step>): World {
    if steps == [] then w else Take(Steps(w, steps[..|steps| - 1]), steps[|steps| - 1])
  }

  /** A device that has read nothing yet, joined to any server. */
  function Start(device: Server.Device, server: Server.Ledger): World {
    World(device, EMPTY, server, map[], [], [], [], [])
  }

  // ------------------------------------------------------------ appending only

  /** s' is s with items queued behind what was there, under the next ids. */
  ghost predicate Appends(s: Local, s': Local) {
    && |s.outbox| <= |s'.outbox| && s'.outbox[..|s.outbox|] == s.outbox
    && s'.nextId == s.nextId + |s'.outbox| - |s.outbox|
    && forall i :: |s.outbox| <= i < |s'.outbox| ==> s'.outbox[i].id == s.nextId + i - |s.outbox|
  }

  lemma AppendsThen(s: Local, s1: Local, s2: Local)
    requires Appends(s, s1) && Appends(s1, s2)
    ensures Appends(s, s2)
  {
    assert s2.outbox[..|s.outbox|] == s2.outbox[..|s1.outbox|][..|s.outbox|];
    forall i | |s.outbox| <= i < |s1.outbox| ensures s2.outbox[i] == s1.outbox[i] {
      assert s2.outbox[i] == s2.outbox[..|s1.outbox|][i];
    }
  }

  lemma AppendsValid(s: Local, s': Local)
    requires ValidOutbox(s) && Appends(s, s')
    ensures ValidOutbox(s')
  {
    forall i | 0 <= i < |s.outbox| ensures s'.outbox[i] == s.outbox[i] {
      assert s'.outbox[i] == s'.outbox[..|s.outbox|][i];
    }
  }

  lemma {:induction false} SaveEventsAppends(s: Local, es: seq<UsageEvent>)
    ensures Appends(s, SaveEvents(s, es).0)
  {
    hide Merge, Takes, PreviousRef, FirstRow;
    if es != [] {
      SaveEventsAppends(s, es[..|es| - 1]);
      var s1 := SaveEvents(s, es[..|es| - 1]).0;
      AppendsThen(s, s1, SaveEvent(s1, es[|es| - 1]).0);
    }
  }

  lemma {:induction false} SaveReadingsAppends(s: Local, snaps: seq<Snapshot>)
    ensures Appends(s, SaveReadings(s, snaps).0)
  {
    if snaps != [] {
      SaveReadingsAppends(s, snaps[..|snaps| - 1]);
      var s1 := SaveReadings(s, snaps[..|snaps| - 1]).0;
      AppendsThen(s, s1, SaveReading(s1, snaps[|snaps| - 1]).0);
    }
  }

  lemma {:induction false} SaveLimitsAppends(s: Local, ls: seq<LimitEvent>)
    ensures Appends(s, SaveLimits(s, ls).0)
  {
    if ls != [] {
      SaveLimitsAppends(s, ls[..|ls| - 1]);
      var s1 := SaveLimits(s, ls[..|ls| - 1]).0;
      AppendsThen(s, s1, SaveLimit(s1, ls[|ls| - 1]).0);
    }
  }

  lemma IngestScanAppends(s: Local, scan: Scan)
    ensures Appends(s, IngestScan(s, scan).0)
  {
    SaveEventsAppends(s, scan.events);
    var s1 := SaveEvents(s, scan.events).0;
    SaveReadingsAppends(s1, scan.snapshots);
    var s2 := SaveReadings(s1, scan.snapshots).0;
    SaveLimitsAppends(s2, scan.limits);
    AppendsThen(s, s1, s2);
    AppendsThen(s, s2, SaveLimits(s2, scan.limits).0);
  }

  /** The device's own transactions. */
  predicate IsLocal(step: Step) {
    step.SignInSeen? || step.FileScanned? || step.ReadingAdded? || step.ReadingCorrected?
  }

  lemma ObserveAppends(s: Local, o: Observation)
    ensures Appends(s, Observe(s, o))
  {
  }

  lemma SaveReadingAppends(s: Local, snap: Snapshot)
    ensures Appends(s, SaveReading(s, snap).0)
  {
  }

  lemma LocalStepAppends(w: World, step: Step)
    requires IsLocal(step)
    ensures Appends(w.local, Take(w, step).local)
    ensures Take(w, step).log == w.log + Take(w, step).local.outbox[|w.local.outbox|..]
  {
    hide IngestScan, CorrectReading, SaveReading, Observe;
    match step
    case SignInSeen(o) => ObserveAppends(w.local, o);
    case FileScanned(scan) => IngestScanAppends(w.local, scan);
    case ReadingAdded(snap) => SaveReadingAppends(w.local, snap);
    case ReadingCorrected(snap) => CorrectReadingAppends(w.local, snap);
  }

  lemma CorrectReadingAppends(s: Local, snap: Snapshot)
    ensures Appends(s, CorrectReading(s, snap).0)
  {
    if CorrectReading(s, snap).1 {
      var previous := TheOne(RecordedOn(s, snap));
      var s1 := s.(readings := s.readings - {KeyOf(snap).(accountRef := previous)});
      var s2 := Enqueue(s1, SnapshotPayload(SyncSnapshot(snap, previous)));
      assert Appends(s, s2);
      AppendsThen(s, s2, SaveReading(s2, snap).0);
    }
  }

  lemma {:induction false} EnqueueAllAppends(s: Local, ps: seq<Payload>)
    ensures Appends(s, EnqueueAll(s, ps)) && |EnqueueAll(s, ps).outbox| == |s.outbox| + |ps|
    ensures EnqueueAll(s, ps) == s.(outbox := EnqueueAll(s, ps).outbox, nextId := s.nextId + |ps|)
    ensures forall i :: 0 <= i < |ps| ==> EnqueueAll(s, ps).outbox[|s.outbox| + i].payload == ps[i]
  {
    if ps != [] {
      EnqueueAllAppends(s, ps[..|ps| - 1]);
      AppendsThen(s, EnqueueAll(s, ps[..|ps| - 1]), EnqueueAll(s, ps));
    }
  }

  // --------------------------------------------------------------- nothing lost

  /** The server has committed a batch of this device with this very item in
      it. Ids are never used twice, so that was after the item was queued. */
  ghost predicate Committed(sent: seq<seq<OutboxItem>>, it: OutboxItem) {
    exists batch :: batch in sent && it in batch
  }

  /** An uploader's batch is a prefix of what was pending: nothing with an id
      up to its last is queued that it does not hold. */
  ghost predicate HoldsPrefix(s: Local, batch: seq<OutboxItem>) {
    && batch != [] && LastId(batch) < s.nextId
    && (forall it :: it in batch ==> it.id <= LastId(batch))
    && forall it :: it in s.outbox && it.id <= LastId(batch) ==> it in batch
  }

  ghost predicate SafeQueue(w: World) {
    && ValidOutbox(w.local)
    && (forall it: OutboxItem :: it in w.log ==> it.id < w.local.nextId)
    && (forall it :: it in w.local.outbox ==> it in w.log)
    && (forall it: OutboxItem :: it in w.log ==> it in w.local.outbox || Committed(w.sent, it))
  }

  ghost predicate SafeUploaders(w: World) {
    forall u :: u in w.uploaders ==>
      var up := w.uploaders[u];
      && (!up.Idle? ==> HoldsPrefix(w.local, up.batch))
      && (up.Accepted? ==> up.batch in w.sent)
  }

  /** What was sent went out under ids used by now, in a request the server committed. */
  ghost predicate SafeSent(w: World) {
    forall batch :: batch in w.sent ==>
      && batch != [] && History.Delivery(w.device, BatchRequest(batch)) in w.history
      && forall it :: it in batch ==> it.id < w.local.nextId
  }

  /** A row has the output and the evidence of a reading from its own session and entrypoint. */
  ghost predicate Knows(row: UsageEvent, e: UsageEvent) {
    row.session == e.session && row.originator == e.originator ==>
      && e.tokens.output <= row.tokens.output
      && (e.requestId != "" ==> row.requestId != "")
      && (e.effort != "" ==> row.effort != "")
  }

  /** A scanned file's events are in the ledger, in rows that know them, and so are its limit hits. */
  ghost predicate Saved(s: Local, scan: Scan) {
    && (forall e :: e in scan.events ==> e.dedupeKey in s.events && Knows(s.events[e.dedupeKey], e))
    && (forall l :: l in scan.limits ==> l.dedupeKey in s.limits)
  }

  ghost predicate SafeFiles(s: Local, scans: seq<Scan>) {
    && (forall scan :: scan in scans ==> Saved(s, scan))
    && (forall path :: path in s.files ==> Marked(scans, path, s.files[path]))
  }

  ghost predicate Marked(scans: seq<Scan>, path: string, state: FileState) {
    exists scan: Scan :: scan in scans && scan.path == path && scan.state == state
  }

  ghost predicate Safe(w: World, server: Server.Ledger) {
    && SafeQueue(w) && SafeUploaders(w) && SafeSent(w) && SafeFiles(w.local, w.scans)
    && w.server == History.Run(server, w.history)
  }

  lemma CommitSafe(w: World, server: Server.Ledger, d: Server.Device, request: SyncRequest)
    requires Safe(w, server)
    ensures Safe(Commit(w, d, request), server)
  {
    hide BatchRequest;
    var after := w.history + [History.Delivery(d, request)];
    assert after[..|w.history|] == w.history;
  }

  /** What a local transaction does to the ledger's rows and limit hits. */
  ghost predicate KeepsRows(s: Local, s': Local) {
    && (forall k :: k in s.events ==> k in s'.events && Grows(s.events[k], s'.events[k]))
    && s.limits.Keys <= s'.limits.Keys
  }

  ghost predicate Grows(row: UsageEvent, row': UsageEvent) {
    && row'.session == row.session && row'.originator == row.originator
    && row.tokens.output <= row'.tokens.output
    && (row.requestId != "" ==> row'.requestId != "")
    && (row.effort != "" ==> row'.effort != "")
  }

  lemma SaveEventRows(s: Local, e: UsageEvent)
    ensures var s' := SaveEvent(s, e).0;
            && KeepsRows(s, s') && s'.files == s.files && s'.limits == s.limits
            && e.dedupeKey in s'.events && Knows(s'.events[e.dedupeKey], e)
  {
    if e.dedupeKey in s.events {
      MergedRow(s.events[e.dedupeKey], e);
    }
    hide Merge, Takes, PreviousRef, Knows, Grows;
  }

  lemma MergedRow(row: UsageEvent, e: UsageEvent)
    ensures Grows(row, row) && Grows(row, Merge(row, e)) && Knows(FirstRow(e), e)
    ensures Knows(if Takes(row, e) then Merge(row, e) else row, e)
  {
  }

  lemma {:induction false} SaveEventsRows(s: Local, es: seq<UsageEvent>)
    ensures var s' := SaveEvents(s, es).0;
            && KeepsRows(s, s') && s'.files == s.files && s'.limits == s.limits
            && forall e :: e in es ==> e.dedupeKey in s'.events && Knows(s'.events[e.dedupeKey], e)
  {
    hide SaveEvent;
    if es != [] {
      var n := |es| - 1;
      SaveEventsRows(s, es[..n]);
      SaveEventRows(SaveEvents(s, es[..n]).0, es[n]);
      assert es == es[..n] + [es[n]];
    }
  }

  lemma {:induction false} SaveReadingsKeys(s: Local, snaps: seq<Snapshot>)
    ensures var s' := SaveReadings(s, snaps).0;
            s'.events == s.events && s'.files == s.files && s'.limits == s.limits
  {
    if snaps != [] {
      SaveReadingsKeys(s, snaps[..|snaps| - 1]);
    }
  }

  lemma {:induction false} SaveLimitsKeys(s: Local, ls: seq<LimitEvent>)
    ensures var s' := SaveLimits(s, ls).0;
            && s'.events == s.events && s'.files == s.files && s.limits.Keys <= s'.limits.Keys
            && forall l :: l in ls ==> l.dedupeKey in s'.limits
  {
    if ls != [] {
      SaveLimitsKeys(s, ls[..|ls| - 1]);
      assert ls == ls[..|ls| - 1] + [ls[|ls| - 1]];
    }
  }

  lemma IngestScanSaves(s: Local, scan: Scan)
    ensures var s' := IngestScan(s, scan).0;
            KeepsRows(s, s') && Saved(s', scan) && s'.files == s.files[scan.path := scan.state]
  {
    SaveEventsRows(s, scan.events);
    hide Knows, Grows;
    var s1 := SaveEvents(s, scan.events).0;
    SaveReadingsKeys(s1, scan.snapshots);
    SaveLimitsKeys(SaveReadings(s1, scan.snapshots).0, scan.limits);
  }

  lemma LocalStepKeys(w: World, step: Step)
    requires IsLocal(step)
    ensures var w' := Take(w, step);
            && KeepsRows(w.local, w'.local)
            && (step.FileScanned? ==> Saved(w'.local, step.scan) && w'.scans == w.scans + [step.scan]
                                      && w'.local.files == w.local.files[step.scan.path := step.scan.state])
            && (!step.FileScanned? ==> w'.scans == w.scans && w'.local.files == w.local.files)
            && w' == w.(local := w'.local, log := w'.log, scans := w'.scans)
  {
    hide IngestScan, SaveReading, CorrectReading, Observe;
    match step
    case SignInSeen(o) => ObserveKeys(w.local, o);
    case FileScanned(scan) => IngestScanSaves(w.local, scan);
    case ReadingAdded(snap) => SaveReadingKeys(w.local, snap);
    case ReadingCorrected(snap) => CorrectReadingKeys(w.local, snap);
  }

  lemma ObserveKeys(s: Local, o: Observation)
    ensures var s' := Observe(s, o); s'.events == s.events && s'.files == s.files && s'.limits == s.limits
  {
  }

  lemma SaveReadingKeys(s: Local, snap: Snapshot)
    ensures var s' := SaveReading(s, snap).0; s'.events == s.events && s'.files == s.files && s'.limits == s.limits
  {
  }

  lemma CorrectReadingKeys(s: Local, snap: Snapshot)
    ensures var s' := CorrectReading(s, snap).0; s'.events == s.events && s'.files == s.files && s'.limits == s.limits
  {
  }

  lemma LocalQueueSafe(w: World, s: Local)
    requires SafeQueue(w) && SafeUploaders(w) && SafeSent(w) && Appends(w.local, s)
    ensures SafeQueue(WithLocal(w, s)) && SafeUploaders(WithLocal(w, s)) && SafeSent(WithLocal(w, s))
  {
    hide Committed, BatchRequest;
    AppendsValid(w.local, s);
    var added := s.outbox[|w.local.outbox|..];
    assert s.outbox == w.local.outbox + added;
    assert forall it :: it in added ==> w.local.nextId <= it.id < s.nextId;
  }

  lemma SavedStays(s: Local, s': Local, scan: Scan)
    requires KeepsRows(s, s') && Saved(s, scan)
    ensures Saved(s', scan)
  {
    forall e | e in scan.events ensures e.dedupeKey in s'.events && Knows(s'.events[e.dedupeKey], e) {
      assert Grows(s.events[e.dedupeKey], s'.events[e.dedupeKey]);
    }
  }

  lemma LocalFilesSafe(w: World, step: Step)
    requires SafeFiles(w.local, w.scans) && IsLocal(step)
    ensures SafeFiles(Take(w, step).local, Take(w, step).scans)
  {
    LocalStepKeys(w, step);
    hide Take, KeepsRows, Saved;
    var w' := Take(w, step);
    forall scan | scan in w.scans ensures Saved(w'.local, scan) {
      SavedStays(w.local, w'.local, scan);
    }
    forall path | path in w'.local.files ensures Marked(w'.scans, path, w'.local.files[path]) {
      if step.FileScanned? && path == step.scan.path {
        assert step.scan in w'.scans;
      } else {
        assert Marked(w.scans, path, w.local.files[path]);
      }
    }
  }

  lemma LocalStepSafe(w: World, server: Server.Ledger, step: Step)
    requires Safe(w, server) && IsLocal(step)
    ensures Safe(Take(w, step), server)
  {
    LocalFilesSafe(w, step);
    LocalStepAppends(w, step);
    LocalStepKeys(w, step);
    LocalQueueSafe(w, Take(w, step).local);
    hide Take, Appends, SafeFiles, ValidOutbox, Committed, HoldsPrefix, BatchRequest, History.Run, KeepsRows, Saved;
    var w' := Take(w, step);
    assert WithLocal(w, w'.local) == w'.(scans := w.scans);
  }

  /** Nothing is queued in s' but what the rows of the two tables stand for, in
      the given orders, under ids not used before. */
  ghost predicate Requeued(s: Local, s': Local, signIns: seq<SignInKey>, readings: seq<ReadingKey>) {
    && |s'.outbox| == |signIns| + |readings| && s'.nextId == s.nextId + |s'.outbox|
    && (forall i :: 0 <= i < |s'.outbox| ==> s'.outbox[i].id == s.nextId + i)
    && (forall i :: 0 <= i < |signIns| ==>
          signIns[i] in s.signIns && CarriesSignIn(s'.outbox[i].payload, signIns[i], s.signIns[signIns[i]]))
    && (forall i :: 0 <= i < |readings| ==>
          readings[i] in s.readings
              && CarriesReading(s'.outbox[|signIns| + i].payload, readings[i], s.readings[readings[i]]))
  }

  /** Every sign-in on a pooled account once, oldest first. */
  ghost predicate ListsSignIns(ks: seq<SignInKey>, s: Local) {
    && (forall k :: k in ks <==> k in s.signIns && s.signIns[k].accountRef != "")
    && forall i, j :: 0 <= i < j < |ks| ==> ks[i] != ks[j] && ks[i].observedAt <= ks[j].observedAt
  }

  /** Every reading once, oldest first. */
  ghost predicate ListsReadings(ks: seq<ReadingKey>, s: Local) {
    && (forall k :: k in ks <==> k in s.readings)
    && forall i, j :: 0 <= i < j < |ks| ==> ks[i] != ks[j] && ks[i].observedAt <= ks[j].observedAt
  }

  lemma OrdersList(s: Local, signIns: seq<SignInKey>, readings: seq<ReadingKey>)
    requires ResetOrders(s, signIns, readings)
    ensures ListsSignIns(signIns, s) && ListsReadings(readings, s)
  {
    ListsMembers(signIns, PooledSignIns(s), SignInTime);
    ListsMembers(readings, s.readings.Keys, ReadingTime);
    forall i, j | 0 <= i < j < |signIns| ensures signIns[i].observedAt <= signIns[j].observedAt {
      assert SignInTime(signIns[i]) <= SignInTime(signIns[j]);
    }
    forall i, j | 0 <= i < j < |readings| ensures readings[i].observedAt <= readings[j].observedAt {
      assert ReadingTime(readings[i]) <= ReadingTime(readings[j]);
    }
  }

  /** A reset queues exactly the pooled sign-ins, oldest first, then every
      reading, oldest first, under ids never used before, and keeps nothing
      of the ledger but those. */
  lemma ResetQueues(s: Local, signIns: seq<SignInKey>, readings: seq<ReadingKey>)
    requires ResetOrders(s, signIns, readings)
    ensures ListsSignIns(signIns, s) && ListsReadings(readings, s)
    ensures var s' := Reset(s, signIns, readings);
            && s' == s.(events := map[], files := map[], limits := map[], outbox := s'.outbox, nextId := s'.nextId)
            && Requeued(s, s', signIns, readings)
  {
    OrdersList(s, signIns, readings);
    var ps, qs := ResetEnqueues(s, signIns, readings);
    var s0 := s.(events := map[], files := map[], outbox := [], limits := map[]);
    var s' := TwoEnqueues(s0, ps, qs);
    RequeuedFrom(s, s', signIns, readings, ps, qs);
    hide *;
  }

  lemma RequeuedFrom(s: Local, s': Local, signIns: seq<SignInKey>, readings: seq<ReadingKey>, ps: seq<Payload>,
                     qs: seq<Payload>)
    requires |ps| == |signIns| && |qs| == |readings| && |s'.outbox| == |ps| + |qs|
    requires s'.nextId == s.nextId + |s'.outbox|
    requires forall i :: 0 <= i < |s'.outbox| ==> s'.outbox[i].id == s.nextId + i
    requires forall i :: 0 <= i < |ps| ==> s'.outbox[i].payload == ps[i]
    requires forall i :: 0 <= i < |qs| ==> s'.outbox[|ps| + i].payload == qs[i]
    requires forall i :: 0 <= i < |signIns| ==>
               signIns[i] in s.signIns && ps[i] == SignInPayload(signIns[i], s.signIns[signIns[i]])
    requires forall i :: 0 <= i < |readings| ==>
               readings[i] in s.readings && qs[i] == ReadingPayload(readings[i], s.readings[readings[i]])
    ensures Requeued(s, s', signIns, readings)
  {
    PayloadsCarry();
    hide SignInPayload, ReadingPayload, CarriesSignIn, CarriesReading;
  }

  /** The payloads a reset queues are those of its rows. */
  lemma ResetEnqueues(s: Local, signIns: seq<SignInKey>, readings: seq<ReadingKey>)
      returns (ps: seq<Payload>, qs: seq<Payload>)
    requires ResetOrders(s, signIns, readings)
    ensures Reset(s, signIns, readings)
            == EnqueueAll(EnqueueAll(s.(events := map[], files := map[], outbox := [], limits := map[]), ps), qs)
    ensures |ps| == |signIns| == |PooledSignIns(s)| && |qs| == |readings| == |s.readings|
    ensures forall i :: 0 <= i < |signIns| ==>
              signIns[i] in s.signIns && ps[i] == SignInPayload(signIns[i], s.signIns[signIns[i]])
    ensures forall i :: 0 <= i < |readings| ==>
              readings[i] in s.readings && qs[i] == ReadingPayload(readings[i], s.readings[readings[i]])
  {
    ListsMembers(signIns, PooledSignIns(s), SignInTime);
    ListsMembers(readings, s.readings.Keys, ReadingTime);
    assert |s.readings.Keys| == |s.readings|;
    assert forall k :: k in signIns ==> k in s.signIns;
    hide Lists, EnqueueAll;
    ps, qs := SignInPayloads(s.signIns, signIns), ReadingPayloads(s.readings, readings);
    SignInPayloadsAt(s.signIns, signIns);
    ReadingPayloadsAt(s.readings, readings);
    assert forall i :: 0 <= i < |signIns| ==> signIns[i] in signIns;
    assert forall i :: 0 <= i < |readings| ==> readings[i] in readings;
  }

  lemma TwoEnqueues(s: Local, ps: seq<Payload>, qs: seq<Payload>) returns (s': Local)
    requires s.outbox == []
    ensures s' == EnqueueAll(EnqueueAll(s, ps), qs)
    ensures s' == s.(outbox := s'.outbox, nextId := s'.nextId)
    ensures |s'.outbox| == |ps| + |qs| && s'.nextId == s.nextId + |s'.outbox|
    ensures forall i :: 0 <= i < |s'.outbox| ==> s'.outbox[i].id == s.nextId + i
    ensures forall i :: 0 <= i < |ps| ==> s'.outbox[i].payload == ps[i]
    ensures forall i :: 0 <= i < |qs| ==> s'.outbox[|ps| + i].payload == qs[i]
  {
    hide EnqueueAll;
    var s1 := EnqueueAll(s, ps);
    EnqueueAllAppends(s, ps);
    s' := EnqueueAll(s1, qs);
    EnqueueAllAppends(s1, qs);
    AppendsThen(s, s1, s');
    forall i | 0 <= i < |ps| ensures s'.outbox[i].payload == ps[i] {
      assert s'.outbox[i] == s'.outbox[..|s1.outbox|][i];
      assert s1.outbox[|s.outbox| + i].payload == ps[i];
    }
    forall i | 0 <= i < |qs| ensures s'.outbox[|ps| + i].payload == qs[i] {
      assert s'.outbox[|s1.outbox| + i].payload == qs[i];
    }
  }

  lemma {:induction false} SignInPayloadsAt(table: map<SignInKey, SignIn>, ks: seq<SignInKey>)
    requires forall k :: k in ks ==> k in table
    ensures |SignInPayloads(table, ks)| == |ks|
    ensures forall i :: 0 <= i < |ks| ==> SignInPayloads(table, ks)[i] == SignInPayload(ks[i], table[ks[i]])
  {
    if ks != [] {
      SignInPayloadsAt(table, ks[..|ks| - 1]);
    }
  }

  lemma {:induction false} ReadingPayloadsAt(table: map<ReadingKey, Reading>, ks: seq<ReadingKey>)
    requires forall k :: k in ks ==> k in table
    ensures |ReadingPayloads(table, ks)| == |ks|
    ensures forall i :: 0 <= i < |ks| ==> ReadingPayloads(table, ks)[i] == ReadingPayload(ks[i], table[ks[i]])
  {
    if ks != [] {
      ReadingPayloadsAt(table, ks[..|ks| - 1]);
    }
  }

  lemma ResetSafe(w: World, server: Server.Ledger, signIns: seq<SignInKey>, readings: seq<ReadingKey>)
    requires Safe(w, server)
    ensures Safe(ResetWorld(w, signIns, readings), server)
  {
    hide BatchRequest, SafeQueue, SafeUploaders, SafeSent, History.Run;
    if ResetOrders(w.local, signIns, readings) {
      var s' := Reset(w.local, signIns, readings);
      ResetQueues(w.local, signIns, readings);
      hide Reset, ResetOrders, PooledSignIns;
      FreshIds(w.local, s', signIns, readings);
      hide Requeued;
      FreshQueueSafe(w, s');
    }
  }

  lemma FreshIds(s: Local, s': Local, signIns: seq<SignInKey>, readings: seq<ReadingKey>)
    requires Requeued(s, s', signIns, readings)
    ensures ValidOutbox(s') && s'.nextId >= s.nextId && forall it :: it in s'.outbox ==> s.nextId <= it.id < s'.nextId
  {
    hide CarriesSignIn, CarriesReading;
  }

  lemma FreshQueueSafe(w: World, s: Local)
    requires SafeQueue(w) && SafeUploaders(w) && SafeSent(w) && ValidOutbox(s) && s.nextId >= w.local.nextId
    requires forall it :: it in s.outbox ==> w.local.nextId <= it.id < s.nextId
    ensures var w' := w.(local := s, log := s.outbox, scans := []);
            SafeQueue(w') && SafeUploaders(w') && SafeSent(w')
  {
    hide BatchRequest, ValidOutbox, Committed;
  }

  lemma DeleteSafe(w: World, server: Server.Ledger, u: nat)
    requires Safe(w, server)
    ensures Safe(DeleteBatch(w, u), server)
  {
    hide BatchRequest, SafeQueue, SafeUploaders, SafeSent, History.Run;
    if UploaderOf(w, u).Accepted? {
      DeleteKeepsQueue(w, u);
      DeleteKeepsUploaders(w, u);
      DeleteKeepsSent(w, u);
    }
  }

  lemma DeleteKeepsSent(w: World, u: nat)
    requires SafeSent(w)
    ensures SafeSent(DeleteBatch(w, u))
  {
    hide BatchRequest;
  }

  lemma DeleteKeepsOrder(s: Local, id: nat)
    requires ValidOutbox(s)
    ensures ValidOutbox(DeleteThrough(s, id))
  {
    var n := AfterIsTail(s.outbox, id);
    hide After;
  }

  /** Nothing that leaves the queue had not been sent. */
  lemma DeleteKeepsQueue(w: World, u: nat)
    requires SafeQueue(w) && SafeUploaders(w) && UploaderOf(w, u).Accepted?
    ensures SafeQueue(DeleteBatch(w, u))
  {
    var batch := UploaderOf(w, u).batch;
    assert HoldsPrefix(w.local, batch) && batch in w.sent;
    hide LastId, SafeUploaders;
    DeleteKeepsOrder(w.local, LastId(batch));
    AfterKeeps(w.local.outbox, LastId(batch));
    hide After, ValidOutbox;
    forall it: OutboxItem | it in w.log && it !in After(w.local.outbox, LastId(batch)) ensures Committed(w.sent, it) {
    }
    hide HoldsPrefix, Committed;
  }

  lemma DeleteKeepsUploaders(w: World, u: nat)
    requires SafeUploaders(w)
    ensures SafeUploaders(DeleteBatch(w, u))
  {
    if UploaderOf(w, u).Accepted? {
      var id := LastId(UploaderOf(w, u).batch);
      AfterKeeps(w.local.outbox, id);
      hide LastId, After;
      assert forall batch :: HoldsPrefix(w.local, batch) ==> HoldsPrefix(DeleteThrough(w.local, id), batch);
      hide HoldsPrefix;
    }
  }

  lemma PendingIsPrefix(s: Local)
    requires ValidOutbox(s) && Pending(s, BATCH_SIZE) != []
    ensures HoldsPrefix(s, Pending(s, BATCH_SIZE))
  {
    var batch := Pending(s, BATCH_SIZE);
    var n := |batch| - 1;
    assert batch[n] == s.outbox[n];
    forall it | it in s.outbox && it.id <= LastId(batch) ensures it in batch {
      var i :| 0 <= i < |s.outbox| && s.outbox[i] == it;
      assert i <= n && batch[i] == it;
    }
    forall it | it in batch ensures it.id <= LastId(batch) {
      var i :| 0 <= i < |batch| && batch[i] == it;
      assert batch[i] == s.outbox[i];
    }
  }

  lemma ReadSafe(w: World, server: Server.Ledger, u: nat)
    requires Safe(w, server)
    ensures Safe(ReadBatch(w, u), server)
  {
    hide BatchRequest, Committed, HoldsPrefix, SafeFiles, History.Run;
    if Pending(w.local, BATCH_SIZE) != [] {
      PendingIsPrefix(w.local);
      hide Pending, ValidOutbox;
      assert SafeUploaders(ReadBatch(w, u));
      hide SafeUploaders;
      assert SafeQueue(ReadBatch(w, u));
      hide SafeQueue;
    }
  }

  lemma CommitBatchSafe(w: World, server: Server.Ledger, u: nat)
    requires Safe(w, server)
    ensures Safe(CommitBatch(w, u), server)
  {
    hide BatchRequest, Server.IngestBatch;
    var up := UploaderOf(w, u);
    if up.Sending? {
      var w1 := Commit(w, w.device, BatchRequest(up.batch));
      CommitSafe(w, server, w.device, BatchRequest(up.batch));
      assert HoldsPrefix(w1.local, up.batch);
      hide Commit, HoldsPrefix;
      SentSafe(w1, server, u, up.batch);
    }
  }

  lemma SentSafe(w: World, server: Server.Ledger, u: nat, batch: seq<OutboxItem>)
    requires Safe(w, server) && HoldsPrefix(w.local, batch)
        && History.Delivery(w.device, BatchRequest(batch)) in w.history
    ensures Safe(w.(uploaders := w.uploaders[u := Accepted(batch)], sent := w.sent + [batch]), server)
  {
    hide BatchRequest, History.Run, SafeFiles, ValidOutbox;
    var w' := w.(uploaders := w.uploaders[u := Accepted(batch)], sent := w.sent + [batch]);
    assert forall b :: b in w.sent ==> b in w'.sent;
    assert batch in w'.sent;
    assert SafeUploaders(w');
    assert SafeSent(w') by {
      assert forall it :: it in batch ==> it.id <= LastId(batch);
    }
    hide HoldsPrefix;
    assert SafeQueue(w');
  }

  lemma TakeSafe(w: World, server: Server.Ledger, step: Step)
    requires Safe(w, server)
    ensures Safe(Take(w, step), server)
  {
    if IsLocal(step) {
      LocalStepSafe(w, server, step);
    } else {
      hide Safe, ResetWorld, ReadBatch, CommitBatch, DeleteBatch, StopUploader, Commit;
      match step
      case LedgerReset(signIns, readings) => ResetSafe(w, server, signIns, readings);
      case BatchRead(u) => ReadSafe(w, server, u);
      case BatchCommitted(u) => CommitBatchSafe(w, server, u);
      case BatchDeleted(u) => DeleteSafe(w, server, u);
      case UploaderStopped(u) => StopSafe(w, server, u);
      case CommittedElsewhere(d, request) => CommitSafe(w, server, d, request);
    }
  }

  lemma StopSafe(w: World, server: Server.Ledger, u: nat)
    requires Safe(w, server)
    ensures Safe(StopUploader(w, u), server)
  {
    hide Committed, BatchRequest;
  }

  lemma {:induction false} StepsSafe(device: Server.Device, server: Server.Ledger, steps: seq<Step>)
    ensures Safe(Steps(Start(device, server), steps), server)
  {
    if steps != [] {
      StepsSafe(device, server, steps[..|steps| - 1]);
      TakeSafe(Steps(Start(device, server), steps[..|steps| - 1]), server, steps[|steps| - 1]);
    }
  }

  /** The server committed a request that carries every item of the batch. */
  ghost predicate Requested(w: World, batch: seq<OutboxItem>) {
    && History.Delivery(w.device, BatchRequest(batch)) in w.history
    && forall it :: it in batch ==> Carries(BatchRequest(batch), it.payload)
  }

  /** No queued change is ever lost: after any steps of any number of
      uploaders, with crashes, lost answers and resets anywhere, every item
      queued since the last reset is still queued or was itself in a batch of
      this device that the server committed, and the request of each such batch
      carries it; the server holds what its committed batches make of it; and a
      file is marked scanned only after its events and limit hits were saved. */
  lemma NothingLost(device: Server.Device, server: Server.Ledger, steps: seq<Step>)
    ensures var w := Steps(Start(device, server), steps);
            && (forall it: OutboxItem :: it in w.log ==> it in w.local.outbox || Committed(w.sent, it))
            && (forall it :: it in w.local.outbox ==> it in w.log)
            && (forall batch :: batch in w.sent ==> Requested(w, batch))
            && w.server == History.Run(server, w.history)
            && (forall path :: path in w.local.files ==>
                  exists scan: Scan ::
                    scan in w.scans && scan.path == path && scan.state == w.local.files[path] && Saved(w.local, scan))
  {
    StepsSafe(device, server, steps);
    var w := Steps(Start(device, server), steps);
    hide Steps, BatchRequest;
    forall batch | batch in w.sent ensures Requested(w, batch) {
      BatchCarriesItems(batch);
    }
    forall path | path in w.local.files
      ensures exists scan: Scan ::
                scan in w.scans && scan.path == path && scan.state == w.local.files[path] && Saved(w.local, scan)
    {
      assert Marked(w.scans, path, w.local.files[path]);
    }
  }

  // ---------------------------------------------------- committed since queued

  /** What was queued since w came under ids not used by w, and what was sent
      since came after what had been sent by then. */
  ghost predicate Continues(w: World, w': World) {
    && w'.local.nextId >= w.local.nextId
    && (forall it: OutboxItem :: it in w'.log ==> it in w.log || it.id >= w.local.nextId)
    && |w'.sent| >= |w.sent| && w'.sent[..|w.sent|] == w.sent
  }

  lemma ContinuesThen(w: World, w1: World, w2: World)
    requires Continues(w, w1) && Continues(w1, w2)
    ensures Continues(w, w2)
  {
    assert w2.sent[..|w.sent|] == w2.sent[..|w1.sent|][..|w.sent|];
  }

  lemma TakeContinues(w: World, step: Step)
    ensures Continues(w, Take(w, step))
  {
    hide BatchRequest, Continues;
    if IsLocal(step) {
      LocalStepAppends(w, step);
      LocalStepKeys(w, step);
      hide Take;
      AppendsContinues(w, Take(w, step));
    } else if step.LedgerReset? {
      ResetContinues(w, step.signIns, step.readings);
    } else {
      SameQueueContinues(w, Take(w, step));
    }
  }

  lemma AppendsContinues(w: World, w': World)
    requires Appends(w.local, w'.local) && w'.log == w.log + w'.local.outbox[|w.local.outbox|..] && w'.sent == w.sent
    ensures Continues(w, w')
  {
    assert forall it :: it in w'.local.outbox[|w.local.outbox|..] ==> it.id >= w.local.nextId;
  }

  lemma ResetContinues(w: World, signIns: seq<SignInKey>, readings: seq<ReadingKey>)
    ensures Continues(w, ResetWorld(w, signIns, readings))
  {
    if ResetOrders(w.local, signIns, readings) {
      ResetQueues(w.local, signIns, readings);
      hide Reset, ResetOrders, PooledSignIns;
      FreshIds(w.local, ResetWorld(w, signIns, readings).local, signIns, readings);
    }
  }

  lemma SameQueueContinues(w: World, w': World)
    requires w'.local.nextId == w.local.nextId && w'.log == w.log
    requires w'.sent == w.sent || (|w'.sent| == |w.sent| + 1 && w'.sent[..|w.sent|] == w.sent)
    ensures Continues(w, w')
  {
  }

  lemma StepsLast(w: World, steps: seq<Step>, m: nat)
    requires |steps| == m + 1
    ensures Steps(w, steps) == Take(Steps(w, steps[..m]), steps[m])
  {
    hide Take;
  }

  lemma {:induction false} StepsContinue(w: World, steps: seq<Step>, n: nat)
    requires n <= |steps|
    ensures Continues(Steps(w, steps[..n]), Steps(w, steps))
  {
    hide Take, Steps, Continues;
    if n == |steps| {
      assert steps[..n] == steps;
      ContinuesSelf(Steps(w, steps));
    } else {
      var m := |steps| - 1;
      assert steps[..m][..n] == steps[..n];
      StepsContinue(w, steps[..m], n);
      TakeContinues(Steps(w, steps[..m]), steps[m]);
      StepsLast(w, steps, m);
      ContinuesThen(Steps(w, steps[..n]), Steps(w, steps[..m]), Steps(w, steps));
    }
  }

  lemma ContinuesSelf(w: World)
    ensures Continues(w, w)
  {
  }

  lemma CommittedLater(w: World, w': World, it: OutboxItem)
    requires Continues(w, w') && SafeSent(w) && SafeQueue(w')
    requires it in w'.log && it !in w.log && it !in w'.local.outbox
    ensures Committed(w'.sent[|w.sent|..], it)
  {
    hide BatchRequest;
    var batch :| batch in w'.sent && it in batch;
    assert w'.sent == w.sent + w'.sent[|w.sent|..];
    assert batch in w'.sent[|w.sent|..];
  }

  /** Committed means sent since: an item queued in the steps after the first n,
      as by a reset among them, is still queued or in a batch that the server
      committed in the steps after the first n. */
  lemma CommittedSinceQueued(device: Server.Device, server: Server.Ledger, steps: seq<Step>, n: nat, it: OutboxItem)
    requires n <= |steps|
    requires it in Steps(Start(device, server), steps).log && it !in Steps(Start(device, server), steps[..n]).log
    ensures var w, w' := Steps(Start(device, server), steps[..n]), Steps(Start(device, server), steps);
            && Continues(w, w')
            && (it in w'.local.outbox || Committed(w'.sent[|w.sent|..], it))
  {
    var w, w' := Steps(Start(device, server), steps[..n]), Steps(Start(device, server), steps);
    StepsContinue(Start(device, server), steps, n);
    StepsSafe(device, server, steps[..n]);
    StepsSafe(device, server, steps);
    hide Steps, BatchRequest, SafeUploaders, SafeFiles, SafeQueue, SafeSent, Continues, Committed;
    if it !in w'.local.outbox {
      CommittedLater(w, w', it);
    }
  }
}
