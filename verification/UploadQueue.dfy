/** Where the outbox and the batches on their way stand, without a reset or
    since the last one: all of them are pieces of what was queued since. */
module UploadQueue {
  import opened Records
  import opened ClientLedger
  import opened SyncProtocol
  import Server = ServerLedger
  import History = LedgerHistory

  /** The id of the first item queued since the last reset. */
  function Origin(w: World): int {
    w.local.nextId - |w.log|
  }

  /** How much of the log the outbox is past. */
  function Head(w: World): int {
    |w.log| - |w.local.outbox|
  }

  /** The id after the last that the server has committed. */
  function SeenId(sent: seq<seq<OutboxItem>>): nat {
    if sent == [] then 0 else Records.Max(SeenId(sent[..|sent| - 1]), LastId(sent[|sent| - 1]) + 1)
  }

  /** How far into the log the batches went that the server committed. */
  function Seen(w: World): nat {
    Records.Max(SeenId(w.sent) - Origin(w), 0)
  }

  /** Where in the log a batch ends; not after its start when it was read before the last reset. */
  function End(w: World, batch: seq<OutboxItem>): int {
    LastId(batch) + 1 - Origin(w)
  }

  /** A batch is a piece of the log that was read when the outbox started at its first item. */
  ghost predicate IsPiece(batch: seq<OutboxItem>, log: seq<OutboxItem>, head: int, end: int) {
    batch != [] && |batch| <= end <= |log| && end - |batch| <= head && batch == log[end - |batch|..end]
  }

  /** Since the last reset ids are positions in the log, the outbox is the log
      from some position on, up to which the server has seen it, and every
      batch on its way is a piece of it, if it is not older. */
  ghost predicate QueueInStep(w: World) {
    && 0 <= Origin(w) && (forall i :: 0 <= i < |w.log| ==> w.log[i].id == Origin(w) + i)
    && 0 <= Head(w) <= Seen(w) <= |w.log| && w.local.outbox == w.log[Head(w)..]
    && forall u :: u in w.uploaders ==> UploaderInStep(w, w.uploaders[u])
  }

  ghost predicate UploaderInStep(w: World, up: Uploader) {
    && (!up.Idle? ==> End(w, up.batch) <= 0 || IsPiece(up.batch, w.log, Head(w), End(w, up.batch)))
    && (up.Accepted? ==> End(w, up.batch) <= Seen(w))
  }

  lemma StartInStep(device: Server.Device, server: Server.Ledger)
    ensures QueueInStep(Start(device, server)) && Origin(Start(device, server)) == 0
  {
  }

  // -------------------------------------------------------------------- steps

  lemma LocalInStep(w: World, step: Step)
    requires QueueInStep(w) && IsLocal(step)
    ensures QueueInStep(Take(w, step)) && Origin(Take(w, step)) == Origin(w)
  {
    LocalStepAppends(w, step);
    LocalStepKeys(w, step);
    hide QueueInStep, Appends, Origin;
    LocalQueueInStep(w, Take(w, step));
    hide Take;
  }

  /** The device's own transactions leave what the server has seen, and where that is. */
  lemma LocalSeen(w: World, step: Step)
    requires IsLocal(step) && Seen(w) <= |w.log|
    ensures var w' := Take(w, step);
            Seen(w') == Seen(w) && |w.log| <= |w'.log| && w'.log[..Seen(w)] == w.log[..Seen(w)]
  {
    LocalStepAppends(w, step);
    LocalStepKeys(w, step);
    hide Take, SeenId, KeepsRows, Saved;
    LongerSeen(w, Take(w, step));
    hide *;
  }

  lemma LongerSeen(w: World, w': World)
    requires Appends(w.local, w'.local) && w'.sent == w.sent && Seen(w) <= |w.log|
    requires w'.log == w.log + w'.local.outbox[|w.local.outbox|..]
    ensures Seen(w') == Seen(w) && |w.log| <= |w'.log| && w'.log[..Seen(w)] == w.log[..Seen(w)]
  {
    hide SeenId;
    assert Origin(w') == Origin(w);
  }

  lemma LocalQueueInStep(w: World, w': World)
    requires QueueInStep(w) && Appends(w.local, w'.local) && w'.uploaders == w.uploaders && w'.sent == w.sent
    requires w'.log == w.log + w'.local.outbox[|w.local.outbox|..]
    ensures QueueInStep(w') && Origin(w') == Origin(w)
  {
    var added := w'.local.outbox[|w.local.outbox|..];
    assert w'.local.outbox == w.local.outbox + added;
    assert w'.local.outbox == w'.log[Head(w)..];
    assert Origin(w') == Origin(w) && Seen(w') == Seen(w);
    LongerIds(w, w', added);
    hide Seen, Appends;
    forall u | u in w'.uploaders ensures UploaderInStep(w', w'.uploaders[u]) {
      assert UploaderInStep(w, w.uploaders[u]);
      PieceOfLonger(w, added, w.uploaders[u]);
    }
    hide UploaderInStep;
  }

  lemma LongerIds(w: World, w': World, added: seq<OutboxItem>)
    requires QueueInStep(w) && Appends(w.local, w'.local) && added == w'.local.outbox[|w.local.outbox|..]
    requires w'.log == w.log + added
    ensures forall i :: 0 <= i < |w'.log| ==> w'.log[i].id == Origin(w) + i
  {
    hide UploaderInStep, Seen;
    forall i | 0 <= i < |w'.log| ensures w'.log[i].id == Origin(w) + i {
      if i < |w.log| {
        assert w'.log[i] == w.log[i];
      } else {
        assert w'.log[i] == w'.local.outbox[|w.local.outbox| + i - |w.log|];
      }
    }
  }

  lemma PieceOfLonger(w: World, added: seq<OutboxItem>, up: Uploader)
    requires UploaderInStep(w, up)
    ensures !up.Idle? ==> End(w, up.batch) <= 0 || IsPiece(up.batch, w.log + added, Head(w), End(w, up.batch))
  {
    hide LastId, Seen;
    if !up.Idle? && End(w, up.batch) > 0 {
      var end := End(w, up.batch);
      assert (w.log + added)[end - |up.batch|..end] == w.log[end - |up.batch|..end];
    }
  }

  lemma ReadPiece(w: World)
    requires QueueInStep(w) && w.local.outbox != []
    ensures var batch := Pending(w.local, BATCH_SIZE);
            && IsPiece(batch, w.log, Head(w), End(w, batch))
            && End(w, batch) == Head(w) + |batch| && |batch| == Records.Min(BATCH_SIZE, |w.local.outbox|)
  {
    hide UploaderInStep, Seen;
    var batch := Pending(w.local, BATCH_SIZE);
    var n := |batch|;
    assert batch == w.log[Head(w)..Head(w) + n];
    assert batch[n - 1] == w.log[Head(w) + n - 1];
  }

  lemma ReadInStep(w: World, u: nat)
    requires QueueInStep(w)
    ensures QueueInStep(ReadBatch(w, u)) && Origin(ReadBatch(w, u)) == Origin(w)
  {
    var batch := Pending(w.local, BATCH_SIZE);
    if batch != [] && UploaderOf(w, u).Idle? {
      ReadPiece(w);
      hide QueueInStep, IsPiece, LastId, SeenId, Pending;
      SendingInStep(w, u, batch);
    }
    hide QueueInStep, Origin, Pending;
  }

  lemma SendingInStep(w: World, u: nat, batch: seq<OutboxItem>)
    requires QueueInStep(w) && IsPiece(batch, w.log, Head(w), End(w, batch))
    ensures var w' := w.(uploaders := w.uploaders[u := Sending(batch)]);
            QueueInStep(w') && Origin(w') == Origin(w)
  {
    hide IsPiece, LastId, SeenId;
    var w' := w.(uploaders := w.uploaders[u := Sending(batch)]);
    forall v | v in w'.uploaders ensures UploaderInStep(w', w'.uploaders[v]) {
      assert v != u ==> UploaderInStep(w, w.uploaders[v]);
    }
    hide UploaderInStep;
  }

  lemma SeenOneMore(sent: seq<seq<OutboxItem>>, batch: seq<OutboxItem>)
    ensures SeenId(sent + [batch]) == Records.Max(SeenId(sent), LastId(batch) + 1)
  {
    assert (sent + [batch])[..|sent|] == sent;
  }

  lemma CommitSeen(w: World, u: nat)
    ensures var up, w' := UploaderOf(w, u), CommitBatch(w, u);
            && Origin(w') == Origin(w)
            && Seen(w') == if up.Sending? then Records.Max(Seen(w), End(w, up.batch)) else Seen(w)
  {
    if UploaderOf(w, u).Sending? {
      CommitSends(w, u);
      hide CommitBatch;
      SeenAfter(w, CommitBatch(w, u), UploaderOf(w, u).batch);
    }
    hide Seen, Origin;
  }

  lemma CommitSends(w: World, u: nat)
    requires UploaderOf(w, u).Sending?
    ensures var w' := CommitBatch(w, u);
            w'.local == w.local && w'.log == w.log && w'.sent == w.sent + [UploaderOf(w, u).batch]
  {
    hide Server.IngestBatch, BatchRequest;
  }

  lemma SeenAfter(w: World, w': World, batch: seq<OutboxItem>)
    requires w'.local == w.local && w'.log == w.log && w'.sent == w.sent + [batch]
    ensures Origin(w') == Origin(w) && Seen(w') == Records.Max(Seen(w), End(w, batch))
  {
    SeenOneMore(w.sent, batch);
    hide SeenId, LastId;
  }

  lemma CommitQueue(w: World, u: nat)
    requires QueueInStep(w)
    ensures QueueInStep(CommitBatch(w, u)) && Origin(CommitBatch(w, u)) == Origin(w)
  {
    var up, w' := UploaderOf(w, u), CommitBatch(w, u);
    CommitSeen(w, u);
    if up.Sending? {
      assert UploaderInStep(w, up) && End(w, up.batch) <= |w.log|;
      hide Server.IngestBatch, BatchRequest, Seen, End, UploaderInStep, QueueInStep, Origin;
      SentInStep(w, w', u, up.batch);
    }
    hide *;
  }

  lemma SentInStep(w: World, w': World, u: nat, batch: seq<OutboxItem>)
    requires QueueInStep(w) && UploaderInStep(w, Sending(batch)) && End(w, batch) <= |w.log|
    requires w'.local == w.local && w'.log == w.log && w'.uploaders == w.uploaders[u := Accepted(batch)]
    requires Seen(w') == Records.Max(Seen(w), End(w, batch))
    ensures QueueInStep(w')
  {
    hide Seen, IsPiece, LastId;
    forall v | v in w'.uploaders ensures UploaderInStep(w', w'.uploaders[v]) {
      assert v != u ==> UploaderInStep(w, w.uploaders[v]);
    }
    hide UploaderInStep;
  }

  lemma DeleteInStep(w: World, u: nat)
    requires QueueInStep(w)
    ensures QueueInStep(DeleteBatch(w, u)) && Origin(DeleteBatch(w, u)) == Origin(w)
    ensures var up := UploaderOf(w, u);
            Head(DeleteBatch(w, u)) == if up.Accepted? then Records.Max(Head(w), End(w, up.batch)) else Head(w)
  {
    var up, w' := UploaderOf(w, u), DeleteBatch(w, u);
    if up.Accepted? {
      assert UploaderInStep(w, up);
      DeleteQueue(w, LastId(up.batch));
      DeletedOrigin(w, u);
      hide LastId, Seen, After, UploaderInStep, QueueInStep;
      DeletedInStep(w, w', u, End(w, up.batch));
    }
    hide *;
  }

  lemma DeletedOrigin(w: World, u: nat)
    ensures Origin(DeleteBatch(w, u)) == Origin(w)
  {
    hide DeleteThrough;
    assert forall id :: DeleteThrough(w.local, id).nextId == w.local.nextId by {
      DeleteKeepsNextId(w.local);
    }
  }

  lemma DeleteKeepsNextId(s: Local)
    ensures forall id :: DeleteThrough(s, id).nextId == s.nextId
  {
    hide After;
  }

  lemma DeletedInStep(w: World, w': World, u: nat, end: int)
    requires QueueInStep(w) && end <= Seen(w)
    requires w' == w.(local := w.local.(outbox := w.log[Records.Max(Head(w), end)..]),
                      uploaders := w.uploaders[u := Idle])
    ensures QueueInStep(w') && Head(w') == Records.Max(Head(w), end)
  {
    hide SeenId, UploaderInStep;
    forall v | v in w'.uploaders ensures UploaderInStep(w', w'.uploaders[v]) {
      assert v != u ==> UploaderInStep(w, w.uploaders[v]);
      LaterHead(w, w', w'.uploaders[v]);
    }
  }

  lemma LaterHead(w: World, w': World, up: Uploader)
    requires up.Idle? || UploaderInStep(w, up)
    requires w'.log == w.log && w'.sent == w.sent && Head(w) <= Head(w') && Origin(w') == Origin(w)
    ensures UploaderInStep(w', up)
  {
    hide SeenId, LastId;
  }

  /** Deleting up to a piece's end leaves the log from there on, or from the head on. */
  lemma DeleteQueue(w: World, id: nat)
    requires QueueInStep(w) && id < Origin(w) + |w.log|
    ensures After(w.local.outbox, id) == w.log[Records.Max(Head(w), id + 1 - Origin(w))..]
  {
    hide UploaderInStep, SeenId, After;
    var head, outbox, end := Head(w), w.local.outbox, id + 1 - Origin(w);
    forall i | 0 <= i < |outbox| ensures outbox[i].id == Origin(w) + head + i {
      assert outbox[i] == w.log[head + i];
    }
    if end <= head {
      AfterNone(outbox, id);
    } else {
      AfterSorted(outbox, end - head);
      assert outbox[end - head..] == w.log[end..];
    }
    hide QueueInStep;
  }

  lemma {:induction false} AfterSorted(items: seq<OutboxItem>, n: nat)
    requires 0 < n <= |items| && forall i, j :: 0 <= i < j < |items| ==> items[i].id < items[j].id
    ensures After(items, items[n - 1].id) == items[n..]
  {
    if n > 1 {
      AfterSorted(items[1..], n - 1);
    } else {
      AfterNone(items[1..], items[0].id);
    }
  }

  lemma SameQueue(w: World, w': World)
    requires QueueInStep(w) && w'.local == w.local && w'.log == w.log && w'.sent == w.sent
    requires forall u :: u in w'.uploaders ==>
        w'.uploaders[u].Idle? || (u in w.uploaders && w'.uploaders[u] == w.uploaders[u])
    ensures QueueInStep(w') && Origin(w') == Origin(w)
  {
    hide IsPiece, SeenId, LastId;
  }

  /** The queues stay in step whatever batches are committed when. */
  lemma TakeQueueInStep(w: World, step: Step)
    requires QueueInStep(w) && !step.LedgerReset?
    ensures QueueInStep(Take(w, step)) && Origin(Take(w, step)) == Origin(w)
  {
    if IsLocal(step) {
      LocalInStep(w, step);
    } else {
      hide QueueInStep, Origin;
      match step
      case BatchRead(u) => ReadInStep(w, u);
      case BatchCommitted(u) => CommitQueue(w, u);
      case BatchDeleted(u) => DeleteInStep(w, u);
      case UploaderStopped(u) => SameQueue(w, StopUploader(w, u));
      case CommittedElsewhere(d, request) => SameQueue(w, Commit(w, d, request));
    }
  }

  ghost predicate NoReset(steps: seq<Step>) {
    forall step :: step in steps ==> !step.LedgerReset?
  }

  lemma {:induction false} StepsQueueInStep(w: World, steps: seq<Step>)
    requires QueueInStep(w) && NoReset(steps)
    ensures QueueInStep(Steps(w, steps)) && Origin(Steps(w, steps)) == Origin(w)
  {
    if steps != [] {
      hide QueueInStep, Take, Origin;
      var n := |steps| - 1;
      StepsQueueInStep(w, steps[..n]);
      TakeQueueInStep(Steps(w, steps[..n]), steps[n]);
    }
  }

  lemma {:induction false} StepsKeepDevice(w: World, steps: seq<Step>)
    ensures Steps(w, steps).device == w.device
  {
    hide Take;
    if steps != [] {
      StepsKeepDevice(w, steps[..|steps| - 1]);
      TakeKeepsDevice(Steps(w, steps[..|steps| - 1]), steps[|steps| - 1]);
    }
  }

  lemma TakeKeepsDevice(w: World, step: Step)
    ensures Take(w, step).device == w.device
  {
    hide Server.IngestBatch, BatchRequest, Observe, SaveReading, CorrectReading, IngestScan, Reset, ResetOrders,
         DeleteThrough, Pending;
  }

  // --------------------------------------------------------------- one uploader

  /** The steps of one uploader only. */
  ghost predicate ByOne(step: Step) {
    match step
    case BatchRead(u) => u == 0
    case BatchCommitted(u) => u == 0
    case BatchDeleted(u) => u == 0
    case UploaderStopped(u) => u == 0
    case _ => true
  }

  /** One uploader: the server is at most a batch ahead of the outbox, and what
      is on its way starts where the outbox starts and reaches as far as the
      server has seen. */
  ghost predicate OneInStep(w: World) {
    Seen(w) <= Head(w) + BATCH_SIZE && OneOnItsWay(w, UploaderOf(w, 0))
  }

  ghost predicate OneOnItsWay(w: World, up: Uploader) {
    !up.Idle? ==>
      0 < |up.batch| <= BATCH_SIZE && End(w, up.batch) == Head(w) + |up.batch| && Seen(w) <= End(w, up.batch)
  }

  lemma TakeOneInStep(w: World, step: Step)
    requires QueueInStep(w) && OneInStep(w) && !step.LedgerReset? && ByOne(step)
    ensures OneInStep(Take(w, step))
  {
    if IsLocal(step) {
      LocalStepAppends(w, step);
      LocalStepKeys(w, step);
      hide Take, SeenId, LastId;
    } else {
      match step
      case BatchRead(u) => ReadOne(w);
      case BatchCommitted(u) => CommitOne(w);
      case BatchDeleted(u) => DeleteOne(w);
      case UploaderStopped(u) => hide SeenId, LastId;
      case CommittedElsewhere(d, request) => hide SeenId, LastId, Server.IngestBatch;
    }
  }

  lemma ReadOne(w: World)
    requires QueueInStep(w) && OneInStep(w)
    ensures OneInStep(ReadBatch(w, 0))
  {
    if w.local.outbox != [] {
      ReadPiece(w);
    }
    hide SeenId, LastId, IsPiece, UploaderInStep, Pending;
  }

  lemma CommitOne(w: World)
    requires OneInStep(w)
    ensures OneInStep(CommitBatch(w, 0))
  {
    CommitSeen(w, 0);
    hide SeenId, LastId, BatchRequest, Server.IngestBatch, Seen;
  }

  lemma DeleteOne(w: World)
    requires QueueInStep(w) && OneInStep(w)
    ensures OneInStep(DeleteBatch(w, 0))
  {
    DeleteInStep(w, 0);
    DeletedOrigin(w, 0);
    hide SeenId, LastId, DeleteThrough, QueueInStep;
  }

  lemma {:induction false} StepsOneInStep(w: World, steps: seq<Step>)
    requires QueueInStep(w) && OneInStep(w) && NoReset(steps) && forall step :: step in steps ==> ByOne(step)
    ensures OneInStep(Steps(w, steps))
  {
    if steps != [] {
      hide QueueInStep, OneInStep, Take, ByOne;
      var n := |steps| - 1;
      StepsOneInStep(w, steps[..n]);
      StepsQueueInStep(w, steps[..n]);
      TakeOneInStep(Steps(w, steps[..n]), steps[n]);
    }
  }
}
