/** The agent's upload loop over the two stores, as a run of protocol steps. */
module Uploading {
  import opened Records
  import opened ClientLedger
  import opened SyncProtocol
  import Server = ServerLedger

  /** How a request ends: answered; committed with the answer lost; or never committed. */
  datatype Outcome = Answered | AnswerLost | Failed

  lemma {:induction false} AfterShrinks(items: seq<OutboxItem>, id: nat)
    ensures |After(items, id)| <= |items|
    ensures (exists it :: it in items && it.id <= id) ==> |After(items, id)| < |items|
  {
    if items != [] {
      AfterShrinks(items[1..], id);
    }
  }

  /** The world a protocol run sees when only these two stores matter. */
  ghost predicate Shows(w: World, d: Server.Device, local: Local, server: Server.Ledger) {
    w.device == d && w.local == local && w.server == server && UploaderOf(w, 0) == Idle
  }

  function Turn(outcome: Outcome): seq<Step> {
    match outcome
    case Answered => [BatchRead(0), BatchCommitted(0), BatchDeleted(0)]
    case AnswerLost => [BatchRead(0), BatchCommitted(0), UploaderStopped(0)]
    case Failed => [BatchRead(0), UploaderStopped(0)]
  }

  lemma {:induction false} StepsConcat(w: World, a: seq<Step>, b: seq<Step>)
    ensures Steps(w, a + b) == Steps(Steps(w, a), b)
  {
    hide Take;
    if b == [] {
      assert a + b == a;
    } else {
      StepsConcat(w, a, b[..|b| - 1]);
      assert (a + b)[..|a + b| - 1] == a + b[..|b| - 1];
    }
  }

  /** The worlds a turn passes through. */
  function Turned(w: World, outcome: Outcome): World {
    var read := ReadBatch(w, 0);
    match outcome
    case Answered => DeleteBatch(CommitBatch(read, 0), 0)
    case AnswerLost => StopUploader(CommitBatch(read, 0), 0)
    case Failed => StopUploader(read, 0)
  }

  lemma TurnSteps(w: World, outcome: Outcome)
    ensures Steps(w, Turn(outcome)) == Turned(w, outcome)
  {
    hide Steps, ReadBatch, CommitBatch, DeleteBatch, StopUploader;
    var read, committed := ReadBatch(w, 0), CommitBatch(ReadBatch(w, 0), 0);
    StepsOne(w, BatchRead(0));
    StepsConcat(w, [BatchRead(0)], [BatchCommitted(0)]);
    StepsOne(read, BatchCommitted(0));
    match outcome
    case Answered =>
      StepsConcat(w, [BatchRead(0)] + [BatchCommitted(0)], [BatchDeleted(0)]);
      StepsOne(committed, BatchDeleted(0));
      assert Turn(outcome) == [BatchRead(0)] + [BatchCommitted(0)] + [BatchDeleted(0)];
    case AnswerLost =>
      StepsConcat(w, [BatchRead(0)] + [BatchCommitted(0)], [UploaderStopped(0)]);
      StepsOne(committed, UploaderStopped(0));
      assert Turn(outcome) == [BatchRead(0)] + [BatchCommitted(0)] + [UploaderStopped(0)];
    case Failed =>
      StepsConcat(w, [BatchRead(0)], [UploaderStopped(0)]);
      StepsOne(read, UploaderStopped(0));
      assert Turn(outcome) == [BatchRead(0)] + [UploaderStopped(0)];
  }

  /** One turn of the loop, on the stores and as steps. */
  lemma TurnShows(w: World, d: Server.Device, local: Local, server: Server.Ledger, outcome: Outcome)
    requires Shows(w, d, local, server) && local.outbox != []
    ensures var batch := Pending(local, BATCH_SIZE);
            var server' := Server.IngestBatch(server, d, BatchRequest(batch)).ledger;
            Shows(Steps(w, Turn(outcome)), d,
                  if outcome.Answered? then DeleteThrough(local, LastId(batch)) else local,
                  if outcome.Failed? then server else server')
  {
    var batch := Pending(local, BATCH_SIZE);
    hide Server.IngestBatch, BatchRequest, DeleteThrough, Steps, LastId;
    TurnSteps(w, outcome);
    assert UploaderOf(ReadBatch(w, 0), 0) == Sending(batch);
    hide Pending;
  }

  lemma StepsOne(w: World, step: Step)
    ensures Steps(w, [step]) == Take(w, step)
  {
    assert [step][..0] == [];
    assert Steps(w, [step][..0]) == w;
  }

  class Agent {
    const device: Server.Device
    const store: Store

    constructor (device: Server.Device, store: Store)
      ensures this.device == device && this.store == store
    {
      this.device, this.store := device, store;
    }

    /** Uploads batches until the outbox is empty or a request fails. What it
        did to the two stores is a run of one uploader's steps. */
    method Upload(server: Server.Store, outcomes: nat -> Outcome) returns (ok: bool, ghost steps: seq<Step>)
      modifies store, server
      ensures ok <==> store.outbox == []
      ensures forall w :: Shows(w, device, old(store.Tables()), old(server.Tables())) ==>
                Shows(Steps(w, steps), device, store.Tables(), server.Tables())
      ensures store.Tables() == old(store.Tables()).(outbox := store.outbox)
    {
      hide ValidOutbox, OldestOf, TailAfter, Server.IngestBatch, BatchRequest;
      steps := [];
      var turns: nat := 0;
      while true
        invariant forall w :: Shows(w, device, old(store.Tables()), old(server.Tables())) ==>
                    Shows(Steps(w, steps), device, store.Tables(), server.Tables())
        invariant store.Tables() == old(store.Tables()).(outbox := store.outbox)
        decreases |store.outbox|
      {
        var items := store.PendingOutbox(BATCH_SIZE);
        if items == [] {
          return true, steps;
        }
        ghost var local0, server0, steps0 := store.Tables(), server.Tables(), steps;
        var outcome := outcomes(turns);
        steps := steps + Turn(outcome);
        if !outcome.Failed? {
          var _, _ := server.Ingest(device, BatchRequest(items));
        }
        if outcome.Answered? {
          AfterShrinks(store.outbox, items[|items| - 1].id);
          assert items[|items| - 1] in store.outbox;
          store.DeleteOutboxThrough(items[|items| - 1].id);
        }
        forall w | Shows(w, device, old(store.Tables()), old(server.Tables()))
          ensures Shows(Steps(w, steps), device, store.Tables(), server.Tables())
        {
          StepsConcat(w, steps0, Turn(outcome));
          TurnShows(Steps(w, steps0), device, local0, server0, outcome);
        }
        if !outcome.Answered? {
          return false, steps;
        }
        turns := turns + 1;
      }
    }
  }
}
