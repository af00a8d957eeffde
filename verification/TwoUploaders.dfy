/** Why exactly-once needs batches that keep up: with two uploaders nothing
    queued gets lost (SyncProtocol.NothingLost), but a batch one of them read
    earlier can be committed after the other has moved the request on. */
module TwoUploaders {
  import opened Records
  import opened ClientLedger
  import opened SyncProtocol
  import opened ExactlyOnce
  import Server = ServerLedger
  import History = LedgerHistory

  function Reading(ref: string): UsageEvent {
    UsageEvent("k", ref, "anthropic", "claude-code", "cli", "session", "claude-opus-4-1", 0, Tokens(1, 0, 0, 1, 0),
               false, "", "", "", "", "", false)
  }

  lemma ReadingOn(ref: string)
    ensures var e := Reading(ref);
            e.dedupeKey == "k" && e.accountRef == ref && e.gateway == "" && e.provider == "anthropic"
  {
  }

  function Read(ref: string): Step {
    FileScanned(Scan("transcript.jsonl", FileState(0, 0), [Reading(ref)], [], []))
  }

  function AfterRead(w: World, ref: string): World {
    Take(w, Read(ref))
  }

  /** One turn of an uploader's loop. */
  function Uploaded(w: World, u: nat): World {
    DeleteBatch(CommitBatch(ReadBatch(w, u), u), u)
  }

  lemma ReadOne(w: World, ref: string)
    ensures var w' := AfterRead(w, ref);
            var s := SaveEvent(w.local, Reading(ref)).0;
            && w' == w.(local := w'.local, log := w'.log, scans := w'.scans)
            && w'.local == s.(files := w'.local.files)
  {
    var s := SaveEvent(w.local, Reading(ref)).0;
    assert [Reading(ref)][..0] == [];
    assert SaveEvents(w.local, [Reading(ref)]).0 == s;
  }

  lemma CommitOne(s: Server.Ledger, d: Server.Device, it: OutboxItem)
    requires it.payload.EventPayload?
    ensures Server.IngestBatch(s, d, BatchRequest([it])).ledger == Server.StoreEvent(s, d, it.payload.event).0
  {
    var e := it.payload.event;
    EventsOfOne(it.id, e);
    var request := BatchRequest([it]);
    assert [it][..0] == [];
    assert request == BatchRequest([it][..0]).(events := [e]);
    assert request.events[..0] == [];
    assert Server.StoreEvents(s, d, request.events).0 == Server.StoreEvent(s, d, e).0 by {
      assert Server.StoreEvents(s, d, request.events[..0]) == (s, 0);
      hide Server.StoreEvent;
    }
    hide Server.StoreEvent, BatchRequest;
  }

  /** One uploader sends the one queued change and deletes it. */
  lemma UploadOne(w: World, u: nat, it: OutboxItem)
    requires w.local.outbox == [it] && it.payload.EventPayload? && UploaderOf(w, u).Idle?
    ensures var w' := Uploaded(w, u);
            && w'.local == w.local.(outbox := [])
            && w'.server == Server.StoreEvent(w.server, w.device, it.payload.event).0
            && w'.device == w.device && UploaderOf(w', u).Idle?
            && forall v :: v != u ==> UploaderOf(w', v) == UploaderOf(w, v)
  {
    CommitOne(w.server, w.device, it);
    hide Server.IngestBatch, Server.StoreEvent, BatchRequest;
    var w1 := ReadBatch(w, u);
    assert UploaderOf(w1, u) == Sending([it]);
    var w2 := CommitBatch(w1, u);
    assert UploaderOf(w2, u) == Accepted([it]);
    assert After([it], it.id) == [];
  }

  lemma Then(w: World, steps: seq<Step>, step: Step)
    ensures Steps(w, steps + [step]) == Take(Steps(w, steps), step)
  {
    assert (steps + [step])[..|steps|] == steps;
  }

  function Upload(u: nat): seq<Step> {
    [BatchRead(u), BatchCommitted(u), BatchDeleted(u)]
  }

  lemma ThenUpload(w: World, steps: seq<Step>, u: nat)
    ensures Steps(w, steps + Upload(u)) == Uploaded(Steps(w, steps), u)
  {
    hide Take, Steps, Uploaded;
    TakeTurn(Steps(w, steps), u);
    Then(w, steps, BatchRead(u));
    Then(w, steps + [BatchRead(u)], BatchCommitted(u));
    Then(w, steps + [BatchRead(u)] + [BatchCommitted(u)], BatchDeleted(u));
    assert steps + Upload(u) == steps + [BatchRead(u)] + [BatchCommitted(u)] + [BatchDeleted(u)];
  }

  lemma TakeTurn(w: World, u: nat)
    ensures Take(Take(Take(w, BatchRead(u)), BatchCommitted(u)), BatchDeleted(u)) == Uploaded(w, u)
  {
    hide ReadBatch, CommitBatch, DeleteBatch;
  }

  /** The request is on ref on both sides, and nothing is queued. */
  ghost predicate Settled(w: World, ref: string) {
    && w.local.outbox == [] && "k" in w.local.events && w.local.events["k"] == Reading(ref)
    && Server.ValidAccounts(w.server) && "k" in w.server.events
    && Mirrors(w.server, w.device.person, w.server.events["k"], Reading(ref), ref)
  }

  /** One uploader carries a reattribution through. */
  lemma Reattribute(w: World, from: string, to: string, u: nat, parked: nat)
    requires Settled(w, from) && UploaderOf(w, u).Idle? && from != to && from != "" && to != "" && u != parked
    ensures var w' := Uploaded(ReadBatch(AfterRead(w, to), parked), u);
            && Settled(w', to) && UploaderOf(w', u).Idle? && w'.device == w.device
            && (UploaderOf(w, parked).Idle? ==>
                  UploaderOf(w', parked)
                      == Sending([OutboxItem(w.local.nextId, EventPayload(SyncEvent(Reading(to), from)))]))
            && (!UploaderOf(w, parked).Idle? ==> UploaderOf(w', parked) == UploaderOf(w, parked))
  {
    var e := SyncEvent(Reading(to), from);
    var it := OutboxItem(w.local.nextId, EventPayload(e));
    hide Reading, Server.StoreEvent, Mirrors, AfterRead, Takes, Merge, PreviousRef;
    ReadQueues(w, from, to);
    ReadingOn(from);
    ReadingOn(to);
    var w1 := AfterRead(w, to);
    var w2 := ReadBatch(w1, parked);
    UploadOne(w2, u, it);
    hide Uploaded;
    StoredFreshRow(w.server, w.device, e, Reading(from));
    History.StoreEventFrame(w.server, w.device, e);
    hide Server.ValidAccounts, Server.KeepsAccounts;
  }

  /** Reading the request on a new account queues the change and nothing else. */
  lemma ReadQueues(w: World, from: string, to: string)
    requires w.local.outbox == [] && from != to && to != ""
    requires if from == "" then "k" !in w.local.events
        else "k" in w.local.events && w.local.events["k"] == Reading(from)
    ensures var w1 := AfterRead(w, to);
            && w1.local.outbox == [OutboxItem(w.local.nextId, EventPayload(SyncEvent(Reading(to), from)))]
            && "k" in w1.local.events && w1.local.events["k"] == Reading(to)
            && w1.server == w.server && w1.device == w.device && w1.uploaders == w.uploaders
    ensures from != "" ==> Merge(Reading(from), Reading(to)) == Reading(to) && Takes(Reading(from), Reading(to))
                           && PreviousRef(Reading(from), Reading(to)) == from
  {
    hide AfterRead;
    ReadOne(w, to);
  }

  /** The first reading, on account a. */
  lemma FirstUpload(d: Server.Device, server: Server.Ledger)
    requires Server.ValidAccounts(server) && "k" !in server.events
    ensures var w := Uploaded(AfterRead(Start(d, server), "a"), 0);
            Settled(w, "a") && w.device == d && UploaderOf(w, 0).Idle? && UploaderOf(w, 1).Idle?
  {
    var e := SyncEvent(Reading("a"), "");
    var w1 := AfterRead(Start(d, server), "a");
    ReadQueues(Start(d, server), "", "a");
    hide Server.StoreEvent, Mirrors, AfterRead;
    UploadOne(w1, 0, w1.local.outbox[0]);
    hide Uploaded;
    StoredNewRow(server, d, e);
    History.StoreEventFrame(server, d, e);
    assert FirstRow(Reading("a")) == Reading("a");
    hide Server.ValidAccounts, Server.KeepsAccounts;
  }

  /** The parked batch arrives late: it takes the request back. */
  lemma LateCommit(w: World, it: OutboxItem)
    requires Settled(w, "a") && it.payload == EventPayload(SyncEvent(Reading("b"), "a"))
        && UploaderOf(w, 1) == Sending([it])
    ensures var w' := DeleteBatch(CommitBatch(w, 1), 1);
            w'.local == w.local && w'.device == w.device && "k" in w'.server.events && Server.ValidAccounts(w'.server)
            && Mirrors(w'.server, w.device.person, w'.server.events["k"], Reading("a"), "b")
  {
    var e := it.payload.event;
    StoredFreshRow(w.server, w.device, e, Reading("a"));
    assert Merge(Reading("a"), Reading("b")) == Reading("b");
    CommitOne(w.server, w.device, it);
    History.StoreEventFrame(w.server, w.device, e);
    hide Server.StoreEvent, Server.IngestBatch, BatchRequest;
    var w1 := CommitBatch(w, 1);
    assert UploaderOf(w1, 1) == Accepted([it]);
    assert After([], it.id) == [];
  }

  /** The run: the request is read on a, on b, and on a again; a second
      uploader reads the batch with the move to b and sends it last. */
  const BOUNCE: seq<Step> :=
    [Read("a")] + Upload(0)
    + [Read("b"), BatchRead(1)] + Upload(0)
    + [Read("a"), BatchRead(1)] + Upload(0)
    + [BatchCommitted(1), BatchDeleted(1)]

  /** With two uploaders the outbox can be empty and the server's row on
      another account than the device's, for good. */
  lemma TwoUploadersBounce(d: Server.Device, server: Server.Ledger)
    requires Server.ValidAccounts(server) && "k" !in server.events
    ensures var w := Steps(Start(d, server), BOUNCE);
            && w.local.outbox == [] && "k" in w.local.events && "k" in w.server.events
            && w.local.events["k"] == Reading("a")
            && Mirrors(w.server, d.person, w.server.events["k"], Reading("a"), "b")
            && !Mirrors(w.server, d.person, w.server.events["k"], Reading("a"), "a")
  {
    var w := Start(d, server);
    var p1 := [Read("a")] + Upload(0);
    var p2 := p1 + [Read("b")] + [BatchRead(1)] + Upload(0);
    var p3 := p2 + [Read("a")] + [BatchRead(1)] + Upload(0);
    var p4 := p3 + [BatchCommitted(1)] + [BatchDeleted(1)];
    assert BOUNCE == p4;
    TakesOf();
    hide Take, Steps, Read, Mirrors, AfterRead, Uploaded, ReadBatch, CommitBatch, DeleteBatch;
    Then(w, [], Read("a"));
    assert [] + [Read("a")] == [Read("a")];
    StepsNone(w);
    ThenUpload(w, [Read("a")], 0);
    FirstUpload(d, server);
    Then(w, p1, Read("b"));
    Then(w, p1 + [Read("b")], BatchRead(1));
    ThenUpload(w, p1 + [Read("b")] + [BatchRead(1)], 0);
    Reattribute(Steps(w, p1), "a", "b", 0, 1);
    Then(w, p2, Read("a"));
    Then(w, p2 + [Read("a")], BatchRead(1));
    ThenUpload(w, p2 + [Read("a")] + [BatchRead(1)], 0);
    Reattribute(Steps(w, p2), "b", "a", 0, 1);
    Then(w, p3, BatchCommitted(1));
    Then(w, p3 + [BatchCommitted(1)], BatchDeleted(1));
    LateCommit(Steps(w, p3), UploaderOf(Steps(w, p3), 1).batch[0]);
    NotOnBoth(Steps(w, p4).server, d.person, Steps(w, p4).server.events["k"], Reading("a"), "a", "b");
  }

  function OnlyK(k: string): bool { k == "k" }

  function Anthropic(k: string): string { "anthropic" }

  lemma BounceAllowed()
    ensures AllAllowed(BOUNCE, Anthropic, OnlyK)
  {
    ReadingOn("a");
    ReadingOn("b");
    hide Reading;
    forall ref | ref == "a" || ref == "b" ensures Allowed(Read(ref), Anthropic, OnlyK) {
    }
    forall step | step in BOUNCE ensures Allowed(step, Anthropic, OnlyK) {
      assert step in Upload(0) || step in [Read("a"), Read("b"), BatchRead(1), BatchCommitted(1), BatchDeleted(1)];
    }
  }

  lemma HeldRow(s: Server.Ledger, person: string, rows: map<string, UsageEvent>)
    requires Holds(s, person, OnlyK, rows) && "k" in rows
    ensures "k" in s.events && Mirrors(s, person, s.events["k"], rows["k"], rows["k"].accountRef)
  {
    assert HoldsAt(s, person, "k", rows);
  }

  /** In that run, and so with two uploaders, a batch does not keep up. */
  lemma BounceNotOrderly(d: Server.Device, server: Server.Ledger)
    requires Server.ValidAccounts(server) && "k" !in server.events
    ensures !Orderly(Start(d, server), BOUNCE, OnlyK)
  {
    TwoUploadersBounce(d, server);
    BounceAllowed();
    ReadingOn("a");
    hide Reading, Steps, Mirrors, Read;
    if Orderly(Start(d, server), BOUNCE, OnlyK) {
      hide Orderly;
      ExactlyOnceEffect(d, server, BOUNCE, Anthropic, OnlyK);
      var w := Steps(Start(d, server), BOUNCE);
      HeldRow(w.server, d.person, w.local.events);
    }
  }

  lemma TakesOf()
    ensures forall w, ref :: Take(w, Read(ref)) == AfterRead(w, ref)
    ensures forall w, u :: Take(w, BatchRead(u)) == ReadBatch(w, u)
    ensures forall w, u :: Take(w, BatchCommitted(u)) == CommitBatch(w, u)
    ensures forall w, u :: Take(w, BatchDeleted(u)) == DeleteBatch(w, u)
  {
  }

  lemma StepsNone(w: World)
    ensures Steps(w, []) == w
  {
  }

  lemma NotOnBoth(s: Server.Ledger, person: string, r: Server.Row, row: UsageEvent, ref: string, other: string)
    requires Server.ValidAccounts(s) && ref != other && Mirrors(s, person, r, row, other)
    ensures !Mirrors(s, person, r, row, ref)
  {
  }
}
