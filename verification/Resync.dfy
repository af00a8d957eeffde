/** What a resync cannot do: it is documented to replace the events uploaded
    under older rules by a fresh reading of the same files. */
module Resync {
  import opened Records
  import Client = ClientLedger
  import opened SyncProtocol
  import opened TwoUploaders
  import AfterReset
  import Server = ServerLedger
  import History = LedgerHistory

  /** The run: a request is read on a and uploaded; the ledger is reset; the
      same request is read on b and uploaded. */
  const RESYNC: seq<Step> := [Read("a")] + Upload(0) + [LedgerReset([], [])] + [Read("b")] + Upload(0)

  /** The fresh reading does not replace the old one: the outbox is empty, and
      the server's row is on a while the device's is on b. */
  lemma ResyncKeepsOld(d: Server.Device, server: Server.Ledger)
    requires Server.ValidAccounts(server) && "k" !in server.events
    ensures var w := Steps(Start(d, server), RESYNC);
            && w.local.outbox == [] && "k" in w.local.events && w.local.events["k"] == Reading("b")
            && "k" in w.server.events
            && History.Is(w.server, Server.AccountKey("anthropic", "a"), w.server.events["k"].accountId)
            && !History.Is(w.server, Server.AccountKey("anthropic", "b"), w.server.events["k"].accountId)
  {
    var w := Start(d, server);
    var first := [Read("a")] + Upload(0);
    TakesOf();
    hide Take, Steps, Read, AfterRead, Uploaded, Reading;
    Then(w, [], Read("a"));
    assert [] + [Read("a")] == [Read("a")];
    StepsNone(w);
    ThenUpload(w, [Read("a")], 0);
    FirstUpload(d, server);
    NothingElseRead(w);
    var w1 := Uploaded(AfterRead(w, "a"), 0);
    assert Steps(w, first) == w1;
    Then(w, first, LedgerReset([], []));
    EmptiedRows(w1);
    var w2 := Take(w1, LedgerReset([], []));
    Then(w, first + [LedgerReset([], [])], Read("b"));
    ThenUpload(w, first + [LedgerReset([], [])] + [Read("b")], 0);
    ReadAgain(w1, w2);
    assert Steps(w, RESYNC) == Uploaded(AfterRead(w2, "b"), 0);
    hide *;
  }

  /** Reading and uploading one request touches neither sign-ins nor readings. */
  lemma NothingElseRead(w: World)
    ensures var w' := Uploaded(AfterRead(w, "a"), 0);
            w'.local.signIns == w.local.signIns && w'.local.readings == w.local.readings
  {
    hide Uploaded, AfterRead;
    ReadKeeps(w, "a");
    UploadKeeps(AfterRead(w, "a"), 0);
  }

  lemma ReadKeeps(w: World, ref: string)
    ensures var w' := AfterRead(w, ref); w'.local.signIns == w.local.signIns && w'.local.readings == w.local.readings
  {
    hide AfterRead, Client.SaveEvent;
    ReadOne(w, ref);
    SavedEventOnly(w.local, Reading(ref));
  }

  lemma UploadKeeps(w: World, u: nat)
    ensures var w' := Uploaded(w, u); w'.local.signIns == w.local.signIns && w'.local.readings == w.local.readings
  {
    hide Server.IngestBatch, BatchRequest, Client.After, Client.Pending;
  }

  lemma SavedEventOnly(s: Client.Local, e: UsageEvent)
    ensures var s' := Client.SaveEvent(s, e).0; s'.signIns == s.signIns && s'.readings == s.readings
  {
    hide Client.Merge, Client.Takes, Client.PreviousRef, Client.FirstRow;
  }

  lemma EmptiedRows(w: World)
    requires w.local.outbox == [] && w.local.signIns == map[] && w.local.readings == map[]
    ensures var w' := Take(w, LedgerReset([], []));
            && w'.local.outbox == [] && w'.local.events == map[] && w'.server == w.server && w'.device == w.device
            && w'.uploaders == w.uploaders
  {
    assert Client.PooledSignIns(w.local) == {};
    assert w.local.readings.Keys == {};
  }

  lemma ReadAgain(w1: World, w2: World)
    requires Settled(w1, "a") && w2.local.outbox == [] && w2.local.events == map[]
    requires w2.server == w1.server && w2.device == w1.device && UploaderOf(w2, 0).Idle?
    ensures var w := Uploaded(AfterRead(w2, "b"), 0);
            && w.local.outbox == [] && "k" in w.local.events && w.local.events["k"] == Reading("b")
            && "k" in w.server.events
            && History.Is(w.server, Server.AccountKey("anthropic", "a"), w.server.events["k"].accountId)
            && !History.Is(w.server, Server.AccountKey("anthropic", "b"), w.server.events["k"].accountId)
  {
    var e := SyncEvent(Reading("b"), "");
    ReadingOn("a");
    ReadingOn("b");
    hide Reading, AfterRead;
    ReadQueues(w2, "", "b");
    var w3 := AfterRead(w2, "b");
    hide Server.StoreEvent;
    UploadOne(w3, 0, w3.local.outbox[0]);
    hide Uploaded;
    History.StoreEventFrame(w2.server, w2.device, e);
    AfterReset.StoredAccount(w2.server, w2.device, e);
    hide AfterReset.SameOwner;
  }
}
