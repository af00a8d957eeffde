/** At-least-once upload has exactly-once effect: without a reset, the server's
    rows follow the device's rows through every crash, lost answer and resend,
    exactly while no batch that arrives late takes a request back. */
module ExactlyOnce {
  import opened Records
  import opened ClientLedger
  import opened SyncProtocol
  import opened UploadQueue
  import Server = ServerLedger
  import History = LedgerHistory

  // ------------------------------------------------------ what a queue stands for

  /** The device's row after one more queued change. */
  function Apply(rows: map<string, UsageEvent>, e: UsageEvent): map<string, UsageEvent> {
    rows[e.dedupeKey := if e.dedupeKey in rows then Merge(rows[e.dedupeKey], e) else FirstRow(e)]
  }

  /** The rows a sequence of queued changes stands for. */
  function Replica(es: seq<SyncEvent>): map<string, UsageEvent> {
    if es == [] then map[] else Apply(Replica(es[..|es| - 1]), es[|es| - 1].event)
  }

  /** A change the device queues when its rows are as given. */
  ghost predicate Follows(rows: map<string, UsageEvent>, e: SyncEvent) {
    if e.event.dedupeKey in rows then
      Takes(rows[e.event.dedupeKey], e.event) && e.previousRef == PreviousRef(rows[e.event.dedupeKey], e.event)
    else e.previousRef == ""
  }

  /** What attribution guarantees of an event: an account, a key and a fixed
      provider for it; and, here, no gateway. */
  ghost predicate Proper(e: UsageEvent, provider: string -> string) {
    e.accountRef != "" && e.dedupeKey != "" && e.gateway == "" && e.provider == provider(e.dedupeKey)
  }

  /** Changes a device queued, one after the other. */
  ghost predicate Generated(es: seq<SyncEvent>, provider: string -> string) {
    forall i :: 0 <= i < |es| ==> Follows(Replica(es[..i]), es[i]) && Proper(es[i].event, provider)
  }

  /** A row that has nothing more to learn from an event but its account. */
  ghost predicate Absorbs(row: UsageEvent, e: UsageEvent) {
    && row.provider == e.provider
    && e.tokens.output <= row.tokens.output && e.tokens.reasoning <= row.tokens.reasoning
    && (row.requestId == "" ==> e.requestId == "")
    && (row.parentRequestId == "" ==> e.parentRequestId == "")
    && (row.effort == "" ==> e.effort == "")
    && (row.status == "" ==> e.status == "")
    && (e.aggregated ==> row.aggregated)
  }

  /** Two states of one request's row: what is fixed at its first reading agrees. */
  ghost predicate SameRequest(row: UsageEvent, row': UsageEvent) {
    row.session == row'.session && row.originator == row'.originator && row.provider == row'.provider
  }

  lemma ReplicaStep(es: seq<SyncEvent>, i: nat)
    requires i < |es|
    ensures Replica(es[..i + 1]) == Apply(Replica(es[..i]), es[i].event)
  {
    assert es[..i + 1][..i] == es[..i];
  }

  lemma MergeAbsorbs(row: UsageEvent, e: UsageEvent, x: UsageEvent)
    ensures Absorbs(row, x) ==> Absorbs(Merge(row, e), x)
    ensures row.provider == e.provider ==> Absorbs(Merge(row, e), e)
    ensures SameRequest(Merge(row, e), row)
  {
  }

  lemma FirstRowAbsorbs(e: UsageEvent)
    ensures Absorbs(FirstRow(e), e)
    ensures SameRequest(FirstRow(e), e)
  {
  }

  lemma MergeKeepsRequest(row: UsageEvent, e: UsageEvent)
    ensures Merge(row, e).accountRef == FirstRow(e).accountRef == e.accountRef
  {
  }

  /** A row is of one request from then on. */
  lemma {:induction false} ReplicaKeeps(es: seq<SyncEvent>, i: nat, j: nat, k: string)
    requires i <= j <= |es| && k in Replica(es[..i])
    ensures k in Replica(es[..j]) && SameRequest(Replica(es[..j])[k], Replica(es[..i])[k])
    decreases j
  {
    hide Merge, FirstRow;
    if i < j {
      ReplicaKeeps(es, i, j - 1, k);
      ReplicaStep(es, j - 1);
      MergeAbsorbs(Replica(es[..j - 1])[k], es[j - 1].event, es[j - 1].event);
    }
  }

  lemma SomethingQueued(es: seq<SyncEvent>, j: nat, k: string)
    requires j <= |es| && k in Replica(es[..j])
    ensures j > 0
  {
  }

  /** A row is always on an account, under its key's provider. */
  lemma {:induction false} ReplicaProper(es: seq<SyncEvent>, j: nat, k: string, provider: string -> string)
    requires Generated(es, provider) && j <= |es| && k in Replica(es[..j])
    ensures Replica(es[..j])[k].accountRef != "" && Replica(es[..j])[k].provider == provider(k)
  {
    hide Replica, Merge, FirstRow;
    SomethingQueued(es, j, k);
    var e, before := es[j - 1].event, Replica(es[..j - 1]);
    ReplicaStep(es, j - 1);
    assert Proper(e, provider);
    FirstRowAbsorbs(e);
    if k in before {
      ReplicaProper(es, j - 1, k, provider);
      MergeKeepsRequest(before[k], e);
      MergeAbsorbs(before[k], e, e);
    } else {
      MergeKeepsRequest(e, e);
    }
  }

  /** The rows have absorbed every change queued so far. */
  lemma {:induction false} ReplicaAbsorbs(es: seq<SyncEvent>, i: nat, j: nat, provider: string -> string)
    requires Generated(es, provider) && i < j <= |es|
    ensures es[i].event.dedupeKey in Replica(es[..j]) && Absorbs(Replica(es[..j])[es[i].event.dedupeKey], es[i].event)
    decreases j
  {
    hide Merge, FirstRow, Absorbs;
    var k, e, before := es[i].event.dedupeKey, es[j - 1].event, Replica(es[..j - 1]);
    ReplicaStep(es, j - 1);
    assert Proper(es[i].event, provider);
    if i < j - 1 {
      ReplicaAbsorbs(es, i, j - 1, provider);
      MergeAbsorbs(before[k], e, es[i].event);
    } else if k in before {
      ReplicaProper(es, j - 1, k, provider);
      MergeAbsorbs(before[k], e, e);
    } else {
      FirstRowAbsorbs(e);
    }
  }

  // --------------------------------------------------------- the server's rows

  /** The server's row says what the device's row says, on the account ref. */
  ghost predicate Mirrors(s: Server.Ledger, person: string, r: Server.Row, row: UsageEvent, ref: string) {
    && Server.AccountKey(row.provider, ref) in s.accounts
    && s.accounts[Server.AccountKey(row.provider, ref)].id == r.accountId
    && r.person == person && r.product == row.product && r.originator == row.originator && r.session == row.session
    && r.model == row.model && r.tokens == row.tokens && CutToMilli(r.occurredAt) == row.occurredAt
    && r.gateway == "" && (row.thirdParty ==> r.thirdParty)
    && r.requestId == row.requestId && r.parentRequestId == row.parentRequestId
    && r.effort == row.effort && r.status == row.status && r.aggregated == row.aggregated
  }

  ghost predicate HoldsAt(s: Server.Ledger, person: string, k: string, rows: map<string, UsageEvent>) {
    && (k in s.events <==> k in rows)
    && (k in rows ==> Mirrors(s, person, s.events[k], rows[k], rows[k].accountRef))
  }

  /** The server holds exactly the given rows under the device's keys. */
  ghost predicate Holds(s: Server.Ledger, person: string, mine: string -> bool, rows: map<string, UsageEvent>) {
    forall k :: mine(k) ==> HoldsAt(s, person, k, rows)
  }

  ghost predicate ReplaysAt(s: Server.Ledger, person: string, k: string,
                            final: map<string, UsageEvent>, reached: map<string, UsageEvent>) {
    && (k in s.events <==> k in final)
    && (k in final ==> Mirrors(s, person, s.events[k], final[k], final[k].accountRef)
                       || (k in reached && Mirrors(s, person, s.events[k], final[k], reached[k].accountRef)))
  }

  /** The server while changes it has seen are replayed: everything but the
      account as in the final rows, and the account either the final one or
      the one reached by the replay. */
  ghost predicate Replays(s: Server.Ledger, person: string, mine: string -> bool,
                          final: map<string, UsageEvent>, reached: map<string, UsageEvent>) {
    forall k :: mine(k) ==> ReplaysAt(s, person, k, final, reached)
  }

  /** Rows survive whatever touches neither them nor the account ids. */
  lemma MirrorsKept(s: Server.Ledger, s': Server.Ledger, person: string, r: Server.Row, row: UsageEvent, ref: string)
    requires Server.KeepsAccounts(s, s') && Mirrors(s, person, r, row, ref)
    ensures Mirrors(s', person, r, row, ref)
  {
  }

  /** One event already seen, delivered to a row of the replay: the row keeps
      everything but its account, which goes where the device's went if it
      was where the device's was, and else stays. */
  lemma ReplayRow(s: Server.Ledger, d: Server.Device, r: Server.Row, e: SyncEvent, final: UsageEvent, ref: string)
    requires Server.ValidAccounts(s) && Server.EventAccount(e) in s.accounts
    requires Mirrors(s, d.person, r, final, ref) && Absorbs(final, e.event) && e.event.gateway == ""
    requires e.previousRef != "" ==> final.session == e.event.session && final.originator == e.event.originator
    requires e.previousRef != e.event.accountRef
    ensures var id := s.accounts[Server.EventAccount(e)].id;
            var r' := Server.Deliver(r, d, id, Server.PreviousId(s, e.event.provider, e.previousRef), e.event);
            Mirrors(s, d.person, r', final, if e.previousRef != "" && e.previousRef == ref then e.event.accountRef
                else ref)
  {
    var id := s.accounts[Server.EventAccount(e)].id;
    var previous := Server.PreviousId(s, e.event.provider, e.previousRef);
    assert !Server.Merges(r, id, e.event);
    assert Server.Corrects(r, id, previous, e.event) <==> e.previousRef != "" && e.previousRef == ref;
    assert Raise(r.tokens, e.event.tokens) == r.tokens;
  }

  /** An event not seen before, delivered to a row that mirrors the device's. */
  lemma FreshRow(s: Server.Ledger, d: Server.Device, r: Server.Row, e: SyncEvent, row: UsageEvent)
    requires Server.ValidAccounts(s) && Server.EventAccount(e) in s.accounts
    requires Mirrors(s, d.person, r, row, row.accountRef) && row.accountRef != "" && row.provider == e.event.provider
    requires e.event.gateway == "" && Takes(row, e.event) && e.previousRef == PreviousRef(row, e.event)
    ensures var id := s.accounts[Server.EventAccount(e)].id;
            var r' := Server.Deliver(r, d, id, Server.PreviousId(s, e.event.provider, e.previousRef), e.event);
            Mirrors(s, d.person, r', Merge(row, e.event), e.event.accountRef)
  {
    var id := s.accounts[Server.EventAccount(e)].id;
    var previous := Server.PreviousId(s, e.event.provider, e.previousRef);
    assert Adds(row, e.event) ==> Server.Merges(r, id, e.event);
    assert Reattributes(row, e.event) ==> Server.Corrects(r, id, previous, e.event);
  }

  /** A change seen before, stored again: the replay moves one change on. */
  lemma ReplayEvent(s: Server.Ledger, d: Server.Device, mine: string -> bool, es: seq<SyncEvent>, i: nat, m: nat,
                    provider: string -> string)
    requires Server.ValidAccounts(s) && Generated(es, provider) && i < m <= |es|
    requires Replays(s, d.person, mine, Replica(es[..m]), Replica(es[..i]))
    ensures Replays(Server.StoreEvent(s, d, es[i]).0, d.person, mine, Replica(es[..m]), Replica(es[..i + 1]))
  {
    var k, s' := es[i].event.dedupeKey, Server.StoreEvent(s, d, es[i]).0;
    var final, reached, next := Replica(es[..m]), Replica(es[..i]), Replica(es[..i + 1]);
    ReplicaStep(es, i);
    History.StoreEventFrame(s, d, es[i]);
    hide Merge, FirstRow, Mirrors, Server.StoreEvent, Generated;
    forall j | mine(j) ensures ReplaysAt(s', d.person, j, final, next) {
      assert ReplaysAt(s, d.person, j, final, reached);
      if j != k {
        ReplayOther(s, s', d.person, j, final, reached);
        assert j in next <==> j in reached;
      } else {
        ReplicaAbsorbs(es, i, m, provider);
        ReplayedRow(s, d, es, i, m, provider,
                    if Mirrors(s, d.person, s.events[k], final[k], final[k].accountRef) then final[k].accountRef
                        else reached[k].accountRef);
      }
    }
  }

  lemma ReplayOther(s: Server.Ledger, s': Server.Ledger, person: string, k: string,
                    final: map<string, UsageEvent>, reached: map<string, UsageEvent>)
    requires Server.KeepsAccounts(s, s') && ReplaysAt(s, person, k, final, reached)
    requires (k in s.events <==> k in s'.events) && (k in s.events ==> s.events[k] == s'.events[k])
    ensures ReplaysAt(s', person, k, final, reached)
  {
    if k in final {
      var ref := if Mirrors(s, person, s.events[k], final[k], final[k].accountRef) then final[k].accountRef
          else reached[k].accountRef;
      MirrorsKept(s, s', person, s.events[k], final[k], ref);
    }
  }

  lemma ReplayedRow(s: Server.Ledger, d: Server.Device, es: seq<SyncEvent>, i: nat, m: nat,
                    provider: string -> string, ref: string)
    requires Server.ValidAccounts(s) && Generated(es, provider) && i < m <= |es|
    requires es[i].event.dedupeKey in Replica(es[..m]) && es[i].event.dedupeKey in s.events
    requires var k := es[i].event.dedupeKey;
             && Mirrors(s, d.person, s.events[k], Replica(es[..m])[k], ref)
             && (ref == Replica(es[..m])[k].accountRef
                 || (k in Replica(es[..i]) && ref == Replica(es[..i])[k].accountRef))
    ensures var k, s' := es[i].event.dedupeKey, Server.StoreEvent(s, d, es[i]).0;
            k in s'.events && k in Replica(es[..i + 1])
            && (Mirrors(s', d.person, s'.events[k], Replica(es[..m])[k], Replica(es[..m])[k].accountRef)
                || Mirrors(s', d.person, s'.events[k], Replica(es[..m])[k], Replica(es[..i + 1])[k].accountRef))
  {
    var e, k, reached := es[i], es[i].event.dedupeKey, Replica(es[..i]);
    assert Follows(reached, e);
    ReplicaStep(es, i);
    CarriedRow(s, d, es, i, m, provider, ref);
    hide Server.StoreEvent, Mirrors, Replica, Generated, Server.ValidAccounts;
    if k in reached {
      ReplicaProper(es, i, k, provider);
      CarriedIsNext(reached[k], e);
      MergeKeepsRequest(reached[k], e.event);
    } else {
      MergeKeepsRequest(e.event, e.event);
    }
    hide Merge, FirstRow, Takes, PreviousRef;
  }

  /** A change the device queues carries a row like the device's along. */
  lemma CarriedIsNext(row: UsageEvent, e: SyncEvent)
    requires Takes(row, e.event) && e.previousRef == PreviousRef(row, e.event) && row.accountRef != ""
    ensures CarriedBy(row.accountRef, e) == e.event.accountRef
  {
  }

  /** Where a row's account is after a change: along with it, if the change
      corrects the account the row is on. */
  function CarriedBy(ref: string, e: SyncEvent): string {
    if e.previousRef != "" && e.previousRef == ref then e.event.accountRef else ref
  }

  lemma CarriedRow(s: Server.Ledger, d: Server.Device, es: seq<SyncEvent>, i: nat, m: nat,
                   provider: string -> string, ref: string)
    requires Server.ValidAccounts(s) && Generated(es, provider) && i < m <= |es|
    requires es[i].event.dedupeKey in Replica(es[..m]) && es[i].event.dedupeKey in s.events
    requires var k := es[i].event.dedupeKey; Mirrors(s, d.person, s.events[k], Replica(es[..m])[k], ref)
    ensures var k, s' := es[i].event.dedupeKey, Server.StoreEvent(s, d, es[i]).0;
            k in s'.events && Mirrors(s', d.person, s'.events[k], Replica(es[..m])[k], CarriedBy(ref, es[i]))
  {
    var e, k, reached := es[i], es[i].event.dedupeKey, Replica(es[..i]);
    assert Proper(e.event, provider) && Follows(reached, e);
    ReplicaStep(es, i);
    ReplicaAbsorbs(es, i, m, provider);
    if k in reached {
      ReplicaKeeps(es, i, m, k);
      ReplicaProper(es, i, k, provider);
    }
    var s1 := Server.EnsureAccount(s, Server.EventAccount(e), "", "", 0, d.person);
    History.EnsureKeeps(s, Server.EventAccount(e), "", "", 0, d.person);
    MirrorsKept(s, s1, d.person, s.events[k], Replica(es[..m])[k], ref);
    ReplayRow(s1, d, s.events[k], e, Replica(es[..m])[k], ref);
    hide Server.Deliver, Server.EnsureAccount, Absorbs, Takes;
  }

  /** A new change, stored: the server's rows move on with the device's. */
  lemma FreshEvent(s: Server.Ledger, d: Server.Device, mine: string -> bool, es: seq<SyncEvent>, i: nat,
                   provider: string -> string)
    requires Server.ValidAccounts(s) && Generated(es, provider) && i < |es|
    requires Holds(s, d.person, mine, Replica(es[..i]))
    ensures Holds(Server.StoreEvent(s, d, es[i]).0, d.person, mine, Replica(es[..i + 1]))
  {
    var k, s' := es[i].event.dedupeKey, Server.StoreEvent(s, d, es[i]).0;
    var rows, next := Replica(es[..i]), Replica(es[..i + 1]);
    ReplicaStep(es, i);
    History.StoreEventFrame(s, d, es[i]);
    hide Merge, FirstRow, Mirrors, Server.StoreEvent, Generated;
    forall j | mine(j) ensures HoldsAt(s', d.person, j, next) {
      assert HoldsAt(s, d.person, j, rows);
      if j == k {
        StoredRow(s, d, es, i, provider);
      } else if j in rows {
        MirrorsKept(s, s', d.person, s.events[j], rows[j], rows[j].accountRef);
      }
    }
  }

  lemma StoredRow(s: Server.Ledger, d: Server.Device, es: seq<SyncEvent>, i: nat, provider: string -> string)
    requires Server.ValidAccounts(s) && Generated(es, provider) && i < |es|
    requires HoldsAt(s, d.person, es[i].event.dedupeKey, Replica(es[..i]))
    ensures HoldsAt(Server.StoreEvent(s, d, es[i]).0, d.person, es[i].event.dedupeKey, Replica(es[..i + 1]))
  {
    var e, k, rows := es[i], es[i].event.dedupeKey, Replica(es[..i]);
    assert Proper(e.event, provider) && Follows(rows, e);
    ReplicaStep(es, i);
    if k in rows {
      ReplicaProper(es, i, k, provider);
      MergeKeepsRequest(rows[k], e.event);
      StoredFreshRow(s, d, e, rows[k]);
    } else {
      StoredNewRow(s, d, e);
    }
    hide Server.StoreEvent, Merge, FirstRow, Takes, Mirrors;
  }

  lemma StoredFreshRow(s: Server.Ledger, d: Server.Device, e: SyncEvent, row: UsageEvent)
    requires Server.ValidAccounts(s) && e.event.accountRef != "" && e.event.dedupeKey != ""
        && e.event.dedupeKey in s.events
    requires Mirrors(s, d.person, s.events[e.event.dedupeKey], row, row.accountRef)
    requires row.accountRef != "" && row.provider == e.event.provider
    requires e.event.gateway == "" && Takes(row, e.event) && e.previousRef == PreviousRef(row, e.event)
    ensures var s' := Server.StoreEvent(s, d, e).0;
            e.event.dedupeKey in s'.events
                && Mirrors(s', d.person, s'.events[e.event.dedupeKey], Merge(row, e.event), e.event.accountRef)
  {
    var s1, k := Server.EnsureAccount(s, Server.EventAccount(e), "", "", 0, d.person), e.event.dedupeKey;
    History.EnsureKeeps(s, Server.EventAccount(e), "", "", 0, d.person);
    MirrorsKept(s, s1, d.person, s.events[k], row, row.accountRef);
    FreshRow(s1, d, s.events[k], e, row);
    hide Server.EnsureAccount, Server.Deliver, Merge, Takes;
  }

  lemma StoredNewRow(s: Server.Ledger, d: Server.Device, e: SyncEvent)
    requires e.event.accountRef != "" && e.event.dedupeKey != "" && e.event.dedupeKey !in s.events
        && e.event.gateway == ""
    ensures var s' := Server.StoreEvent(s, d, e).0;
            e.event.dedupeKey in s'.events
                && Mirrors(s', d.person, s'.events[e.event.dedupeKey], FirstRow(e.event), e.event.accountRef)
  {
    var s1 := Server.EnsureAccount(s, Server.EventAccount(e), "", "", 0, d.person);
    History.EnsureKeeps(s, Server.EventAccount(e), "", "", 0, d.person);
    InsertedRow(s1, d, e);
    hide Server.EnsureAccount, Server.Deliver, FirstRow;
  }

  lemma InsertedRow(s: Server.Ledger, d: Server.Device, e: SyncEvent)
    requires Server.EventAccount(e) in s.accounts && e.event.gateway == ""
    ensures var id := s.accounts[Server.EventAccount(e)].id;
            var r := Server.Deliver(Server.NewRow(d, id, e.event), d, id,
                Server.PreviousId(s, e.event.provider, e.previousRef), e.event);
            Mirrors(s, d.person, r, FirstRow(e.event), e.event.accountRef)
  {
  }

  /** A server that holds rows is at the end of their replay, and at its start. */
  lemma HoldsReplays(s: Server.Ledger, person: string, mine: string -> bool,
                     final: map<string, UsageEvent>, reached: map<string, UsageEvent>)
    ensures Holds(s, person, mine, final) <==> Replays(s, person, mine, final, final)
    ensures Holds(s, person, mine, final) ==> Replays(s, person, mine, final, reached)
  {
    hide Mirrors;
    forall k ensures HoldsAt(s, person, k, final) <==> ReplaysAt(s, person, k, final, final) {
    }
    forall k ensures HoldsAt(s, person, k, final) ==> ReplaysAt(s, person, k, final, reached) {
    }
  }

  // -------------------------------------------------------------- whole batches

  /** A batch that starts with changes the server has seen and goes on with new
      ones leaves the rows of all of them: while the seen part is replayed each
      account is the replay's or the final one, and it ends at the final one. */
  lemma {:induction false} BatchStored(s: Server.Ledger, d: Server.Device, mine: string -> bool, es: seq<SyncEvent>,
                                       h: nat, m: nat, j: nat, provider: string -> string)
    requires Server.ValidAccounts(s) && Generated(es, provider) && h <= m <= |es| && h <= j <= |es|
    requires Holds(s, d.person, mine, Replica(es[..m]))
    ensures Server.ValidAccounts(Server.StoreEvents(s, d, es[h..j]).0)
    ensures j <= m ==> Replays(Server.StoreEvents(s, d, es[h..j]).0, d.person, mine, Replica(es[..m]), Replica(es[..j]))
    ensures j >= m ==> Holds(Server.StoreEvents(s, d, es[h..j]).0, d.person, mine, Replica(es[..j]))
    decreases j
  {
    hide Holds, Replays, Generated, Replica, Server.StoreEvent, Server.ValidAccounts;
    if j == h {
      assert es[h..j] == [];
      assert Server.StoreEvents(s, d, []) == (s, 0);
      HoldsReplays(s, d.person, mine, Replica(es[..m]), Replica(es[..j]));
    } else {
      hide Server.StoreEvents;
      BatchStored(s, d, mine, es, h, m, j - 1, provider);
      NextStored(Server.StoreEvents(s, d, es[h..j - 1]).0, d, mine, es, m, j - 1, provider);
      StoreOneMore(s, d, es, h, j);
    }
  }

  lemma StoreOneMore(s: Server.Ledger, d: Server.Device, es: seq<SyncEvent>, h: nat, j: nat)
    requires h < j <= |es|
    ensures Server.StoreEvents(s, d, es[h..j]).0
        == Server.StoreEvent(Server.StoreEvents(s, d, es[h..j - 1]).0, d, es[j - 1]).0
  {
    hide Server.StoreEvent;
    assert es[h..j][..j - 1 - h] == es[h..j - 1];
  }

  /** One change of a batch: of its replayed part up to m, or new. */
  lemma NextStored(s: Server.Ledger, d: Server.Device, mine: string -> bool, es: seq<SyncEvent>, m: nat, i: nat,
                   provider: string -> string)
    requires Server.ValidAccounts(s) && Generated(es, provider) && i < |es| && m <= |es|
    requires i <= m ==> Replays(s, d.person, mine, Replica(es[..m]), Replica(es[..i]))
    requires i >= m ==> Holds(s, d.person, mine, Replica(es[..i]))
    ensures var s' := Server.StoreEvent(s, d, es[i]).0;
            && Server.ValidAccounts(s')
            && (i + 1 <= m ==> Replays(s', d.person, mine, Replica(es[..m]), Replica(es[..i + 1])))
            && (i + 1 >= m ==> Holds(s', d.person, mine, Replica(es[..i + 1])))
  {
    var s' := Server.StoreEvent(s, d, es[i]).0;
    History.StoreEventFrame(s, d, es[i]);
    hide Holds, Replays, Generated, Server.StoreEvent, Server.ValidAccounts;
    if i < m {
      ReplayEvent(s, d, mine, es, i, m, provider);
      HoldsReplays(s', d.person, mine, Replica(es[..m]), Replica(es[..m]));
    } else {
      FreshEvent(s, d, mine, es, i, provider);
    }
  }

  // ---------------------------------------------------------------- late batches

  /** Where changes already seen carry a row's account, one after the other. */
  function Carried(ref: string, es: seq<SyncEvent>, k: string): string {
    if es == [] then ref
    else
      var before := Carried(ref, es[..|es| - 1], k);
      if es[|es| - 1].event.dedupeKey == k then CarriedBy(before, es[|es| - 1]) else before
  }

  ghost predicate CarriedAt(s: Server.Ledger, person: string, k: string, rows: map<string, UsageEvent>,
      es: seq<SyncEvent>) {
    && (k in s.events <==> k in rows)
    && (k in rows ==> Mirrors(s, person, s.events[k], rows[k], Carried(rows[k].accountRef, es, k)))
  }

  /** The server holds the rows, each on the account the changes carry it to. */
  ghost predicate HoldsCarried(s: Server.Ledger, person: string, mine: string -> bool, rows: map<string, UsageEvent>,
                               es: seq<SyncEvent>) {
    forall k :: mine(k) ==> CarriedAt(s, person, k, rows, es)
  }

  /** The changes carry no row away from the account it is on. */
  ghost predicate TakesNoneBack(rows: map<string, UsageEvent>, es: seq<SyncEvent>, mine: string -> bool) {
    forall k :: mine(k) && k in rows ==> Carried(rows[k].accountRef, es, k) == rows[k].accountRef
  }

  lemma CarriedStep(ref: string, es: seq<SyncEvent>, h: nat, i: nat, k: string)
    requires h <= i < |es|
    ensures Carried(ref, es[h..i + 1], k)
            == if es[i].event.dedupeKey == k then CarriedBy(Carried(ref, es[h..i], k), es[i])
                else Carried(ref, es[h..i], k)
  {
    assert es[h..i + 1][..i - h] == es[h..i] && es[h..i + 1][i - h] == es[i];
  }

  lemma CarriedEvent(s: Server.Ledger, d: Server.Device, mine: string -> bool, es: seq<SyncEvent>, h: nat, i: nat,
                     m: nat, provider: string -> string)
    requires Server.ValidAccounts(s) && Generated(es, provider) && h <= i < m <= |es|
    requires HoldsCarried(s, d.person, mine, Replica(es[..m]), es[h..i])
    ensures HoldsCarried(Server.StoreEvent(s, d, es[i]).0, d.person, mine, Replica(es[..m]), es[h..i + 1])
  {
    var k, s', rows := es[i].event.dedupeKey, Server.StoreEvent(s, d, es[i]).0, Replica(es[..m]);
    History.StoreEventFrame(s, d, es[i]);
    hide Mirrors, Server.StoreEvent, Generated, CarriedBy, Carried, Replica, Server.ValidAccounts;
    forall j | mine(j) ensures CarriedAt(s', d.person, j, rows, es[h..i + 1]) {
      assert CarriedAt(s, d.person, j, rows, es[h..i]);
      if j in rows {
        CarriedStep(rows[j].accountRef, es, h, i, j);
      }
      if j == k {
        ReplicaAbsorbs(es, i, m, provider);
        CarriedRow(s, d, es, i, m, provider, Carried(rows[k].accountRef, es[h..i], k));
      } else if j in rows {
        MirrorsKept(s, s', d.person, s.events[j], rows[j], Carried(rows[j].accountRef, es[h..i], j));
      }
    }
  }

  /** A batch of changes all seen before leaves every row but for its account,
      which it carries along. */
  lemma {:induction false} LateBatchStored(s: Server.Ledger, d: Server.Device, mine: string -> bool, es: seq<SyncEvent>,
                                           h: nat, j: nat, m: nat, provider: string -> string)
    requires Server.ValidAccounts(s) && Generated(es, provider) && h <= j <= m <= |es|
    requires Holds(s, d.person, mine, Replica(es[..m]))
    ensures var s' := Server.StoreEvents(s, d, es[h..j]).0;
            Server.ValidAccounts(s') && HoldsCarried(s', d.person, mine, Replica(es[..m]), es[h..j])
    decreases j
  {
    hide Generated, Replica, Server.StoreEvent, Server.ValidAccounts, Holds, HoldsCarried;
    if j == h {
      assert es[h..j] == [];
      assert Server.StoreEvents(s, d, []) == (s, 0);
      CarriedByNone(s, d.person, mine, Replica(es[..m]));
    } else {
      hide Server.StoreEvents;
      LateBatchStored(s, d, mine, es, h, j - 1, m, provider);
      var s1 := Server.StoreEvents(s, d, es[h..j - 1]).0;
      CarriedEvent(s1, d, mine, es, h, j - 1, m, provider);
      History.StoreEventFrame(s1, d, es[j - 1]);
      StoreOneMore(s, d, es, h, j);
    }
  }

  lemma CarriedByNone(s: Server.Ledger, person: string, mine: string -> bool, rows: map<string, UsageEvent>)
    requires Holds(s, person, mine, rows)
    ensures HoldsCarried(s, person, mine, rows, [])
  {
    hide Mirrors;
    forall k | mine(k) ensures CarriedAt(s, person, k, rows, []) {
      assert HoldsAt(s, person, k, rows);
    }
  }

  /** A row mirrors on one account only. */
  lemma MirrorsOnOne(s: Server.Ledger, person: string, r: Server.Row, row: UsageEvent, ref: string, ref': string)
    requires Server.ValidAccounts(s) && Mirrors(s, person, r, row, ref) && Mirrors(s, person, r, row, ref')
    ensures ref == ref'
  {
  }

  lemma CarriedHolds(s: Server.Ledger, person: string, mine: string -> bool, rows: map<string, UsageEvent>,
                     es: seq<SyncEvent>)
    requires Server.ValidAccounts(s) && HoldsCarried(s, person, mine, rows, es)
    ensures Holds(s, person, mine, rows) <==> TakesNoneBack(rows, es, mine)
  {
    hide Mirrors, Carried, Server.ValidAccounts;
    if Holds(s, person, mine, rows) {
      forall k | mine(k) && k in rows ensures Carried(rows[k].accountRef, es, k) == rows[k].accountRef {
        assert HoldsAt(s, person, k, rows) && CarriedAt(s, person, k, rows, es);
        MirrorsOnOne(s, person, s.events[k], rows[k], Carried(rows[k].accountRef, es, k), rows[k].accountRef);
      }
    }
    if TakesNoneBack(rows, es, mine) {
      forall k | mine(k) ensures HoldsAt(s, person, k, rows) {
        assert CarriedAt(s, person, k, rows, es);
      }
    }
  }

  // ------------------------------------------------- the device's rows and log

  function EventsOf(items: seq<OutboxItem>): seq<SyncEvent> {
    BatchRequest(items).events
  }

  lemma {:induction false} EventsOfConcat(a: seq<OutboxItem>, b: seq<OutboxItem>)
    ensures EventsOf(a + b) == EventsOf(a) + EventsOf(b)
  {
    if b == [] {
      assert a + b == a;
    } else {
      var n := |b| - 1;
      EventsOfConcat(a, b[..n]);
      assert (a + b)[..|a| + n] == a + b[..n];
    }
  }

  lemma {:induction false} NoEventsOf(items: seq<OutboxItem>)
    requires forall it :: it in items ==> !it.payload.EventPayload?
    ensures EventsOf(items) == []
  {
    if items != [] {
      NoEventsOf(items[..|items| - 1]);
    }
  }

  /** The device's rows are what its queued changes stand for. */
  ghost predicate Tracks(rows: map<string, UsageEvent>, es: seq<SyncEvent>, provider: string -> string,
                         mine: string -> bool) {
    rows == Replica(es) && Generated(es, provider) && forall k :: k in rows ==> mine(k)
  }

  lemma GeneratedOneMore(es: seq<SyncEvent>, e: SyncEvent, provider: string -> string)
    requires Generated(es, provider) && Follows(Replica(es), e) && Proper(e.event, provider)
    ensures Generated(es + [e], provider) && Replica(es + [e]) == Apply(Replica(es), e.event)
  {
    var more := es + [e];
    forall i | 0 <= i < |more| ensures Follows(Replica(more[..i]), more[i]) && Proper(more[i].event, provider) {
      assert more[..i] == es[..i];
      if i == |es| {
        assert es[..i] == es;
      }
    }
    assert more[..|es|] == es;
  }

  /** The items a transaction queued. */
  function Added(s: Local, s': Local): seq<OutboxItem> {
    s'.outbox[Records.Min(|s.outbox|, |s'.outbox|)..]
  }

  lemma EventsOfOne(id: nat, e: SyncEvent)
    ensures EventsOf([OutboxItem(id, EventPayload(e))]) == [e]
  {
    var items := [OutboxItem(id, EventPayload(e))];
    var none := BatchRequest(items[..0]);
    assert none.events == [];
    assert BatchRequest(items) == none.(events := none.events + [e]);
  }

  lemma SaveEventTracks(s: Local, e: UsageEvent, es: seq<SyncEvent>, provider: string -> string, mine: string -> bool)
    requires Tracks(s.events, es, provider, mine) && Proper(e, provider) && mine(e.dedupeKey)
    ensures var s' := SaveEvent(s, e).0;
            Appends(s, s') && Tracks(s'.events, es + EventsOf(Added(s, s')), provider, mine)
  {
    hide SaveEvent, Merge, FirstRow, EventsOf, Proper, Added, Appends, Generated, Replica;
    SaveQueues(s, e);
    if SavedIn(s, e) {
      var queued := Queued(s, e);
      EventsOfOne(s.nextId, queued);
      assert Follows(s.events, queued);
      GeneratedOneMore(es, queued, provider);
    } else {
      NoEventsOf([]);
      assert es + [] == es;
    }
  }

  predicate SavedIn(s: Local, e: UsageEvent) {
    e.dedupeKey !in s.events || Takes(s.events[e.dedupeKey], e)
  }

  function Queued(s: Local, e: UsageEvent): SyncEvent {
    SyncEvent(e, if e.dedupeKey in s.events then PreviousRef(s.events[e.dedupeKey], e) else "")
  }

  /** Saving an event that is new, or adds something, queues it; otherwise nothing happens. */
  lemma SaveQueues(s: Local, e: UsageEvent)
    ensures var s' := SaveEvent(s, e).0;
            && Appends(s, s')
            && (SavedIn(s, e) ==>
                s'.events == Apply(s.events, e) && Added(s, s') == [OutboxItem(s.nextId, EventPayload(Queued(s, e)))])
            && (!SavedIn(s, e) ==> s' == s && Added(s, s') == [])
  {
    hide Merge, FirstRow, Takes, PreviousRef;
  }

  lemma AddedThen(s: Local, s1: Local, s2: Local)
    requires Appends(s, s1) && Appends(s1, s2)
    ensures EventsOf(Added(s, s2)) == EventsOf(Added(s, s1)) + EventsOf(Added(s1, s2))
  {
    assert Added(s, s2) == Added(s, s1) + Added(s1, s2) by {
      forall i | |s.outbox| <= i < |s1.outbox| ensures s2.outbox[i] == s1.outbox[i] {
        assert s2.outbox[i] == s2.outbox[..|s1.outbox|][i];
      }
    }
    EventsOfConcat(Added(s, s1), Added(s1, s2));
  }

  lemma {:induction false} SaveEventsTracks(s: Local, read: seq<UsageEvent>, es: seq<SyncEvent>,
                                            provider: string -> string, mine: string -> bool)
    requires Tracks(s.events, es, provider, mine) && forall e :: e in read ==> Proper(e, provider) && mine(e.dedupeKey)
    ensures var s' := SaveEvents(s, read).0;
            Appends(s, s') && Tracks(s'.events, es + EventsOf(Added(s, s')), provider, mine)
  {
    hide Tracks, EventsOf, Proper, SaveEvent;
    if read == [] {
      NoEventsOf([]);
      assert Added(s, s) == [];
      assert es + [] == es;
    } else {
      var n := |read| - 1;
      var s1 := SaveEvents(s, read[..n]).0;
      SaveEventsTracks(s, read[..n], es, provider, mine);
      SaveEventTracks(s1, read[n], es + EventsOf(Added(s, s1)), provider, mine);
      var s' := SaveEvent(s1, read[n]).0;
      hide SaveEvents;
      AppendsThen(s, s1, s');
      AddedThen(s, s1, s');
      assert es + EventsOf(Added(s, s')) == es + EventsOf(Added(s, s1)) + EventsOf(Added(s1, s'));
    }
  }

  /** Queues no event and leaves the rows. */
  ghost predicate Quiet(s: Local, s': Local) {
    Appends(s, s') && s'.events == s.events && EventsOf(Added(s, s')) == []
  }

  lemma QuietUntilQueued(s: Local, s1: Local, p: Payload)
    requires s1.events == s.events && s1.outbox == s.outbox && s1.nextId == s.nextId && !p.EventPayload?
    ensures Quiet(s, s1) && Quiet(s, Enqueue(s1, p))
  {
    hide EventsOf;
    assert Added(s, s1) == [] && Added(s, Enqueue(s1, p)) == [OutboxItem(s.nextId, p)];
    NoEventsOf(Added(s, s1));
    NoEventsOf(Added(s, Enqueue(s1, p)));
  }

  lemma SaveLimitQuiet(s: Local, l: LimitEvent)
    ensures Quiet(s, SaveLimit(s, l).0)
  {
    hide EventsOf, Quiet;
    QuietUntilQueued(s, s.(limits := s.limits[l.dedupeKey := l]), LimitPayload(l));
    QuietUntilQueued(s, s, LimitPayload(l));
  }

  lemma {:induction false} SaveReadingsQuiet(s: Local, snaps: seq<Snapshot>)
    ensures Quiet(s, SaveReadings(s, snaps).0)
  {
    if snaps != [] {
      var n := |snaps| - 1;
      var s1 := SaveReadings(s, snaps[..n]).0;
      SaveReadingsQuiet(s, snaps[..n]);
      SaveReadingQuiet(s1, snaps[n]);
      QuietThen(s, s1, SaveReading(s1, snaps[n]).0);
    }
  }

  lemma SaveReadingQuiet(s: Local, snap: Snapshot)
    ensures Quiet(s, SaveReading(s, snap).0)
  {
    hide EventsOf, Quiet;
    QuietUntilQueued(s, s.(readings := s.readings[KeyOf(snap) := Reading(snap.buckets, snap.planType, snap.hint)]),
                     SnapshotPayload(SyncSnapshot(snap, "")));
    QuietUntilQueued(s, s, SnapshotPayload(SyncSnapshot(snap, "")));
  }

  lemma QuietThen(s: Local, s1: Local, s2: Local)
    requires Quiet(s, s1) && Quiet(s1, s2)
    ensures Quiet(s, s2)
  {
    AppendsThen(s, s1, s2);
    AddedThen(s, s1, s2);
  }

  lemma {:induction false} SaveLimitsQuiet(s: Local, ls: seq<LimitEvent>)
    ensures Quiet(s, SaveLimits(s, ls).0)
  {
    if ls != [] {
      var n := |ls| - 1;
      var s1 := SaveLimits(s, ls[..n]).0;
      SaveLimitsQuiet(s, ls[..n]);
      SaveLimitQuiet(s1, ls[n]);
      QuietThen(s, s1, SaveLimit(s1, ls[n]).0);
    }
  }

  lemma CorrectReadingQuiet(s: Local, snap: Snapshot)
    ensures Quiet(s, CorrectReading(s, snap).0)
  {
    CorrectReadingAppends(s, snap);
    if CorrectReading(s, snap).1 {
      var previous := TheOne(RecordedOn(s, snap));
      var s1 := s.(readings := s.readings - {KeyOf(snap).(accountRef := previous)});
      var s2 := Enqueue(s1, SnapshotPayload(SyncSnapshot(snap, previous)));
      NoEventsOf(Added(s1, s2));
      SaveReadingQuiet(s2, snap);
      QuietThen(s1, s2, SaveReading(s2, snap).0);
    }
  }

  /** The steps of a device without a reset, whose keys no other device touches. */
  ghost predicate Allowed(step: Step, provider: string -> string, mine: string -> bool) {
    match step
    case FileScanned(scan) => forall e :: e in scan.events ==> Proper(e, provider) && mine(e.dedupeKey)
    case LedgerReset(_, _) => false
    case CommittedElsewhere(_, request) => forall e :: e in request.events ==> !mine(e.event.dedupeKey)
    case _ => true
  }

  lemma LocalStepTracks(w: World, step: Step, provider: string -> string, mine: string -> bool)
    requires Tracks(w.local.events, EventsOf(w.log), provider, mine) && IsLocal(step) && Allowed(step, provider, mine)
    ensures Tracks(Take(w, step).local.events, EventsOf(Take(w, step).log), provider, mine)
  {
    var s, s', es := w.local, Take(w, step).local, EventsOf(w.log);
    LocalStepAppends(w, step);
    EventsOfConcat(w.log, Added(s, s'));
    assert es + [] == es;
    hide EventsOf, Tracks, Observe, SaveReading, CorrectReading, IngestScan, Proper;
    match step
    case SignInSeen(o) => ObserveQuiet(s, o);
    case ReadingAdded(snap) => SaveReadingQuiet(s, snap);
    case ReadingCorrected(snap) => CorrectReadingQuiet(s, snap);
    case FileScanned(scan) => IngestScanTracks(s, scan, es, provider, mine);
  }

  lemma ObserveQuiet(s: Local, o: Observation)
    ensures Quiet(s, Observe(s, o))
  {
    hide EventsOf, Quiet;
    var key := SignInKey(o.provider, o.source, CutToMilli(o.observedAt));
    QuietUntilQueued(s, s.(signIns := s.signIns[key := SignIn(o.accountRef, o.hint, o.planType)]),
        ObservationPayload(o));
    QuietUntilQueued(s, s, ObservationPayload(o));
  }

  lemma IngestScanTracks(s: Local, scan: Scan, es: seq<SyncEvent>, provider: string -> string, mine: string -> bool)
    requires Tracks(s.events, es, provider, mine) && forall e :: e in scan.events ==>
        Proper(e, provider) && mine(e.dedupeKey)
    ensures var s' := IngestScan(s, scan).0;
            Tracks(s'.events, es + EventsOf(Added(s, s')), provider, mine)
  {
    hide Tracks, EventsOf, Proper;
    var s1 := SaveEvents(s, scan.events).0;
    SaveEventsTracks(s, scan.events, es, provider, mine);
    var s2 := SaveReadings(s1, scan.snapshots).0;
    SaveReadingsQuiet(s1, scan.snapshots);
    var s3 := SaveLimits(s2, scan.limits).0;
    SaveLimitsQuiet(s2, scan.limits);
    assert IngestScan(s, scan).0 == s3.(files := s3.files[scan.path := scan.state]);
    hide SaveEvents, SaveReadings, SaveLimits, IngestScan;
    QuietThen(s1, s2, s3);
    AddedThen(s, s1, s3);
    assert EventsOf(Added(s, s1)) + [] == EventsOf(Added(s, s1));
  }

  // ------------------------------------------------------------------ the run

  /** The rows of the log as far as the server has seen it. */
  function SeenRows(w: World): map<string, UsageEvent>
    requires Seen(w) <= |w.log|
  {
    Replica(EventsOf(w.log[..Seen(w)]))
  }

  /** The device's rows are the log's, the server's are those of the log as far as it has seen it. */
  ghost predicate RowsInStep(w: World, provider: string -> string, mine: string -> bool) {
    && Seen(w) <= |w.log| && Server.ValidAccounts(w.server)
    && Tracks(w.local.events, EventsOf(w.log), provider, mine)
    && Holds(w.server, w.device.person, mine, SeenRows(w))
  }

  /** The batch an uploader sends was read since the last reset and ends no
      earlier than what the server has seen, or else takes no request back. */
  ghost predicate KeepsUp(w: World, u: nat, mine: string -> bool)
    requires Seen(w) <= |w.log|
  {
    UploaderOf(w, u).Sending? ==>
      && End(w, UploaderOf(w, u).batch) > 0
      && (Seen(w) <= End(w, UploaderOf(w, u).batch)
          || TakesNoneBack(SeenRows(w), EventsOf(UploaderOf(w, u).batch), mine))
  }

  /** Every batch of the run kept up when it was committed. */
  ghost predicate Orderly(w: World, steps: seq<Step>, mine: string -> bool) {
    forall i :: 0 <= i < |steps| && steps[i].BatchCommitted? ==>
      Seen(Steps(w, steps[..i])) <= |Steps(w, steps[..i]).log| && KeepsUp(Steps(w, steps[..i]), steps[i].u, mine)
  }

  lemma HoldsKept(s: Server.Ledger, s': Server.Ledger, person: string, mine: string -> bool,
                  rows: map<string, UsageEvent>)
    requires Holds(s, person, mine, rows) && Server.KeepsAccounts(s, s')
    requires forall k :: mine(k) ==>
        (k in s.events <==> k in s'.events) && (k in s.events ==> s'.events[k] == s.events[k])
    ensures Holds(s', person, mine, rows)
  {
    forall k | mine(k) ensures HoldsAt(s', person, k, rows) {
      assert HoldsAt(s, person, k, rows);
      if k in rows {
        MirrorsKept(s, s', person, s.events[k], rows[k], rows[k].accountRef);
      }
    }
  }

  /** A batch of the log from h to j, with the server at m, leaves it at j. */
  lemma BatchHeld(s: Server.Ledger, d: Server.Device, log: seq<OutboxItem>, h: nat, m: nat, j: nat,
                  provider: string -> string, mine: string -> bool)
    requires h <= m <= j <= |log| && Server.ValidAccounts(s) && Generated(EventsOf(log), provider)
    requires Holds(s, d.person, mine, Replica(EventsOf(log[..m])))
    ensures var s' := Server.IngestBatch(s, d, BatchRequest(log[h..j])).ledger;
            Server.ValidAccounts(s') && Holds(s', d.person, mine, Replica(EventsOf(log[..j])))
  {
    var es, request := EventsOf(log), BatchRequest(log[h..j]);
    History.IngestFrame(s, d, request);
    var s1 := Server.StoreObservations(s, d, request.observations).0;
    var s2 := Server.StoreEvents(s1, d, request.events).0;
    var s' := Server.IngestBatch(s, d, request).ledger;
    EventsOfSlices(log, h, m, j);
    var eh, em, ej := |EventsOf(log[..h])|, |EventsOf(log[..m])|, |EventsOf(log[..j])|;
    hide EventsOf, Generated, Holds, Server.IngestBatch, Server.StoreEvents, Server.StoreObservations;
    HoldsKept(s, s1, d.person, mine, Replica(es[..em]));
    BatchStored(s1, d, mine, es, eh, em, ej, provider);
    HoldsKept(s2, s', d.person, mine, Replica(es[..ej]));
  }

  /** A batch of the log from h to j, all of it seen by the server at m. */
  lemma LateBatchHeld(s: Server.Ledger, d: Server.Device, log: seq<OutboxItem>, h: nat, j: nat, m: nat,
                      provider: string -> string, mine: string -> bool)
    requires h <= j <= m <= |log| && Server.ValidAccounts(s) && Generated(EventsOf(log), provider)
    requires Holds(s, d.person, mine, Replica(EventsOf(log[..m])))
    ensures var s', rows := Server.IngestBatch(s, d, BatchRequest(log[h..j])).ledger, Replica(EventsOf(log[..m]));
            && Server.ValidAccounts(s')
            && (Holds(s', d.person, mine, rows) <==> TakesNoneBack(rows, EventsOf(log[h..j]), mine))
  {
    var es, request, rows := EventsOf(log), BatchRequest(log[h..j]), Replica(EventsOf(log[..m]));
    History.IngestFrame(s, d, request);
    var s1 := Server.StoreObservations(s, d, request.observations).0;
    var s2 := Server.StoreEvents(s1, d, request.events).0;
    var s' := Server.IngestBatch(s, d, request).ledger;
    EventsOfSlices(log, h, j, j);
    EventsOfSlices(log, h, j, m);
    var eh, ej, em := |EventsOf(log[..h])|, |EventsOf(log[..j])|, |EventsOf(log[..m])|;
    hide EventsOf, Generated, Holds, HoldsCarried, TakesNoneBack, Server.IngestBatch, Server.StoreEvents,
        Server.StoreObservations;
    HoldsKept(s, s1, d.person, mine, rows);
    LateBatchStored(s1, d, mine, es, eh, ej, em, provider);
    HoldsCarriedKept(s2, s', d.person, mine, rows, es[eh..ej]);
    CarriedHolds(s', d.person, mine, rows, es[eh..ej]);
  }

  lemma HoldsCarriedKept(s: Server.Ledger, s': Server.Ledger, person: string, mine: string -> bool,
                         rows: map<string, UsageEvent>, es: seq<SyncEvent>)
    requires HoldsCarried(s, person, mine, rows, es) && Server.KeepsAccounts(s, s')
    requires forall k :: mine(k) ==>
        (k in s.events <==> k in s'.events) && (k in s.events ==> s'.events[k] == s.events[k])
    ensures HoldsCarried(s', person, mine, rows, es)
  {
    hide Carried;
    forall k | mine(k) ensures CarriedAt(s', person, k, rows, es) {
      assert CarriedAt(s, person, k, rows, es);
      if k in rows {
        MirrorsKept(s, s', person, s.events[k], rows[k], Carried(rows[k].accountRef, es, k));
      }
    }
  }

  lemma EventsOfSlices(log: seq<OutboxItem>, h: nat, m: nat, j: nat)
    requires h <= m <= j <= |log|
    ensures var es := EventsOf(log);
            var eh, em, ej := |EventsOf(log[..h])|, |EventsOf(log[..m])|, |EventsOf(log[..j])|;
            && eh <= em <= ej <= |es| && es[..em] == EventsOf(log[..m]) && es[..ej] == EventsOf(log[..j])
            && es[eh..ej] == EventsOf(log[h..j])
  {
    EventsOfConcat(log[..j], log[j..]);
    assert log == log[..j] + log[j..];
    EventsOfConcat(log[..m], log[m..j]);
    assert log[..j] == log[..m] + log[m..j];
    EventsOfConcat(log[..h], log[h..m]);
    assert log[..m] == log[..h] + log[h..m];
    EventsOfConcat(log[..h], log[h..j]);
    assert log[..j] == log[..h] + log[h..j];
  }

  /** Other devices' batches leave this device's rows alone. */
  lemma {:induction false} ForeignEvents(s: Server.Ledger, d: Server.Device, es: seq<SyncEvent>, mine: string -> bool)
    requires forall e :: e in es ==> !mine(e.event.dedupeKey)
    ensures var s' := Server.StoreEvents(s, d, es).0;
            forall k :: mine(k) ==>
                (k in s.events <==> k in s'.events) && (k in s.events ==> s'.events[k] == s.events[k])
  {
    if es != [] {
      var n := |es| - 1;
      ForeignEvents(s, d, es[..n], mine);
      History.StoreEventFrame(Server.StoreEvents(s, d, es[..n]).0, d, es[n]);
      hide Server.StoreEvent;
    }
  }

  lemma LocalRowsInStep(w: World, step: Step, provider: string -> string, mine: string -> bool)
    requires RowsInStep(w, provider, mine) && IsLocal(step) && Allowed(step, provider, mine)
    ensures RowsInStep(Take(w, step), provider, mine)
  {
    LocalSeen(w, step);
    LocalStepKeys(w, step);
    LocalStepTracks(w, step, provider, mine);
    hide Tracks, Take, Holds, EventsOf, Seen, Server.ValidAccounts, KeepsRows, Saved, Replica;
  }

  /** A commit keeps the server in step exactly when its batch keeps up. */
  lemma CommitRows(w: World, u: nat, provider: string -> string, mine: string -> bool)
    requires QueueInStep(w) && RowsInStep(w, provider, mine)
    requires UploaderOf(w, u).Sending? ==> End(w, UploaderOf(w, u).batch) > 0
    ensures var w' := CommitBatch(w, u);
            && Seen(w') <= |w'.log| && Server.ValidAccounts(w'.server)
            && (Holds(w'.server, w'.device.person, mine, SeenRows(w')) <==> KeepsUp(w, u, mine))
  {
    hide Tracks, Holds, Server.IngestBatch, BatchRequest, EventsOf, Replica, TakesNoneBack, End, Seen,
        Server.ValidAccounts;
    var up := UploaderOf(w, u);
    CommitSeen(w, u);
    if up.Sending? {
      assert UploaderInStep(w, up);
      TracksGenerated(w, provider, mine);
      hide Generated, UploaderInStep;
      if Seen(w) <= End(w, up.batch) {
        AheadRows(w, up.batch, provider, mine);
      } else {
        LateRows(w, up.batch, provider, mine);
      }
    }
  }

  lemma AheadRows(w: World, batch: seq<OutboxItem>, provider: string -> string, mine: string -> bool)
    requires IsPiece(batch, w.log, Head(w), End(w, batch)) && Head(w) <= Seen(w) <= End(w, batch)
    requires Server.ValidAccounts(w.server) && Generated(EventsOf(w.log), provider)
    requires Holds(w.server, w.device.person, mine, SeenRows(w))
    ensures var s := Server.IngestBatch(w.server, w.device, BatchRequest(batch)).ledger;
            Server.ValidAccounts(s) && Holds(s, w.device.person, mine, Replica(EventsOf(w.log[..End(w, batch)])))
  {
    hide Holds, Server.IngestBatch, BatchRequest, EventsOf, Replica, End, Seen, Server.ValidAccounts, Generated;
    var end := End(w, batch);
    BatchHeld(w.server, w.device, w.log, end - |batch|, Seen(w), end, provider, mine);
  }

  lemma LateRows(w: World, batch: seq<OutboxItem>, provider: string -> string, mine: string -> bool)
    requires IsPiece(batch, w.log, Head(w), End(w, batch)) && End(w, batch) < Seen(w) <= |w.log|
    requires Server.ValidAccounts(w.server) && Generated(EventsOf(w.log), provider)
    requires Holds(w.server, w.device.person, mine, SeenRows(w))
    ensures var s := Server.IngestBatch(w.server, w.device, BatchRequest(batch)).ledger;
            && Server.ValidAccounts(s)
            && (Holds(s, w.device.person, mine, SeenRows(w)) <==> TakesNoneBack(SeenRows(w), EventsOf(batch), mine))
  {
    hide Holds, Server.IngestBatch, BatchRequest, EventsOf, Replica, End, Seen, Server.ValidAccounts, Generated,
        TakesNoneBack;
    var end := End(w, batch);
    LateBatchHeld(w.server, w.device, w.log, end - |batch|, end, Seen(w), provider, mine);
  }

  lemma CommitKeepsRows(w: World, u: nat, provider: string -> string, mine: string -> bool)
    requires QueueInStep(w) && RowsInStep(w, provider, mine) && KeepsUp(w, u, mine)
    ensures RowsInStep(CommitBatch(w, u), provider, mine)
  {
    CommitRows(w, u, provider, mine);
    hide Tracks, Holds, Server.IngestBatch, BatchRequest, KeepsUp, Seen, EventsOf, Server.ValidAccounts;
  }

  lemma TracksGenerated(w: World, provider: string -> string, mine: string -> bool)
    requires Tracks(w.local.events, EventsOf(w.log), provider, mine)
    ensures Generated(EventsOf(w.log), provider)
  {
  }

  lemma ElsewhereInStep(w: World, d: Server.Device, request: SyncRequest,
                        provider: string -> string, mine: string -> bool)
    requires RowsInStep(w, provider, mine) && forall e :: e in request.events ==> !mine(e.event.dedupeKey)
    ensures RowsInStep(Commit(w, d, request), provider, mine)
  {
    History.IngestFrame(w.server, d, request);
    var s1 := Server.StoreObservations(w.server, d, request.observations).0;
    ForeignEvents(s1, d, request.events, mine);
    hide Holds, Tracks, EventsOf, Server.StoreEvents, Server.StoreObservations, Server.IngestBatch;
    HoldsKept(w.server, Commit(w, d, request).server, w.device.person, mine, SeenRows(w));
  }

  lemma SameRows(w: World, w': World, provider: string -> string, mine: string -> bool)
    requires RowsInStep(w, provider, mine)
    requires w'.local.events == w.local.events && w'.log == w.log && w'.server == w.server
    requires w'.device == w.device && w'.sent == w.sent && Origin(w') == Origin(w)
    ensures RowsInStep(w', provider, mine)
  {
  }

  /** The rows stay in step while the batches keep up. */
  lemma TakeRowsInStep(w: World, step: Step, provider: string -> string, mine: string -> bool)
    requires QueueInStep(w) && RowsInStep(w, provider, mine) && Allowed(step, provider, mine)
    requires step.BatchCommitted? ==> KeepsUp(w, step.u, mine)
    ensures RowsInStep(Take(w, step), provider, mine)
  {
    if IsLocal(step) {
      LocalRowsInStep(w, step, provider, mine);
    } else {
      hide RowsInStep, QueueInStep, KeepsUp, Allowed;
      match step
      case BatchRead(u) => SameRows(w, ReadBatch(w, u), provider, mine);
      case BatchCommitted(u) => CommitKeepsRows(w, u, provider, mine);
      case BatchDeleted(u) =>
        DeletedOrigin(w, u);
        SameRows(w, DeleteBatch(w, u), provider, mine);
      case UploaderStopped(u) => SameRows(w, StopUploader(w, u), provider, mine);
      case CommittedElsewhere(d, request) =>
        assert forall e :: e in request.events ==> !mine(e.event.dedupeKey) by {
          ElsewhereIsForeign(step, provider, mine);
        }
        ElsewhereInStep(w, d, request, provider, mine);
    }
  }

  lemma ElsewhereIsForeign(step: Step, provider: string -> string, mine: string -> bool)
    requires Allowed(step, provider, mine) && step.CommittedElsewhere?
    ensures forall e :: e in step.request.events ==> !mine(e.event.dedupeKey)
  {
  }

  ghost predicate AllAllowed(steps: seq<Step>, provider: string -> string, mine: string -> bool) {
    forall step :: step in steps ==> Allowed(step, provider, mine)
  }

  lemma AllowedNoReset(steps: seq<Step>, provider: string -> string, mine: string -> bool)
    requires AllAllowed(steps, provider, mine)
    ensures NoReset(steps)
  {
  }

  lemma RunQueueInStep(device: Server.Device, server: Server.Ledger, steps: seq<Step>,
                       provider: string -> string, mine: string -> bool)
    requires AllAllowed(steps, provider, mine)
    ensures QueueInStep(Steps(Start(device, server), steps)) && Origin(Steps(Start(device, server), steps)) == 0
  {
    AllowedNoReset(steps, provider, mine);
    StartInStep(device, server);
    StepsQueueInStep(Start(device, server), steps);
    hide QueueInStep, Origin, Steps;
  }

  lemma OrderlyPrefix(w: World, steps: seq<Step>, n: nat, mine: string -> bool)
    requires Orderly(w, steps, mine) && n <= |steps|
    ensures Orderly(w, steps[..n], mine)
  {
    forall i | 0 <= i < n ensures steps[..n][..i] == steps[..i] {
    }
    hide Steps, KeepsUp;
  }

  lemma {:induction false} StepsRowsInStep(device: Server.Device, server: Server.Ledger, steps: seq<Step>,
                                           provider: string -> string, mine: string -> bool)
    requires Server.ValidAccounts(server) && forall k :: mine(k) ==> k !in server.events
    requires AllAllowed(steps, provider, mine) && Orderly(Start(device, server), steps, mine)
    ensures RowsInStep(Steps(Start(device, server), steps), provider, mine)
  {
    if steps == [] {
      assert EventsOf([]) == [];
    } else {
      var n := |steps| - 1;
      hide QueueInStep, RowsInStep, Allowed, Take, KeepsUp, Server.ValidAccounts;
      OrderlyPrefix(Start(device, server), steps, n, mine);
      StepsRowsInStep(device, server, steps[..n], provider, mine);
      RunQueueInStep(device, server, steps[..n], provider, mine);
      TakeRowsInStep(Steps(Start(device, server), steps[..n]), steps[n], provider, mine);
    }
  }

  /** Exactly-once effect. Whatever batches were cut short, resent after a lost
      answer or interleaved with other devices' batches, and with any number of
      uploaders whose batches keep up: the server holds what the queued changes
      stand for as far as it has seen them, which is at least to the head of
      the outbox; and whenever the outbox is empty, the server's row of every
      key says what the device's row says. */
  lemma ExactlyOnceEffect(device: Server.Device, server: Server.Ledger, steps: seq<Step>,
                          provider: string -> string, mine: string -> bool)
    requires Server.ValidAccounts(server) && forall k :: mine(k) ==> k !in server.events
    requires AllAllowed(steps, provider, mine) && Orderly(Start(device, server), steps, mine)
    ensures var w := Steps(Start(device, server), steps);
            && |w.log| - |w.local.outbox| <= Seen(w) <= |w.log|
            && Holds(w.server, device.person, mine, SeenRows(w))
            && w.local.events == Replica(EventsOf(w.log))
            && (w.local.outbox == [] ==> Holds(w.server, device.person, mine, w.local.events)
                                         && forall k :: k in w.local.events ==> mine(k))
  {
    RunQueueInStep(device, server, steps, provider, mine);
    StepsRowsInStep(device, server, steps, provider, mine);
    var w := Steps(Start(device, server), steps);
    StepsKeepDevice(Start(device, server), steps);
    hide Steps, Holds, Seen, EventsOf;
    if w.local.outbox == [] {
      assert w.log[..Seen(w)] == w.log;
    }
  }

  /** And no longer than that: the first batch that does not keep up leaves the
      server with other rows. */
  lemma ExactlyWhileOrderly(device: Server.Device, server: Server.Ledger, steps: seq<Step>, u: nat,
                            provider: string -> string, mine: string -> bool)
    requires Server.ValidAccounts(server) && forall k :: mine(k) ==> k !in server.events
    requires AllAllowed(steps, provider, mine) && Orderly(Start(device, server), steps, mine)
    ensures var w, w' := Steps(Start(device, server), steps), CommitBatch(Steps(Start(device, server), steps), u);
            && Seen(w) <= |w.log| && Seen(w') <= |w'.log|
            && (Holds(w'.server, device.person, mine, SeenRows(w')) <==> KeepsUp(w, u, mine))
  {
    RunQueueInStep(device, server, steps, provider, mine);
    StepsRowsInStep(device, server, steps, provider, mine);
    StepsKeepDevice(Start(device, server), steps);
    hide Steps, Holds, Seen, EventsOf, TakesNoneBack;
    CommitRows(Steps(Start(device, server), steps), u, provider, mine);
  }

  /** A single uploader's batches always keep up. */
  lemma OneUploaderKeepsUp(device: Server.Device, server: Server.Ledger, steps: seq<Step>,
                           provider: string -> string, mine: string -> bool)
    requires AllAllowed(steps, provider, mine) && forall step :: step in steps ==> ByOne(step)
    ensures Orderly(Start(device, server), steps, mine)
  {
    AllowedNoReset(steps, provider, mine);
    StartInStep(device, server);
    forall i | 0 <= i < |steps| && steps[i].BatchCommitted?
      ensures var w := Steps(Start(device, server), steps[..i]); Seen(w) <= |w.log| && KeepsUp(w, steps[i].u, mine)
    {
      hide Steps, Seen, End, Allowed, TakesNoneBack, EventsOf, Origin;
      assert ByOne(steps[i]);
      StartOneInStep(device, server);
      StepsOneInStep(Start(device, server), steps[..i]);
      StepsQueueInStep(Start(device, server), steps[..i]);
      OneKeepsUp(Steps(Start(device, server), steps[..i]), mine);
    }
    hide Steps, Seen, KeepsUp;
  }

  lemma StartOneInStep(device: Server.Device, server: Server.Ledger)
    ensures OneInStep(Start(device, server))
  {
  }

  lemma OneKeepsUp(w: World, mine: string -> bool)
    requires QueueInStep(w) && OneInStep(w)
    ensures Seen(w) <= |w.log| && KeepsUp(w, 0, mine)
  {
    hide TakesNoneBack, EventsOf, Replica, SeenId, LastId;
    assert 0 in w.uploaders ==> UploaderInStep(w, w.uploaders[0]);
  }
}
