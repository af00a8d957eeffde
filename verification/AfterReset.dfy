/** What the server makes of a device's changes when it already has rows for
    them, as it has after the device's ledger was reset and its files read
    again. Requests that are new to the server are as in ExactlyOnce; a row
    from before stays on its account until a change corrects that account, and
    follows the device from then on. */
module AfterReset {
  import opened Records
  import opened ClientLedger
  import opened SyncProtocol
  import opened UploadQueue
  import opened ExactlyOnce
  import Server = ServerLedger
  import History = LedgerHistory

  // ---------------------------------------------------------- rows from before

  /** A change that corrects the account the row was on when the server got it. */
  ghost predicate Leaves(s0: Server.Ledger, r0: Server.Row, e: SyncEvent, k: string) {
    && e.event.dedupeKey == k && e.previousRef != ""
    && History.Is(s0, Server.AccountKey(e.event.provider, e.previousRef), r0.accountId)
    && e.event.session == r0.session && e.event.originator == r0.originator
  }

  /** The person's changes since then have corrected that account. */
  ghost predicate Left(s0: Server.Ledger, person: string, k: string, es: seq<SyncEvent>)
    requires k in s0.events
  {
    person == s0.events[k].person && exists i :: 0 <= i < |es| && Leaves(s0, s0.events[k], es[i], k)
  }

  /** The row is on the account the device's row is on. */
  ghost predicate OnDevices(s: Server.Ledger, r: Server.Row, rows: map<string, UsageEvent>, k: string) {
    k in rows && History.Is(s, Server.AccountKey(rows[k].provider, rows[k].accountRef), r.accountId)
  }

  ghost predicate SameOwner(r0: Server.Row, r: Server.Row) {
    r.person == r0.person && r.session == r0.session && r.originator == r0.originator
  }

  /** While changes up to m that the server has seen are replayed from i on, a
      row that has left its old account is on the device's last one or on the
      one the replay reached, and any other is where it was. */
  ghost predicate FollowsAt(s0: Server.Ledger, s: Server.Ledger, person: string, k: string, es: seq<SyncEvent>,
                            i: nat, m: nat)
    requires k in s0.events && i <= |es| && m <= |es|
  {
    && k in s.events && SameOwner(s0.events[k], s.events[k])
    && if Left(s0, person, k, es[..m])
       then OnDevices(s, s.events[k], Replica(es[..m]), k) || OnDevices(s, s.events[k], Replica(es[..i]), k)
       else s.events[k].accountId == s0.events[k].accountId
  }

  /** What a later ledger keeps of an earlier one. */
  ghost predicate Later(s0: Server.Ledger, s: Server.Ledger) {
    Server.ValidAccounts(s) && Server.KeepsAccounts(s0, s) && History.RowsOnAccounts(s0)
  }

  lemma LaterStored(s0: Server.Ledger, s: Server.Ledger, d: Server.Device, e: SyncEvent)
    requires Later(s0, s)
    ensures Later(s0, Server.StoreEvent(s, d, e).0)
  {
    History.StoreEventFrame(s, d, e);
    hide Server.StoreEvent;
  }

  /** An old account is known by one key, then as now. */
  lemma KnownBefore(s0: Server.Ledger, s: Server.Ledger, k: string, key: Server.AccountKey)
    requires Later(s0, s) && k in s0.events
    ensures History.Is(s, key, s0.events[k].accountId) <==> History.Is(s0, key, s0.events[k].accountId)
  {
    var a :| a in s0.accounts && s0.accounts[a].id == s0.events[k].accountId;
  }

  /** What storing a change without a gateway does to a row's account: a
      correction of the account it is on moves it, and nothing else does. */
  lemma StoredAccount(s: Server.Ledger, d: Server.Device, e: SyncEvent)
    requires Server.ValidAccounts(s) && !Server.Skips(e) && e.event.gateway == "" && e.event.dedupeKey in s.events
    requires e.previousRef != e.event.accountRef
    ensures var k, s' := e.event.dedupeKey, Server.StoreEvent(s, d, e).0;
            && k in s'.events && SameOwner(s.events[k], s'.events[k])
            && if d.person == s.events[k].person && e.previousRef != ""
                  && History.Is(s', Server.AccountKey(e.event.provider, e.previousRef), s.events[k].accountId)
                  && e.event.session == s.events[k].session && e.event.originator == s.events[k].originator
               then History.Is(s', Server.EventAccount(e), s'.events[k].accountId)
               else s'.events[k].accountId == s.events[k].accountId
  {
    var k := e.event.dedupeKey;
    var s1 := Server.EnsureAccount(s, Server.EventAccount(e), "", "", 0, d.person);
    var s' := Server.StoreEvent(s, d, e).0;
    History.EnsureKeeps(s, Server.EventAccount(e), "", "", 0, d.person);
    assert s'.accounts == s1.accounts;
    hide Server.EnsureAccount;
    var id, previous := s1.accounts[Server.EventAccount(e)].id, Server.PreviousId(s1, e.event.provider, e.previousRef);
    assert s'.events[k] == Server.Deliver(s.events[k], d, id, previous, e.event);
    hide Server.StoreEvent;
    DeliveredAccount(s.events[k], d, id, previous, e.event);
  }

  lemma DeliveredAccount(r: Server.Row, d: Server.Device, id: Server.AccountId, previous: Option<Server.AccountId>,
                         e: UsageEvent)
    requires e.gateway == ""
    ensures var r' := Server.Deliver(r, d, id, previous, e);
            && SameOwner(r, r')
            && r'.accountId == if r.person == d.person && Server.Corrects(r, id, previous, e) then id else r.accountId
  {
  }

  // ----------------------------------------------------------- the device's side

  /** The device corrects its own row's account, from its session and entrypoint. */
  lemma DeviceCorrects(es: seq<SyncEvent>, i: nat, provider: string -> string)
    requires Generated(es, provider) && i < |es|
    ensures var e, k := es[i], es[i].event.dedupeKey;
            && !Server.Skips(e) && e.event.gateway == "" && e.previousRef != e.event.accountRef
            && k in Replica(es[..i + 1]) && Replica(es[..i + 1])[k].accountRef == e.event.accountRef
            && Replica(es[..i + 1])[k].provider == e.event.provider
            && (k in Replica(es[..i]) && e.previousRef == "" ==> e.event.accountRef == Replica(es[..i])[k].accountRef)
            && (e.previousRef != "" ==>
                  && k in Replica(es[..i]) && e.previousRef == Replica(es[..i])[k].accountRef
                  && Replica(es[..i])[k].provider == e.event.provider
                  && e.event.session == Replica(es[..i])[k].session
                  && e.event.originator == Replica(es[..i])[k].originator)
  {
    var e, k, rows := es[i], es[i].event.dedupeKey, Replica(es[..i]);
    assert Follows(rows, e) && Proper(e.event, provider);
    ReplicaStep(es, i);
    ReplicaProper(es, i + 1, k, provider);
    hide Generated, Replica;
    if k in rows {
      ReplicaProper(es, i, k, provider);
      MergeKeepsRequest(rows[k], e.event);
    } else {
      MergeKeepsRequest(e.event, e.event);
    }
  }

  /** Once a change left the old account, the device's row is of the server row's session and entrypoint. */
  lemma LeftOwner(s0: Server.Ledger, person: string, k: string, es: seq<SyncEvent>, m: nat, j: nat,
                  provider: string -> string)
    requires Generated(es, provider) && k in s0.events && m <= |es| && j <= |es|
    requires Left(s0, person, k, es[..m]) && k in Replica(es[..j])
    ensures Replica(es[..j])[k].session == s0.events[k].session
    ensures Replica(es[..j])[k].originator == s0.events[k].originator
  {
    hide Generated, Replica;
    var i :| 0 <= i < m && Leaves(s0, s0.events[k], es[..m][i], k);
    DeviceCorrects(es, i, provider);
    if i <= j {
      ReplicaKeeps(es, i, j, k);
    } else {
      ReplicaKeeps(es, j, i, k);
    }
  }

  lemma LeftOneMore(s0: Server.Ledger, person: string, k: string, es: seq<SyncEvent>, i: nat)
    requires k in s0.events && i < |es|
    ensures Left(s0, person, k, es[..i + 1]) <==>
            Left(s0, person, k, es[..i]) || (person == s0.events[k].person && Leaves(s0, s0.events[k], es[i], k))
  {
    hide Leaves;
    assert forall j :: 0 <= j < i ==> es[..i + 1][j] == es[..i][j];
    assert es[..i + 1][i] == es[i];
  }

  lemma LeftEarlier(s0: Server.Ledger, person: string, k: string, es: seq<SyncEvent>, i: nat, m: nat)
    requires k in s0.events && i < m <= |es| && person == s0.events[k].person && Leaves(s0, s0.events[k], es[i], k)
    ensures Left(s0, person, k, es[..m])
  {
    hide Leaves;
    assert es[..m][i] == es[i];
  }

  // ------------------------------------------------------------------ one change

  lemma OnDevicesKept(s: Server.Ledger, s': Server.Ledger, r: Server.Row, rows: map<string, UsageEvent>, k: string)
    requires Server.KeepsAccounts(s, s') && OnDevices(s, r, rows, k)
    ensures OnDevices(s', r, rows, k)
  {
  }

  /** A row on the device's account goes where the device goes. */
  lemma FollowsDevice(s: Server.Ledger, d: Server.Device, es: seq<SyncEvent>, i: nat, provider: string -> string)
    requires Server.ValidAccounts(s) && Generated(es, provider) && i < |es|
    requires var k := es[i].event.dedupeKey;
             && k in s.events && d.person == s.events[k].person && OnDevices(s, s.events[k], Replica(es[..i]), k)
             && Replica(es[..i])[k].session == s.events[k].session
             && Replica(es[..i])[k].originator == s.events[k].originator
    ensures var k, s' := es[i].event.dedupeKey, Server.StoreEvent(s, d, es[i]).0;
            k in s'.events && OnDevices(s', s'.events[k], Replica(es[..i + 1]), k)
  {
    var e, k := es[i], es[i].event.dedupeKey;
    DeviceCorrects(es, i, provider);
    History.StoreEventFrame(s, d, e);
    StoredAccount(s, d, e);
    ReplicaStep(es, i);
    ReplicaProper(es, i, k, provider);
    ReplicaProper(es, i + 1, k, provider);
    hide Replica, Generated, Server.StoreEvent, Server.ValidAccounts;
    OnDevicesKept(s, Server.StoreEvent(s, d, e).0, s.events[k], Replica(es[..i]), k);
  }

  /** A change seen before, stored again. */
  lemma ReplayFollows(s0: Server.Ledger, s: Server.Ledger, d: Server.Device, k: string, es: seq<SyncEvent>, i: nat,
                      m: nat, provider: string -> string)
    requires Later(s0, s) && Generated(es, provider) && k in s0.events && i < m <= |es|
    requires FollowsAt(s0, s, d.person, k, es, i, m)
    ensures FollowsAt(s0, Server.StoreEvent(s, d, es[i]).0, d.person, k, es, i + 1, m)
  {
    var e, s' := es[i], Server.StoreEvent(s, d, es[i]).0;
    History.StoreEventFrame(s, d, e);
    StepKeepsOthers(es, i, k);
    hide Replica, Server.StoreEvent, Generated, Left;
    if e.event.dedupeKey != k {
      FollowsKept(s0, s, s', d.person, k, es, i, m);
      hide OnDevices;
    } else if Left(s0, d.person, k, es[..m]) {
      ReplayLeft(s0, s, d, k, es, i, m, provider);
    } else {
      ReplayStays(s0, s, d, k, es, i, m, provider);
    }
  }

  lemma StepKeepsOthers(es: seq<SyncEvent>, i: nat, k: string)
    requires i < |es|
    ensures var rows, next := Replica(es[..i]), Replica(es[..i + 1]);
            es[i].event.dedupeKey != k ==> (k in rows <==> k in next) && (k in rows ==> next[k] == rows[k])
  {
    ReplicaStep(es, i);
    hide Replica, Merge, FirstRow;
  }

  lemma FollowsKept(s0: Server.Ledger, s: Server.Ledger, s': Server.Ledger, person: string, k: string,
                    es: seq<SyncEvent>, i: nat, m: nat)
    requires k in s0.events && i <= |es| && m <= |es| && Server.KeepsAccounts(s, s')
    requires FollowsAt(s0, s, person, k, es, i, m) && k in s'.events && s'.events[k] == s.events[k]
    ensures FollowsAt(s0, s', person, k, es, i, m)
  {
    hide Replica, Left;
    if OnDevices(s, s.events[k], Replica(es[..m]), k) {
      OnDevicesKept(s, s', s.events[k], Replica(es[..m]), k);
    }
    if OnDevices(s, s.events[k], Replica(es[..i]), k) {
      OnDevicesKept(s, s', s.events[k], Replica(es[..i]), k);
    }
    hide OnDevices;
  }

  lemma ReplayLeft(s0: Server.Ledger, s: Server.Ledger, d: Server.Device, k: string, es: seq<SyncEvent>, i: nat,
                   m: nat, provider: string -> string)
    requires Later(s0, s) && Generated(es, provider) && k in s0.events && i < m <= |es|
    requires FollowsAt(s0, s, d.person, k, es, i, m) && es[i].event.dedupeKey == k && Left(s0, d.person, k, es[..m])
    ensures FollowsAt(s0, Server.StoreEvent(s, d, es[i]).0, d.person, k, es, i + 1, m)
  {
    var s' := Server.StoreEvent(s, d, es[i]).0;
    LeftIsPersons(s0, d.person, k, es[..m]);
    DeviceCorrects(es, i, provider);
    StoredAccount(s, d, es[i]);
    hide Replica, Generated, Server.StoreEvent, Left, Server.ValidAccounts, Server.KeepsAccounts, OnDevices,
         History.RowsOnAccounts, History.Is;
    if OnDevices(s, s.events[k], Replica(es[..i]), k) {
      LeftOwner(s0, d.person, k, es, m, i, provider);
      FollowsDevice(s, d, es, i, provider);
    } else {
      StaysOrMoves(s, d, k, es, i, m, provider);
    }
  }

  /** A row on the device's last account stays there or goes with the change. */
  lemma StaysOrMoves(s: Server.Ledger, d: Server.Device, k: string, es: seq<SyncEvent>, i: nat, m: nat,
                     provider: string -> string)
    requires Server.ValidAccounts(s) && Generated(es, provider) && i < m <= |es|
    requires k in s.events && es[i].event.dedupeKey == k && OnDevices(s, s.events[k], Replica(es[..m]), k)
    ensures var s' := Server.StoreEvent(s, d, es[i]).0;
            && k in s'.events
            && (OnDevices(s', s'.events[k], Replica(es[..m]), k)
                || OnDevices(s', s'.events[k], Replica(es[..i + 1]), k))
  {
    var s' := Server.StoreEvent(s, d, es[i]).0;
    DeviceCorrects(es, i, provider);
    StoredAccount(s, d, es[i]);
    History.StoreEventFrame(s, d, es[i]);
    hide Replica, Generated, Server.StoreEvent, Server.ValidAccounts;
    if s'.events[k].accountId == s.events[k].accountId {
      OnDevicesKept(s, s', s.events[k], Replica(es[..m]), k);
    }
  }

  lemma ReplayStays(s0: Server.Ledger, s: Server.Ledger, d: Server.Device, k: string, es: seq<SyncEvent>, i: nat,
                    m: nat, provider: string -> string)
    requires Later(s0, s) && Generated(es, provider) && k in s0.events && i < m <= |es|
    requires FollowsAt(s0, s, d.person, k, es, i, m) && es[i].event.dedupeKey == k && !Left(s0, d.person, k, es[..m])
    ensures FollowsAt(s0, Server.StoreEvent(s, d, es[i]).0, d.person, k, es, i + 1, m)
  {
    var e, s' := es[i], Server.StoreEvent(s, d, es[i]).0;
    DeviceCorrects(es, i, provider);
    StoredAccount(s, d, e);
    LaterStored(s0, s, d, e);
    KnownBefore(s0, s', k, Server.AccountKey(e.event.provider, e.previousRef));
    hide Replica, Generated, Server.StoreEvent, Left, Later, Server.ValidAccounts;
    if s'.events[k].accountId != s.events[k].accountId {
      LeftEarlier(s0, d.person, k, es, i, m);
    }
  }

  /** A new change, stored. */
  lemma FreshFollows(s0: Server.Ledger, s: Server.Ledger, d: Server.Device, k: string, es: seq<SyncEvent>, i: nat,
                     provider: string -> string)
    requires Later(s0, s) && Generated(es, provider) && k in s0.events && i < |es|
    requires FollowsAt(s0, s, d.person, k, es, i, i)
    ensures FollowsAt(s0, Server.StoreEvent(s, d, es[i]).0, d.person, k, es, i + 1, i + 1)
  {
    var s' := Server.StoreEvent(s, d, es[i]).0;
    if es[i].event.dedupeKey != k {
      History.StoreEventFrame(s, d, es[i]);
      StepKeepsOthers(es, i, k);
      LeftOneMore(s0, d.person, k, es, i);
      hide Replica, Server.StoreEvent, Generated, Left, Server.ValidAccounts;
      FollowsKept(s0, s, s', d.person, k, es, i, i);
      hide OnDevices;
    } else {
      hide Replica, Server.StoreEvent, Generated, Left, FollowsAt, Later;
      if Left(s0, d.person, k, es[..i]) {
        FreshLeft(s0, s, d, k, es, i, provider);
      } else {
        FreshStays(s0, s, d, k, es, i, provider);
      }
    }
  }

  lemma FreshLeft(s0: Server.Ledger, s: Server.Ledger, d: Server.Device, k: string, es: seq<SyncEvent>, i: nat,
                  provider: string -> string)
    requires Later(s0, s) && Generated(es, provider) && k in s0.events && i < |es|
    requires FollowsAt(s0, s, d.person, k, es, i, i) && es[i].event.dedupeKey == k && Left(s0, d.person, k, es[..i])
    ensures FollowsAt(s0, Server.StoreEvent(s, d, es[i]).0, d.person, k, es, i + 1, i + 1)
  {
    LeftOneMore(s0, d.person, k, es, i);
    LeftIsPersons(s0, d.person, k, es[..i]);
    DeviceCorrects(es, i, provider);
    hide Replica, Server.StoreEvent, Generated, Left;
    LeftOwner(s0, d.person, k, es, i, i, provider);
    FollowsDevice(s, d, es, i, provider);
    StoredAccount(s, d, es[i]);
    hide OnDevices, Server.ValidAccounts;
  }

  lemma FreshStays(s0: Server.Ledger, s: Server.Ledger, d: Server.Device, k: string, es: seq<SyncEvent>, i: nat,
                   provider: string -> string)
    requires Later(s0, s) && Generated(es, provider) && k in s0.events && i < |es|
    requires FollowsAt(s0, s, d.person, k, es, i, i) && es[i].event.dedupeKey == k && !Left(s0, d.person, k, es[..i])
    ensures FollowsAt(s0, Server.StoreEvent(s, d, es[i]).0, d.person, k, es, i + 1, i + 1)
  {
    var e, s' := es[i], Server.StoreEvent(s, d, es[i]).0;
    LeftOneMore(s0, d.person, k, es, i);
    DeviceCorrects(es, i, provider);
    StoredAccount(s, d, e);
    LaterStored(s0, s, d, e);
    KnownBefore(s0, s', k, Server.AccountKey(e.event.provider, e.previousRef));
    hide Replica, Server.StoreEvent, Generated, Left, Later, Server.ValidAccounts;
  }

  lemma LeftIsPersons(s0: Server.Ledger, person: string, k: string, es: seq<SyncEvent>)
    requires k in s0.events && Left(s0, person, k, es)
    ensures person == s0.events[k].person
  {
  }

  // --------------------------------------------------------------- whole batches

  /** The rows from before are where the changes up to m leave them. */
  ghost predicate Follow(s0: Server.Ledger, s: Server.Ledger, person: string, mine: string -> bool, es: seq<SyncEvent>,
                         i: nat, m: nat)
    requires i <= |es| && m <= |es|
  {
    forall k :: mine(k) && k in s0.events ==> FollowsAt(s0, s, person, k, es, i, m)
  }

  lemma LaterThen(s0: Server.Ledger, s: Server.Ledger, s': Server.Ledger)
    requires Later(s0, s) && Server.KeepsAccounts(s, s') && Server.ValidAccounts(s')
    ensures Later(s0, s')
  {
  }

  lemma NextFollows(s0: Server.Ledger, s: Server.Ledger, d: Server.Device, mine: string -> bool, es: seq<SyncEvent>,
                    m: nat, i: nat, provider: string -> string)
    requires Later(s0, s) && Generated(es, provider) && i < |es| && m <= |es|
    requires Follow(s0, s, d.person, mine, es, i, Records.Max(i, m))
    ensures Follow(s0, Server.StoreEvent(s, d, es[i]).0, d.person, mine, es, i + 1, Records.Max(i + 1, m))
  {
    hide FollowsAt, Generated, Later, Server.StoreEvent;
    forall k | mine(k) && k in s0.events
      ensures FollowsAt(s0, Server.StoreEvent(s, d, es[i]).0, d.person, k, es, i + 1, Records.Max(i + 1, m))
    {
      if i < m {
        ReplayFollows(s0, s, d, k, es, i, m, provider);
      } else {
        FreshFollows(s0, s, d, k, es, i, provider);
      }
    }
  }

  /** A batch from h to j, of which the server has seen the changes up to m. */
  lemma {:induction false} BatchFollows(s0: Server.Ledger, s: Server.Ledger, d: Server.Device, mine: string -> bool,
                                        es: seq<SyncEvent>, h: nat, m: nat, j: nat, provider: string -> string)
    requires Later(s0, s) && Generated(es, provider) && h <= m <= |es| && h <= j <= |es|
    requires Follow(s0, s, d.person, mine, es, m, m)
    ensures var s' := Server.StoreEvents(s, d, es[h..j]).0;
            Later(s0, s') && Follow(s0, s', d.person, mine, es, j, Records.Max(j, m))
    decreases j
  {
    hide Generated, Server.StoreEvent, Later;
    if j == h {
      assert es[h..j] == [];
      assert Server.StoreEvents(s, d, []) == (s, 0);
      SeenAgain(s0, s, d.person, mine, es, h, m);
    } else {
      hide Server.StoreEvents, Follow;
      BatchFollows(s0, s, d, mine, es, h, m, j - 1, provider);
      var s1 := Server.StoreEvents(s, d, es[h..j - 1]).0;
      NextFollows(s0, s1, d, mine, es, m, j - 1, provider);
      LaterStored(s0, s1, d, es[j - 1]);
      StoreOneMore(s, d, es, h, j);
    }
  }

  lemma SeenAgain(s0: Server.Ledger, s: Server.Ledger, person: string, mine: string -> bool, es: seq<SyncEvent>,
                  h: nat, m: nat)
    requires h <= m <= |es| && Follow(s0, s, person, mine, es, m, m)
    ensures Follow(s0, s, person, mine, es, h, m)
  {
    hide OnDevices, Left;
    forall k | mine(k) && k in s0.events ensures FollowsAt(s0, s, person, k, es, h, m) {
      assert FollowsAt(s0, s, person, k, es, m, m);
    }
  }

  lemma FollowPrefix(s0: Server.Ledger, s: Server.Ledger, person: string, mine: string -> bool, es: seq<SyncEvent>,
                     i: nat)
    requires i <= |es|
    ensures Follow(s0, s, person, mine, es, i, i) <==> Follow(s0, s, person, mine, es[..i], i, i)
  {
    hide OnDevices, Left;
    assert es[..i][..i] == es[..i];
    forall k | mine(k) && k in s0.events
      ensures FollowsAt(s0, s, person, k, es, i, i) <==> FollowsAt(s0, s, person, k, es[..i], i, i)
    {
    }
    hide FollowsAt;
  }

  lemma FollowFrame(s0: Server.Ledger, s: Server.Ledger, s': Server.Ledger, person: string, mine: string -> bool,
                    es: seq<SyncEvent>, i: nat)
    requires i <= |es| && Follow(s0, s, person, mine, es, i, i) && Server.KeepsAccounts(s, s')
    requires forall k :: mine(k) ==>
        (k in s.events <==> k in s'.events) && (k in s.events ==> s'.events[k] == s.events[k])
    ensures Follow(s0, s', person, mine, es, i, i)
  {
    hide FollowsAt;
    forall k | mine(k) && k in s0.events ensures FollowsAt(s0, s', person, k, es, i, i) {
      assert FollowsAt(s0, s, person, k, es, i, i);
      FollowsHas(s0, s, person, k, es, i);
      FollowsKept(s0, s, s', person, k, es, i, i);
    }
  }

  lemma FollowsHas(s0: Server.Ledger, s: Server.Ledger, person: string, k: string, es: seq<SyncEvent>, i: nat)
    requires k in s0.events && i <= |es| && FollowsAt(s0, s, person, k, es, i, i)
    ensures k in s.events
  {
  }

  /** A batch of the log from h to j, with the server at m, leaves it at j. */
  lemma BatchAfter(s0: Server.Ledger, s: Server.Ledger, d: Server.Device, log: seq<OutboxItem>, h: nat, m: nat, j: nat,
                   provider: string -> string, mine: string -> bool)
    requires h <= m <= j <= |log| && Later(s0, s) && Generated(EventsOf(log), provider)
    requires FollowAll(s0, s, d.person, mine, EventsOf(log[..m]))
    ensures var s' := Server.IngestBatch(s, d, BatchRequest(log[h..j])).ledger;
            Later(s0, s') && FollowAll(s0, s', d.person, mine, EventsOf(log[..j]))
  {
    var es, request := EventsOf(log), BatchRequest(log[h..j]);
    History.IngestFrame(s, d, request);
    LaterAccounts(s0, s);
    var s1 := Server.StoreObservations(s, d, request.observations).0;
    var s2 := Server.StoreEvents(s1, d, request.events).0;
    var s' := Server.IngestBatch(s, d, request).ledger;
    EventsOfSlices(log, h, m, j);
    var eh, em, ej := |EventsOf(log[..h])|, |EventsOf(log[..m])|, |EventsOf(log[..j])|;
    hide EventsOf, Generated, Follow, Later, Server.IngestBatch, Server.StoreEvents, Server.StoreObservations,
         Server.KeepsAccounts, Server.ValidAccounts;
    FollowPrefix(s0, s, d.person, mine, es, em);
    FollowFrame(s0, s, s1, d.person, mine, es, em);
    LaterThen(s0, s, s1);
    BatchFollows(s0, s1, d, mine, es, eh, em, ej, provider);
    FollowFrame(s0, s2, s', d.person, mine, es, ej);
    LaterThen(s0, s2, s');
    FollowPrefix(s0, s', d.person, mine, es, ej);
  }

  lemma LaterAccounts(s0: Server.Ledger, s: Server.Ledger)
    requires Later(s0, s)
    ensures Server.ValidAccounts(s)
  {
  }

  ghost predicate FollowAll(s0: Server.Ledger, s: Server.Ledger, person: string, mine: string -> bool,
                            es: seq<SyncEvent>)
  {
    Follow(s0, s, person, mine, es, |es|, |es|)
  }

  // -------------------------------------------------------------------- the run

  /** The device's keys that are new to the server. */
  ghost function NewTo(s0: Server.Ledger, mine: string -> bool): string -> bool {
    k => mine(k) && k !in s0.events
  }

  /** The changes the server has seen. */
  function SeenEvents(w: World): seq<SyncEvent>
    requires Seen(w) <= |w.log|
  {
    EventsOf(w.log[..Seen(w)])
  }

  /** The device's rows are the log's; the server holds those new to it as far
      as it has seen them, and the others follow them. */
  ghost predicate AfterInStep(w: World, s0: Server.Ledger, provider: string -> string, mine: string -> bool) {
    && Seen(w) <= |w.log| && Later(s0, w.server)
    && Tracks(w.local.events, EventsOf(w.log), provider, mine)
    && Holds(w.server, w.device.person, NewTo(s0, mine), SeenRows(w))
    && FollowAll(s0, w.server, w.device.person, mine, SeenEvents(w))
  }

  /** The batch an uploader sends was read since the reset and ends no earlier than what the server has seen. */
  ghost predicate InOrder(w: World, u: nat) {
    UploaderOf(w, u).Sending? ==> End(w, UploaderOf(w, u).batch) > 0 && Seen(w) <= End(w, UploaderOf(w, u).batch)
  }

  ghost predicate AllInOrder(w: World, steps: seq<Step>) {
    forall i :: 0 <= i < |steps| && steps[i].BatchCommitted? ==> InOrder(Steps(w, steps[..i]), steps[i].u)
  }

  lemma CommitAfter(w: World, u: nat, s0: Server.Ledger, provider: string -> string, mine: string -> bool)
    requires QueueInStep(w) && AfterInStep(w, s0, provider, mine) && InOrder(w, u)
    ensures AfterInStep(CommitBatch(w, u), s0, provider, mine)
  {
    var up := UploaderOf(w, u);
    hide Tracks, Holds, Later, FollowAll, Server.IngestBatch, BatchRequest, EventsOf, Replica, End, Seen, Generated,
         NewTo;
    CommitSeen(w, u);
    if up.Sending? {
      assert UploaderInStep(w, up);
      TracksGenerated(w, provider, mine);
      LaterAccounts(s0, w.server);
      hide UploaderInStep, Server.ValidAccounts;
      AheadRows(w, up.batch, provider, NewTo(s0, mine));
      var end := End(w, up.batch);
      BatchAfter(s0, w.server, w.device, w.log, end - |up.batch|, Seen(w), end, provider, mine);
    }
  }

  lemma SameAfter(w: World, w': World, s0: Server.Ledger, provider: string -> string, mine: string -> bool)
    requires AfterInStep(w, s0, provider, mine)
    requires w'.local.events == w.local.events && w'.log == w.log && w'.server == w.server
    requires w'.device == w.device && w'.sent == w.sent && Origin(w') == Origin(w)
    ensures AfterInStep(w', s0, provider, mine)
  {
    hide Tracks, Holds, Later, FollowAll, SeenId, EventsOf, Replica;
  }

  lemma LocalAfter(w: World, step: Step, s0: Server.Ledger, provider: string -> string, mine: string -> bool)
    requires QueueInStep(w) && AfterInStep(w, s0, provider, mine) && IsLocal(step) && Allowed(step, provider, mine)
    ensures AfterInStep(Take(w, step), s0, provider, mine)
  {
    LocalSeen(w, step);
    LocalStepKeys(w, step);
    LocalStepTracks(w, step, provider, mine);
    hide Tracks, Take, Holds, EventsOf, Seen, Later, FollowAll, Replica, QueueInStep, KeepsRows, Saved;
  }

  lemma ElsewhereAfter(w: World, d: Server.Device, request: SyncRequest, s0: Server.Ledger,
                       provider: string -> string, mine: string -> bool)
    requires AfterInStep(w, s0, provider, mine) && forall e :: e in request.events ==> !mine(e.event.dedupeKey)
    ensures AfterInStep(Commit(w, d, request), s0, provider, mine)
  {
    var s' := Commit(w, d, request).server;
    LaterAccounts(s0, w.server);
    ForeignRows(w.server, d, request, mine);
    hide Holds, Tracks, EventsOf, Server.IngestBatch, Later, Follow, SeenId, Server.ValidAccounts, Server.KeepsAccounts;
    HoldsKept(w.server, s', w.device.person, NewTo(s0, mine), SeenRows(w));
    FollowFrame(s0, w.server, s', w.device.person, mine, SeenEvents(w), |SeenEvents(w)|);
    LaterThen(s0, w.server, s');
  }

  lemma ForeignRows(s: Server.Ledger, d: Server.Device, request: SyncRequest, mine: string -> bool)
    requires Server.ValidAccounts(s) && forall e :: e in request.events ==> !mine(e.event.dedupeKey)
    ensures var s' := Server.IngestBatch(s, d, request).ledger;
            && Server.KeepsAccounts(s, s') && Server.ValidAccounts(s')
            && forall k :: mine(k) ==>
                 (k in s.events <==> k in s'.events) && (k in s.events ==> s'.events[k] == s.events[k])
  {
    History.IngestFrame(s, d, request);
    ForeignEvents(Server.StoreObservations(s, d, request.observations).0, d, request.events, mine);
    hide Server.IngestBatch, Server.StoreEvents, Server.StoreObservations;
  }

  lemma TakeAfter(w: World, step: Step, s0: Server.Ledger, provider: string -> string, mine: string -> bool)
    requires QueueInStep(w) && AfterInStep(w, s0, provider, mine) && Allowed(step, provider, mine)
    requires step.BatchCommitted? ==> InOrder(w, step.u)
    ensures AfterInStep(Take(w, step), s0, provider, mine)
  {
    if IsLocal(step) {
      LocalAfter(w, step, s0, provider, mine);
    } else {
      hide AfterInStep, QueueInStep, InOrder, Allowed;
      match step
      case BatchRead(u) => SameAfter(w, ReadBatch(w, u), s0, provider, mine);
      case BatchCommitted(u) => CommitAfter(w, u, s0, provider, mine);
      case BatchDeleted(u) =>
        DeletedOrigin(w, u);
        SameAfter(w, DeleteBatch(w, u), s0, provider, mine);
      case UploaderStopped(u) => SameAfter(w, StopUploader(w, u), s0, provider, mine);
      case CommittedElsewhere(d, request) =>
        ElsewhereIsForeign(step, provider, mine);
        ElsewhereAfter(w, d, request, s0, provider, mine);
    }
  }

  lemma InOrderPrefix(w: World, steps: seq<Step>, n: nat)
    requires AllInOrder(w, steps) && n <= |steps|
    ensures AllInOrder(w, steps[..n])
  {
    forall i | 0 <= i < n ensures steps[..n][..i] == steps[..i] {
    }
    hide Steps, InOrder;
  }

  lemma {:induction false} StepsAfter(w: World, steps: seq<Step>, s0: Server.Ledger, provider: string -> string,
                                      mine: string -> bool)
    requires QueueInStep(w) && AfterInStep(w, s0, provider, mine)
    requires AllAllowed(steps, provider, mine) && AllInOrder(w, steps)
    ensures AfterInStep(Steps(w, steps), s0, provider, mine)
  {
    if steps != [] {
      hide QueueInStep, AfterInStep, Allowed, Take, InOrder;
      var n := |steps| - 1;
      InOrderPrefix(w, steps, n);
      StepsAfter(w, steps[..n], s0, provider, mine);
      AllowedNoReset(steps[..n], provider, mine);
      StepsQueueInStep(w, steps[..n]);
      TakeAfter(Steps(w, steps[..n]), steps[n], s0, provider, mine);
    }
  }

  // ------------------------------------------------------------------ the reset

  /** Right after a reset nothing queued since has been seen, and the batches on
      their way are all from before. */
  lemma ResetInStep(w: World, server: Server.Ledger, signIns: seq<SignInKey>, readings: seq<ReadingKey>)
    requires Safe(w, server) && ResetOrders(w.local, signIns, readings)
    ensures var w' := ResetWorld(w, signIns, readings);
            && QueueInStep(w') && Head(w') == Seen(w') == 0 && w'.local.events == map[] && EventsOf(w'.log) == []
            && w'.server == w.server && w'.device == w.device
  {
    var w' := ResetWorld(w, signIns, readings);
    ResetQueues(w.local, signIns, readings);
    hide Reset, ResetOrders, PooledSignIns, BatchRequest, SafeQueue, SafeFiles, History.Run, Committed;
    RequeuedIds(w.local, w'.local, signIns, readings);
    hide Requeued;
    NoEventsOf(w'.log);
    forall i | 0 <= i < |w.sent| ensures Before(w.sent[i], w.local.nextId) {
      assert w.sent[i] in w.sent;
    }
    SentBefore(w.sent, w.local.nextId);
    hide EventsOf, SafeSent;
    RestartInStep(w, w');
  }

  lemma RestartInStep(w: World, w': World)
    requires SafeUploaders(w) && SeenId(w.sent) <= w.local.nextId
    requires w'.log == w'.local.outbox && w'.sent == w.sent && w'.uploaders == w.uploaders
    requires w'.local.nextId == w.local.nextId + |w'.log|
    requires forall i :: 0 <= i < |w'.log| ==> w'.log[i].id == w.local.nextId + i
    ensures QueueInStep(w') && Head(w') == Seen(w') == 0
  {
    hide SeenId, IsPiece, LastId;
    assert Origin(w') == w.local.nextId;
    forall u | u in w'.uploaders ensures UploaderInStep(w', w'.uploaders[u]) {
      StaleInStep(w, w', w.uploaders[u]);
    }
    hide UploaderInStep;
  }

  lemma StaleInStep(w: World, w': World, up: Uploader)
    requires !up.Idle? ==> HoldsPrefix(w.local, up.batch)
    requires Origin(w') == w.local.nextId
    ensures UploaderInStep(w', up)
  {
    hide SeenId, IsPiece, LastId;
    assert !up.Idle? ==> End(w', up.batch) <= 0 <= Seen(w');
  }

  lemma RequeuedIds(s: Local, s': Local, signIns: seq<SignInKey>, readings: seq<ReadingKey>)
    requires Requeued(s, s', signIns, readings)
    ensures s'.nextId == s.nextId + |s'.outbox|
    ensures forall i :: 0 <= i < |s'.outbox| ==> s'.outbox[i].id == s.nextId + i
    ensures forall it :: it in s'.outbox ==> !it.payload.EventPayload?
  {
    forall i | 0 <= i < |s'.outbox| ensures !s'.outbox[i].payload.EventPayload? {
      if i < |signIns| {
        assert CarriesSignIn(s'.outbox[i].payload, signIns[i], s.signIns[signIns[i]]);
      } else {
        var j := i - |signIns|;
        assert CarriesReading(s'.outbox[|signIns| + j].payload, readings[j], s.readings[readings[j]]);
      }
    }
  }

  ghost predicate Before(batch: seq<OutboxItem>, id: nat) {
    batch != [] && forall it :: it in batch ==> it.id < id
  }

  lemma {:induction false} SentBefore(sent: seq<seq<OutboxItem>>, id: nat)
    requires forall i :: 0 <= i < |sent| ==> Before(sent[i], id)
    ensures SeenId(sent) <= id
  {
    if sent != [] {
      var last := sent[|sent| - 1];
      assert Before(last, id) && last[|last| - 1] in last;
      SentBefore(sent[..|sent| - 1], id);
    }
  }

  lemma ResetAfter(w: World, server: Server.Ledger, signIns: seq<SignInKey>, readings: seq<ReadingKey>,
                   provider: string -> string, mine: string -> bool)
    requires Safe(w, server) && ResetOrders(w.local, signIns, readings)
    requires Server.ValidAccounts(w.server) && History.RowsOnAccounts(w.server)
    ensures AfterInStep(ResetWorld(w, signIns, readings), w.server, provider, mine)
  {
    var w', s0 := ResetWorld(w, signIns, readings), w.server;
    ResetInStep(w, server, signIns, readings);
    hide Reset, ResetOrders, ResetWorld, Safe, QueueInStep, Seen, Server.ValidAccounts, History.RowsOnAccounts;
    assert w'.log[..0] == [] && EventsOf([]) == [];
    hide EventsOf;
    NothingFollows(s0, w'.device.person, mine);
  }

  /** A ledger no change has reached since is as it was. */
  lemma NothingFollows(s0: Server.Ledger, person: string, mine: string -> bool)
    ensures FollowAll(s0, s0, person, mine, []) && Holds(s0, person, NewTo(s0, mine), Replica([]))
  {
    hide Mirrors;
    forall k | mine(k) && k in s0.events ensures FollowsAt(s0, s0, person, k, [], 0, 0) {
      assert !Left(s0, person, k, [][..0]);
    }
  }

  /** What the server has after a ledger reset at any moment of any run, and any
      number of uploaders' steps from then on whose batches are committed in
      order. A request the server had no row of is as the device has it, once
      the outbox is empty. A row from before is on its old account exactly
      until a change of its person corrects that account, and then on the
      device's; so it is on the device's account exactly when a change corrected
      the old account, or the old account is the device's. */
  lemma AfterTheReset(device: Server.Device, server: Server.Ledger, before: seq<Step>, signIns: seq<SignInKey>,
                      readings: seq<ReadingKey>, steps: seq<Step>, provider: string -> string, mine: string -> bool)
    requires Server.ValidAccounts(server) && History.RowsOnAccounts(server)
    requires ResetOrders(Steps(Start(device, server), before).local, signIns, readings)
    requires AllAllowed(steps, provider, mine)
    requires AllInOrder(ResetWorld(Steps(Start(device, server), before), signIns, readings), steps)
    ensures var s0 := Steps(Start(device, server), before).server;
            var w := Steps(ResetWorld(Steps(Start(device, server), before), signIns, readings), steps);
            w.local.outbox == [] ==>
              && w.local.events == Replica(EventsOf(w.log))
              && (forall k :: mine(k) && k !in s0.events ==> HoldsAt(w.server, device.person, k, w.local.events))
              && (forall k :: mine(k) && k in s0.events ==> EndsUp(s0, w.server, device.person, k, EventsOf(w.log)))
  {
    var w1 := Steps(Start(device, server), before);
    var w0 := ResetWorld(w1, signIns, readings);
    StepsSafe(device, server, before);
    SafeServer(w1, server);
    StepsKeepDevice(Start(device, server), before);
    ResetInStep(w1, server, signIns, readings);
    ResetAfter(w1, server, signIns, readings, provider, mine);
    StepsAfter(w0, steps, w1.server, provider, mine);
    AllowedNoReset(steps, provider, mine);
    StepsQueueInStep(w0, steps);
    StepsKeepDevice(w0, steps);
    hide Steps, ResetOrders, ResetWorld, Safe, AllInOrder, AllAllowed;
    var w := Steps(w0, steps);
    if w.local.outbox == [] {
      AtTheEnd(w, w1.server, provider, mine);
    }
    hide *;
  }

  lemma SafeServer(w: World, server: Server.Ledger)
    requires Safe(w, server) && Server.ValidAccounts(server) && History.RowsOnAccounts(server)
    ensures Server.ValidAccounts(w.server) && History.RowsOnAccounts(w.server)
  {
    History.RunKeepsAccounts(server, w.history);
    hide Server.ValidAccounts, History.RowsOnAccounts, History.Run;
  }

  /** Where a row from before is once the server has seen all changes since. */
  ghost predicate EndsUp(s0: Server.Ledger, s: Server.Ledger, person: string, k: string, es: seq<SyncEvent>)
    requires k in s0.events
  {
    && k in s.events && SameOwner(s0.events[k], s.events[k])
    && (Left(s0, person, k, es) ==> OnDevices(s, s.events[k], Replica(es), k))
    && (!Left(s0, person, k, es) ==> s.events[k].accountId == s0.events[k].accountId)
    && (OnDevices(s, s.events[k], Replica(es), k) <==>
          Left(s0, person, k, es) || OnDevices(s, s0.events[k], Replica(es), k))
  }

  lemma AtTheEnd(w: World, s0: Server.Ledger, provider: string -> string, mine: string -> bool)
    requires QueueInStep(w) && AfterInStep(w, s0, provider, mine) && w.local.outbox == []
    ensures w.local.events == Replica(EventsOf(w.log))
    ensures forall k :: mine(k) && k !in s0.events ==> HoldsAt(w.server, w.device.person, k, w.local.events)
    ensures forall k :: mine(k) && k in s0.events ==> EndsUp(s0, w.server, w.device.person, k, EventsOf(w.log))
  {
    var es := EventsOf(w.log);
    hide UploaderInStep, SeenId, Later, HoldsAt, EventsOf, Replica, Generated;
    assert w.log[..Seen(w)] == w.log;
    forall k | mine(k) && k in s0.events ensures EndsUp(s0, w.server, w.device.person, k, es) {
      assert FollowsAt(s0, w.server, w.device.person, k, es, |es|, |es|);
      assert es[..|es|] == es;
      hide OnDevices, Left;
    }
    forall k | mine(k) && k !in s0.events ensures HoldsAt(w.server, w.device.person, k, w.local.events) {
      assert NewTo(s0, mine)(k);
    }
  }

  // --------------------------------------------------------- the second uploader

  /** A reset before anything was read changes nothing, so that a run of two
      uploaders that ends on the wrong account can follow one, too. */
  lemma ResetOfNothing(device: Server.Device, server: Server.Ledger, steps: seq<Step>)
    ensures Steps(Start(device, server), [LedgerReset([], [])] + steps) == Steps(Start(device, server), steps)
  {
    EmptyReset(device, server);
    StepsAfterFirst(Start(device, server), LedgerReset([], []), steps);
  }

  lemma EmptyReset(device: Server.Device, server: Server.Ledger)
    ensures Take(Start(device, server), LedgerReset([], [])) == Start(device, server)
  {
    var s := Start(device, server).local;
    assert PooledSignIns(s) == {};
    assert s.readings.Keys == {};
    assert ResetOrders(s, [], []) ==> Reset(s, [], []) == s;
  }

  lemma {:induction false} StepsAfterFirst(w: World, first: Step, steps: seq<Step>)
    ensures Steps(w, [first] + steps) == Steps(Take(w, first), steps)
  {
    hide Take;
    var all := [first] + steps;
    if steps == [] {
      assert all == [first] && [first][..0] == [];
      assert Steps(w, [first][..0]) == w;
    } else {
      var n := |steps| - 1;
      StepsAfterFirst(w, first, steps[..n]);
      assert all[..|all| - 1] == [first] + steps[..n];
    }
  }
}
