/** The server's Postgres tables and the one transaction that fills them from
    a device's batch: what internal/server/storage/storage.go's Ingest does. */
module ServerLedger {
  import opened Records

  /** accounts.id: random in the database, the next unused number here. */
  type AccountId = nat

  /** The natural key of an account: UNIQUE (provider, ref_hash). */
  datatype AccountKey = AccountKey(provider: string, ref: string)

  datatype Account = Account(
    id: AccountId, hint: string, title: string, planType: string, planObservedAt: Option<Time>)

  datatype Device = Device(id: string, person: string)

  /** A row of usage_events, whose key is dedupe_key. */
  datatype Row = Row(
    accountId: AccountId,
    person: string,
    device: string,
    product: string,
    originator: string,
    session: string,
    model: string,
    occurredAt: Time,
    tokens: Tokens,
    thirdParty: bool,
    gateway: string,
    requestId: string,
    parentRequestId: string,
    effort: string,
    status: string,
    aggregated: bool)

  datatype ObservationKey = ObservationKey(device: string, accountId: AccountId, source: string, observedAt: Time)
  datatype SnapshotKey = SnapshotKey(accountId: AccountId, device: string, source: string, observedAt: Time)
  datatype SnapshotRow = SnapshotRow(buckets: seq<Bucket>, planType: string)
  datatype LimitRow = LimitRow(accountId: AccountId, device: Device, limit: LimitEvent)

  datatype Ledger = Ledger(
    accounts: map<AccountKey, Account>,
    nextAccount: AccountId,
    memberships: set<(AccountId, string)>,
    observations: set<ObservationKey>,
    events: map<string, Row>,
    snapshots: map<SnapshotKey, SnapshotRow>,
    limits: map<string, LimitRow>)

  /** Distinct accounts have distinct ids, all of them already handed out. */
  ghost predicate ValidAccounts(s: Ledger) {
    && (forall k :: k in s.accounts ==> s.accounts[k].id < s.nextAccount)
    && (forall k, k' :: k in s.accounts && k' in s.accounts && s.accounts[k].id == s.accounts[k'].id ==> k == k')
  }

  /** Accounts are never lost and never change their id. */
  ghost predicate KeepsAccounts(s: Ledger, s': Ledger) {
    forall k :: k in s.accounts ==> k in s'.accounts && s'.accounts[k].id == s.accounts[k].id
  }

  // ---------------------------------------------------------------- accounts

  /** SQL's LIKE: % matches any text, _ one character, \ the next one itself. */
  predicate Like(s: string, pattern: string)
    decreases |s| + |pattern|
  {
    if pattern == "" then s == ""
    else if pattern[0] == '%' then Like(s, pattern[1..]) || (s != "" && Like(s[1..], pattern))
    else if pattern[0] == '_' then s != "" && Like(s[1..], pattern[1..])
    else if pattern[0] == '\\' && |pattern| > 1 then s != "" && s[0] == pattern[1] && Like(s[1..], pattern[2..])
    else s != "" && s[0] == pattern[0] && Like(s[1..], pattern[1..])
  }

  /** excluded.plan_observed_at < accounts.plan_observed_at, where NULL is no answer. */
  predicate Older(offered: Option<Time>, stored: Option<Time>) {
    offered.Some? && stored.Some? && offered.value < stored.value
  }

  /** GREATEST, which ignores NULL. */
  function Newest(stored: Option<Time>, offered: Option<Time>): Option<Time> {
    if stored.None? then offered
    else if offered.None? then stored
    else Some(Max(stored.value, offered.value))
  }

  function UpdateAccount(a: Account, hint: string, plan: string, at: Option<Time>): Account {
    a.(hint := if hint != "" then hint else a.hint,
       title := if a.title == "" then hint else a.title,
       planType := if plan == "" || Older(at, a.planObservedAt) || Like(a.planType, plan + " %") then a.planType
           else plan,
       planObservedAt := Newest(a.planObservedAt, at))
  }

  /** ensureAccount: creates the account on first sight and joins the person to it. */
  function EnsureAccount(s: Ledger, key: AccountKey, hint: string, plan: string, planAt: Time, person: string): Ledger {
    var at := if plan == "" then None else Some(planAt);
    var s1 := if key in s.accounts
              then s.(accounts := s.accounts[key := UpdateAccount(s.accounts[key], hint, plan, at)])
              else s.(accounts := s.accounts[key := Account(s.nextAccount, hint, hint, plan, at)],
                      nextAccount := s.nextAccount + 1);
    s1.(memberships := s1.memberships + {(s1.accounts[key].id, person)})
  }

  // ------------------------------------------------------------ observations

  /** What an observation says of the account's plan: for Claude, nothing. */
  function ObservedPlan(o: Observation): string {
    if o.provider == "anthropic" then "" else o.planType
  }

  function StoreObservation(s: Ledger, d: Device, o: Observation): (Ledger, nat) {
    if o.accountRef == "" then (s, 0)
    else
      var key := AccountKey(o.provider, o.accountRef);
      var s1 := EnsureAccount(s, key, o.hint, ObservedPlan(o), o.observedAt, d.person);
      var row := ObservationKey(d.id, s1.accounts[key].id, o.source, o.observedAt);
      (s1.(observations := s1.observations + {row}), if row in s1.observations then 0 else 1)
  }

  // ------------------------------------------------------------------ events

  function NewRow(d: Device, id: AccountId, e: UsageEvent): Row {
    Row(id, d.person, d.id, e.product, e.originator, e.session, e.model, e.occurredAt, e.tokens, e.thirdParty,
        e.gateway, e.requestId, e.parentRequestId, e.effort, e.status, e.aggregated)
  }

  /** More of a request already on the event's account. */
  predicate Merges(r: Row, id: AccountId, e: UsageEvent) {
    && r.accountId == id
    && (e.tokens.output > r.tokens.output
        || (r.requestId == "" && e.requestId != "")
        || (r.effort == "" && e.effort != ""))
  }

  /** A correction that names the account the request is on. */
  predicate Corrects(r: Row, id: AccountId, previous: Option<AccountId>, e: UsageEvent) {
    r.session == e.session && r.originator == e.originator && r.accountId != id && previous == Some(r.accountId)
  }

  predicate Accepts(r: Row, person: string, id: AccountId, previous: Option<AccountId>, e: UsageEvent) {
    r.person == person && (Merges(r, id, e) || Corrects(r, id, previous, e))
  }

  /** The upsert's DO UPDATE branch. */
  function Upsert(r: Row, person: string, id: AccountId, previous: Option<AccountId>, e: UsageEvent): Row {
    if Accepts(r, person, id, previous, e) then
      r.(accountId := id,
         tokens := Raise(r.tokens, e.tokens),
         requestId := Fill(r.requestId, e.requestId),
         parentRequestId := Fill(r.parentRequestId, e.parentRequestId),
         effort := Fill(r.effort, e.effort),
         status := Fill(r.status, e.status),
         aggregated := r.aggregated || e.aggregated)
    else r
  }

  predicate Moves(r: Row, device: string, id: AccountId, e: UsageEvent) {
    e.gateway != "" && r.device == device && r.thirdParty && r.accountId != id
  }

  /** The recording device moves a third-party request to its real account. */
  function Move(r: Row, device: string, id: AccountId, e: UsageEvent): Row {
    if Moves(r, device, id, e) then
      r.(accountId := id, model := e.model, gateway := e.gateway, thirdParty := e.thirdParty)
    else r
  }

  /** Marks a request third-party and names its gateway, neither of which is undone here. */
  function Reclassify(r: Row, person: string, e: UsageEvent): Row {
    if r.person == person then
      r.(thirdParty := r.thirdParty || e.thirdParty, gateway := Fill(r.gateway, e.gateway))
    else r
  }

  /** Everything one delivery does to an existing row. */
  function Deliver(r: Row, d: Device, id: AccountId, previous: Option<AccountId>, e: UsageEvent): Row {
    Reclassify(Move(Upsert(r, d.person, id, previous, e), d.id, id, e), d.person, e)
  }

  /** (SELECT id FROM accounts WHERE provider = .. AND ref_hash = previous), unless previous is ''. */
  function PreviousId(s: Ledger, provider: string, previousRef: string): Option<AccountId> {
    var key := AccountKey(provider, previousRef);
    if previousRef != "" && key in s.accounts then Some(s.accounts[key].id) else None
  }

  predicate Skips(e: SyncEvent) {
    e.event.accountRef == "" || e.event.dedupeKey == ""
  }

  function EventAccount(e: SyncEvent): AccountKey {
    AccountKey(e.event.provider, e.event.accountRef)
  }

  /** The statements that save an event on the account id, and how many rows the upsert touched. */
  function PutEvent(s: Ledger, d: Device, id: AccountId, e: SyncEvent): (Ledger, nat) {
    var previous := PreviousId(s, e.event.provider, e.previousRef);
    var key := e.event.dedupeKey;
    if key in s.events then
      (s.(events := s.events[key := Deliver(s.events[key], d, id, previous, e.event)]),
       if Accepts(s.events[key], d.person, id, previous, e.event) then 1 else 0)
    else
      (s.(events := s.events[key := Deliver(NewRow(d, id, e.event), d, id, previous, e.event)]), 1)
  }

  /** One event of a batch. */
  function StoreEvent(s: Ledger, d: Device, e: SyncEvent): (Ledger, nat) {
    if Skips(e) then (s, 0)
    else
      var s1 := EnsureAccount(s, EventAccount(e), "", "", 0, d.person);
      PutEvent(s1, d, s1.accounts[EventAccount(e)].id, e)
  }

  /** The row of a reported event is not on the account the device reported. */
  predicate Diverges(s: Ledger, e: SyncEvent) {
    && e.event.dedupeKey in s.events
    && exists k :: k in s.accounts && s.accounts[k].id == s.events[e.event.dedupeKey].accountId && k != EventAccount(e)
  }

  function Reported(es: seq<SyncEvent>): seq<SyncEvent> {
    if es == [] then []
    else
      var n := |es| - 1;
      Reported(es[..n]) + (if Skips(es[n]) then [] else [es[n]])
  }

  function CountDiverged(s: Ledger, es: seq<SyncEvent>): nat {
    if es == [] then 0
    else
      var n := |es| - 1;
      CountDiverged(s, es[..n]) + (if Diverges(s, es[n]) then 1 else 0)
  }

  // --------------------------------------------------------------- snapshots

  /** The DELETE of a corrected reading: its key, when the row is there with the same buckets. */
  function CorrectedSnapshot(s: Ledger, d: Device, c: SyncSnapshot): Option<SnapshotKey> {
    var previous := PreviousId(s, c.snapshot.provider, c.previousRef);
    if c.previousRef != c.snapshot.accountRef && previous.Some? then
      var key := SnapshotKey(previous.value, d.id, c.snapshot.source, c.snapshot.observedAt);
      if key in s.snapshots && s.snapshots[key].buckets == c.snapshot.buckets then Some(key) else None
    else None
  }

  /** The delete and the insert that save a reading on the account id. */
  function PutSnapshot(s: Ledger, d: Device, id: AccountId, c: SyncSnapshot): (Ledger, nat) {
    var gone := CorrectedSnapshot(s, d, c);
    var kept := if gone.Some? then s.snapshots - {gone.value} else s.snapshots;
    var deleted := if gone.Some? then 1 else 0;
    var key := SnapshotKey(id, d.id, c.snapshot.source, c.snapshot.observedAt);
    if key !in kept then
      (s.(snapshots := kept[key := SnapshotRow(c.snapshot.buckets, c.snapshot.planType)]), deleted + 1)
    else if kept[key].planType == "" && c.snapshot.planType != "" then
      (s.(snapshots := kept[key := kept[key].(planType := c.snapshot.planType)]), deleted + 1)
    else
      (s.(snapshots := kept), deleted)
  }

  function SnapshotAccount(c: SyncSnapshot): AccountKey {
    AccountKey(c.snapshot.provider, c.snapshot.accountRef)
  }

  function StoreSnapshot(s: Ledger, d: Device, c: SyncSnapshot): (Ledger, nat) {
    var snap := c.snapshot;
    if snap.accountRef == "" || snap.buckets == [] then (s, 0)
    else
      var s1 := EnsureAccount(s, SnapshotAccount(c), snap.hint, snap.planType, snap.observedAt, d.person);
      PutSnapshot(s1, d, s1.accounts[SnapshotAccount(c)].id, c)
  }

  // ------------------------------------------------------------ limit events

  function StoreLimit(s: Ledger, d: Device, l: LimitEvent): (Ledger, nat) {
    if l.accountRef == "" || l.dedupeKey == "" then (s, 0)
    else
      var key := AccountKey(l.provider, l.accountRef);
      var s1 := EnsureAccount(s, key, "", "", 0, d.person);
      if l.dedupeKey in s1.limits then (s1, 0)
      else (s1.(limits := s1.limits[l.dedupeKey := LimitRow(s1.accounts[key].id, d, l)]), 1)
  }

  // ------------------------------------------------------------ whole batches

  function StoreObservations(s: Ledger, d: Device, os: seq<Observation>): (Ledger, nat) {
    if os == [] then (s, 0)
    else
      var (s1, n) := StoreObservations(s, d, os[..|os| - 1]);
      var (s2, m) := StoreObservation(s1, d, os[|os| - 1]);
      (s2, n + m)
  }

  function StoreEvents(s: Ledger, d: Device, es: seq<SyncEvent>): (Ledger, nat) {
    if es == [] then (s, 0)
    else
      var (s1, n) := StoreEvents(s, d, es[..|es| - 1]);
      var (s2, m) := StoreEvent(s1, d, es[|es| - 1]);
      (s2, n + m)
  }

  function StoreSnapshots(s: Ledger, d: Device, cs: seq<SyncSnapshot>): (Ledger, nat) {
    if cs == [] then (s, 0)
    else
      var (s1, n) := StoreSnapshots(s, d, cs[..|cs| - 1]);
      var (s2, m) := StoreSnapshot(s1, d, cs[|cs| - 1]);
      (s2, n + m)
  }

  function StoreLimits(s: Ledger, d: Device, ls: seq<LimitEvent>): (Ledger, nat) {
    if ls == [] then (s, 0)
    else
      var (s1, n) := StoreLimits(s, d, ls[..|ls| - 1]);
      var (s2, m) := StoreLimit(s1, d, ls[|ls| - 1]);
      (s2, n + m)
  }

  datatype IngestResult = IngestResult(ledger: Ledger, accepted: nat, diverged: nat)

  /** One sync batch, as one transaction. */
  function IngestBatch(s: Ledger, d: Device, req: SyncRequest): IngestResult {
    var (s1, n1) := StoreObservations(s, d, req.observations);
    var (s2, n2) := StoreEvents(s1, d, req.events);
    var (s3, n3) := StoreSnapshots(s2, d, req.snapshots);
    var (s4, n4) := StoreLimits(s3, d, req.limits);
    IngestResult(s4, n1 + n2 + n3 + n4, CountDiverged(s2, Reported(req.events)))
  }

  // ------------------------------------------------------------------- store

  /** Naming an account again, with no hint and no plan, changes nothing. */
  lemma EnsureAgain(s: Ledger, key: AccountKey, planAt: Time, person: string)
    requires key in s.accounts && (s.accounts[key].id, person) in s.memberships
    ensures EnsureAccount(s, key, "", "", planAt, person) == s
  {
    var a := s.accounts[key];
    assert UpdateAccount(a, "", "", None) == a;
    assert s.accounts[key := a] == s.accounts;
    assert s.memberships + {(a.id, person)} == s.memberships;
  }

  /** What the ensure closure of one transaction remembers: ids that are right, of accounts already joined. */
  ghost predicate Remembers(s: Ledger, cache: map<AccountKey, AccountId>, person: string) {
    forall k :: k in cache ==> k in s.accounts && s.accounts[k].id == cache[k] && (cache[k], person) in s.memberships
  }

  class Store {
    var accounts: map<AccountKey, Account>
    var nextAccount: AccountId
    var memberships: set<(AccountId, string)>
    var observations: set<ObservationKey>
    var events: map<string, Row>
    var snapshots: map<SnapshotKey, SnapshotRow>
    var limits: map<string, LimitRow>

    /** The tables as one value. */
    ghost function Tables(): Ledger
      reads this
    {
      Ledger(accounts, nextAccount, memberships, observations, events, snapshots, limits)
    }

    constructor ()
      ensures Tables() == Ledger(map[], 0, {}, {}, map[], map[], map[])
    {
      accounts, nextAccount, memberships, observations := map[], 0, {}, {};
      events, snapshots, limits := map[], map[], map[];
    }

    method Ensure(cache: map<AccountKey, AccountId>, key: AccountKey, hint: string, plan: string, planAt: Time,
                  person: string)
      returns (id: AccountId, cache': map<AccountKey, AccountId>)
      requires Remembers(Tables(), cache, person)
      modifies this
      ensures Tables() == EnsureAccount(old(Tables()), key, hint, plan, planAt, person)
      ensures key in accounts && id == accounts[key].id
      ensures Remembers(Tables(), cache', person)
    {
      if key in cache && hint == "" && plan == "" {
        EnsureAgain(Tables(), key, planAt, person);
        return cache[key], cache;
      }
      var at := if plan == "" then None else Some(planAt);
      if key in accounts {
        accounts := accounts[key := UpdateAccount(accounts[key], hint, plan, at)];
      } else {
        accounts := accounts[key := Account(nextAccount, hint, hint, plan, at)];
        nextAccount := nextAccount + 1;
      }
      id := accounts[key].id;
      memberships := memberships + {(id, person)};
      cache' := cache[key := id];
    }

    /** Ingest's transaction over one batch. */
    method Ingest(d: Device, req: SyncRequest) returns (accepted: nat, diverged: nat)
      modifies this
      ensures IngestBatch(old(Tables()), d, req) == IngestResult(Tables(), accepted, diverged)
    {
      var n1, cache := IngestObservations(d, req.observations, map[]);
      var n2, reported: seq<SyncEvent>;
      n2, cache, reported := IngestEvents(d, req.events, cache);
      diverged := CountDiverged(Ledger(accounts, nextAccount, memberships, observations, events, snapshots, limits),
          reported);
      var n3, n4;
      n3, cache := IngestSnapshots(d, req.snapshots, cache);
      n4, cache := IngestLimits(d, req.limits, cache);
      accepted := n1 + n2 + n3 + n4;
    }

    /** Ingest's loop over observed. */
    method IngestObservations(d: Device, observed: seq<Observation>, cache: map<AccountKey, AccountId>)
      returns (accepted: nat, cache': map<AccountKey, AccountId>)
      requires Remembers(Tables(), cache, d.person)
      modifies this
      ensures StoreObservations(old(Tables()), d, observed) == (Tables(), accepted)
      ensures Remembers(Tables(), cache', d.person)
    {
      hide Like, Newest, Older, Deliver, Accepts, CorrectedSnapshot;
      accepted, cache' := 0, cache;
      var id: AccountId;
      for i := 0 to |observed|
        invariant Remembers(Tables(), cache', d.person)
        invariant StoreObservations(old(Tables()), d, observed[..i]) == (Tables(), accepted)
      {
        assert observed[..i + 1][..i] == observed[..i];
        var o := observed[i];
        if o.accountRef == "" {
          continue;
        }
        var plan := if o.provider == "anthropic" then "" else o.planType;
        id, cache' := Ensure(cache', AccountKey(o.provider, o.accountRef), o.hint, plan, o.observedAt, d.person);
        var row := ObservationKey(d.id, id, o.source, o.observedAt);
        if row !in observations {
          accepted := accepted + 1;
        }
        observations := observations + {row};
      }
      assert observed[..|observed|] == observed;
    }

    /** Ingest's loop over sent. */
    method IngestEvents(d: Device, sent: seq<SyncEvent>, cache: map<AccountKey, AccountId>)
      returns (accepted: nat, cache': map<AccountKey, AccountId>, reported: seq<SyncEvent>)
      requires Remembers(Tables(), cache, d.person)
      modifies this
      ensures StoreEvents(old(Tables()), d, sent) == (Tables(), accepted)
      ensures Remembers(Tables(), cache', d.person)
      ensures reported == Reported(sent)
    {
      hide StoreEvent, Skips;
      accepted, cache' := 0, cache;
      reported := [];
      for i := 0 to |sent|
        invariant Remembers(Tables(), cache', d.person)
        invariant StoreEvents(old(Tables()), d, sent[..i]) == (Tables(), accepted)
        invariant reported == Reported(sent[..i])
      {
        assert sent[..i + 1][..i] == sent[..i];
        var n;
        n, cache' := IngestEvent(d, sent[i], cache');
        if !Skips(sent[i]) {
          reported := reported + [sent[i]];
        }
        accepted := accepted + n;
      }
      assert sent[..|sent|] == sent;
    }

    /** One event of Ingest's loop. */
    method IngestEvent(d: Device, e: SyncEvent, cache: map<AccountKey, AccountId>)
      returns (affected: nat, cache': map<AccountKey, AccountId>)
      requires Remembers(Tables(), cache, d.person)
      modifies this
      ensures StoreEvent(old(Tables()), d, e) == (Tables(), affected)
      ensures Remembers(Tables(), cache', d.person)
    {
      hide Like, Newest, Older, Deliver, Accepts, CorrectedSnapshot;
      affected, cache' := 0, cache;
      if e.event.accountRef == "" || e.event.dedupeKey == "" {
        return;
      }
      var id;
      id, cache' := Ensure(cache', AccountKey(e.event.provider, e.event.accountRef), "", "", 0, d.person);
      affected := SaveEvent(d, id, e);
    }

    /** One reading of Ingest's loop. */
    method IngestSnapshot(d: Device, c: SyncSnapshot, cache: map<AccountKey, AccountId>)
      returns (affected: nat, cache': map<AccountKey, AccountId>)
      requires Remembers(Tables(), cache, d.person)
      modifies this
      ensures StoreSnapshot(old(Tables()), d, c) == (Tables(), affected)
      ensures Remembers(Tables(), cache', d.person)
    {
      hide Like, Newest, Older, Deliver, Accepts, CorrectedSnapshot;
      affected, cache' := 0, cache;
      if c.snapshot.accountRef == "" || c.snapshot.buckets == [] {
        return;
      }
      var id;
      id, cache' := Ensure(cache', AccountKey(c.snapshot.provider, c.snapshot.accountRef), c.snapshot.hint,
                           c.snapshot.planType, c.snapshot.observedAt, d.person);
      affected := SaveSnapshot(d, id, c);
    }

    /** Ingest's loop over readings. */
    method IngestSnapshots(d: Device, readings: seq<SyncSnapshot>, cache: map<AccountKey, AccountId>)
      returns (accepted: nat, cache': map<AccountKey, AccountId>)
      requires Remembers(Tables(), cache, d.person)
      modifies this
      ensures StoreSnapshots(old(Tables()), d, readings) == (Tables(), accepted)
      ensures Remembers(Tables(), cache', d.person)
    {
      hide StoreSnapshot;
      accepted, cache' := 0, cache;
      for i := 0 to |readings|
        invariant Remembers(Tables(), cache', d.person)
        invariant StoreSnapshots(old(Tables()), d, readings[..i]) == (Tables(), accepted)
      {
        assert readings[..i + 1][..i] == readings[..i];
        var n;
        n, cache' := IngestSnapshot(d, readings[i], cache');
        accepted := accepted + n;
      }
      assert readings[..|readings|] == readings;
    }

    /** Ingest's loop over hits. */
    method IngestLimits(d: Device, hits: seq<LimitEvent>, cache: map<AccountKey, AccountId>)
      returns (accepted: nat, cache': map<AccountKey, AccountId>)
      requires Remembers(Tables(), cache, d.person)
      modifies this
      ensures StoreLimits(old(Tables()), d, hits) == (Tables(), accepted)
      ensures Remembers(Tables(), cache', d.person)
    {
      hide Like, Newest, Older, Deliver, Accepts, CorrectedSnapshot;
      accepted, cache' := 0, cache;
      var id: AccountId;
      for i := 0 to |hits|
        invariant Remembers(Tables(), cache', d.person)
        invariant StoreLimits(old(Tables()), d, hits[..i]) == (Tables(), accepted)
      {
        assert hits[..i + 1][..i] == hits[..i];
        var l := hits[i];
        if l.accountRef == "" || l.dedupeKey == "" {
          continue;
        }
        id, cache' := Ensure(cache', AccountKey(l.provider, l.accountRef), "", "", 0, d.person);
        if l.dedupeKey !in limits {
          limits := limits[l.dedupeKey := LimitRow(id, d, l)];
          accepted := accepted + 1;
        }
      }
      assert hits[..|hits|] == hits;
    }

    /** The three statements Ingest runs for an event whose account it has ensured. */
    method SaveEvent(d: Device, id: AccountId, e: SyncEvent) returns (affected: nat)
      modifies `events
      ensures PutEvent(old(Tables()), d, id, e) == (Tables(), affected)
    {
      hide Move, Reclassify, Accepts;
      ghost var before, previous := events, PreviousId(Tables(), e.event.provider, e.previousRef);
      affected := UpsertEvent(d, id, e);
      UpsertNew(d, id, previous, e.event);
      MoveEvent(d, id, e.event);
      ReclassifyEvent(d, e.event);
      assert events == before[e.event.dedupeKey := events[e.event.dedupeKey]];
    }

    /** INSERT ... ON CONFLICT (dedupe_key) DO UPDATE ... WHERE. */
    method UpsertEvent(d: Device, id: AccountId, e: SyncEvent) returns (affected: nat)
      modifies `events
      ensures var u, previous := e.event, PreviousId(old(Tables()), e.event.provider, e.previousRef);
              var found := u.dedupeKey in old(events);
              && events == old(events)[u.dedupeKey := if found
                  then Upsert(old(events)[u.dedupeKey], d.person, id, previous, u) else NewRow(d, id, u)]
              && affected == if found && !Accepts(old(events)[u.dedupeKey], d.person, id, previous, u) then 0 else 1
    {
      var key, u := e.event.dedupeKey, e.event;
      var previousKey := AccountKey(u.provider, e.previousRef);
      var previous := if e.previousRef != "" && previousKey in accounts then Some(accounts[previousKey].id) else None;
      affected := 1;
      if key !in events {
        events := events[key := NewRow(d, id, u)];
      } else if Accepts(events[key], d.person, id, previous, u) {
        events := events[key := Upsert(events[key], d.person, id, previous, u)];
      } else {
        affected := 0;
        assert events == events[key := events[key]];
      }
    }

    /** The move of a third-party request by the device that recorded it. */
    method MoveEvent(d: Device, id: AccountId, e: UsageEvent)
      requires e.dedupeKey in events
      modifies `events
      ensures events == old(events)[e.dedupeKey := Move(old(events)[e.dedupeKey], d.id, id, e)]
    {
      var r := events[e.dedupeKey];
      if e.gateway != "" {
        if r.device == d.id && r.thirdParty && r.accountId != id {
          events := events[e.dedupeKey :=
              r.(accountId := id, model := e.model, gateway := e.gateway, thirdParty := e.thirdParty)];
          return;
        }
      }
      assert events == events[e.dedupeKey := r];
    }

    /** The reclassification of a request as third-party. */
    method ReclassifyEvent(d: Device, e: UsageEvent)
      requires e.dedupeKey in events
      modifies `events
      ensures events == old(events)[e.dedupeKey := Reclassify(old(events)[e.dedupeKey], d.person, e)]
    {
      var r := events[e.dedupeKey];
      if e.thirdParty || e.gateway != "" {
        if r.person == d.person
            && (r.thirdParty != (r.thirdParty || e.thirdParty) || (r.gateway == "" && e.gateway != "")) {
          events := events[e.dedupeKey := r.(thirdParty := r.thirdParty || e.thirdParty,
                                             gateway := if r.gateway == "" then e.gateway else r.gateway)];
          return;
        }
      }
      assert events == events[e.dedupeKey := r];
    }

    /** The delete and the insert Ingest runs for a reading whose account it has ensured. */
    method SaveSnapshot(d: Device, id: AccountId, c: SyncSnapshot) returns (affected: nat)
      modifies `snapshots
      ensures PutSnapshot(old(Tables()), d, id, c) == (Tables(), affected)
    {
      affected := 0;
      var snap := c.snapshot;
      if c.previousRef != "" && c.previousRef != snap.accountRef {
        var previousKey := AccountKey(snap.provider, c.previousRef);
        if previousKey in accounts {
          var gone := SnapshotKey(accounts[previousKey].id, d.id, snap.source, snap.observedAt);
          if gone in snapshots && snapshots[gone].buckets == snap.buckets {
            snapshots := snapshots - {gone};
            affected := 1;
          }
        }
      }
      var key := SnapshotKey(id, d.id, snap.source, snap.observedAt);
      if key !in snapshots {
        snapshots := snapshots[key := SnapshotRow(snap.buckets, snap.planType)];
        affected := affected + 1;
      } else if snapshots[key].planType == "" && snap.planType != "" {
        snapshots := snapshots[key := snapshots[key].(planType := snap.planType)];
        affected := affected + 1;
      }
    }
  }

  /** A request's first delivery stores it as it was read. */
  lemma UpsertNew(d: Device, id: AccountId, previous: Option<AccountId>, e: UsageEvent)
    ensures Upsert(NewRow(d, id, e), d.person, id, previous, e) == NewRow(d, id, e)
  {
  }
}
