/** What each record of a batch does to the server's tables, told by what is
    in them before and after. */
module IngestEffects {
  import opened Records
  import opened ServerLedger
  import History = LedgerHistory

  // ---------------------------------------------------------------- accounts

  /** Only the named account changes, and only the person joins: a new account
      is what it was named as; a known one keeps its id, takes a hint that is
      given, keeps its title once it has one, and its plan when none is named. */
  lemma EnsuredAccount(s: Ledger, key: AccountKey, hint: string, plan: string, planAt: Time, person: string)
    ensures var s' := EnsureAccount(s, key, hint, plan, planAt, person);
            && key in s'.accounts && s'.memberships == s.memberships + {(s'.accounts[key].id, person)}
            && s'.accounts.Keys == s.accounts.Keys + {key}
            && (forall k :: k in s.accounts && k != key ==> s'.accounts[k] == s.accounts[k])
            && (key !in s.accounts ==>
                  && s'.accounts[key].id == s.nextAccount && s'.nextAccount == s.nextAccount + 1
                  && s'.accounts[key].hint == hint && s'.accounts[key].title == hint
                  && s'.accounts[key].planType == plan
                  && (s'.accounts[key].planObservedAt == if plan == "" then None else Some(planAt)))
            && (key in s.accounts ==>
                  && s'.nextAccount == s.nextAccount && s'.accounts[key].id == s.accounts[key].id
                  && s'.accounts[key].hint == (if hint == "" then s.accounts[key].hint else hint)
                  && s'.accounts[key].title == (if s.accounts[key].title != "" then s.accounts[key].title else hint)
                  && (plan == "" ==>
                        && s'.accounts[key].planType == s.accounts[key].planType
                        && s'.accounts[key].planObservedAt == s.accounts[key].planObservedAt))
            && s'.events == s.events && s'.snapshots == s.snapshots && s'.limits == s.limits
            && s'.observations == s.observations
  {
    hide Like;
  }

  /** A plan counts when no newer reading named one, unless it only names the
      family of the plan on record; the time on record is the newest. */
  lemma EnsuredPlan(s: Ledger, key: AccountKey, hint: string, plan: string, planAt: Time, person: string)
    requires key in s.accounts && plan != ""
    ensures var s', was := EnsureAccount(s, key, hint, plan, planAt, person), s.accounts[key];
            var replayed := was.planObservedAt.Some? && planAt < was.planObservedAt.value;
            && key in s'.accounts
            && s'.accounts[key].planObservedAt == Some(if replayed then was.planObservedAt.value else planAt)
            && (replayed ==> s'.accounts[key].planType == was.planType)
            && s'.accounts[key].planType in {was.planType, plan}
            && (History.PlainText(plan) && !replayed ==>
                  s'.accounts[key].planType
                  == if History.StartsLike(was.planType, plan + " ") then was.planType else plan)
  {
    History.PlanFollowsNewestReading(s.accounts[key], hint, plan, planAt);
    hide UpdateAccount;
  }

  // ------------------------------------------------------------ observations

  /** A sign-in joins the person to its account and is kept once; what it says
      of a plan counts for every provider but Anthropic. */
  lemma ObservationStored(s: Ledger, d: Device, o: Observation)
    ensures var (s', n) := StoreObservation(s, d, o);
            var key := AccountKey(o.provider, o.accountRef);
            if o.accountRef == "" then s' == s && n == 0
            else
              && key in s'.accounts
              && s'.accounts == EnsureAccount(s, key, o.hint, if o.provider == "anthropic" then "" else o.planType,
                                              o.observedAt, d.person).accounts
              && var row := ObservationKey(d.id, s'.accounts[key].id, o.source, o.observedAt);
                 && s'.observations == s.observations + {row} && (n == if row in s.observations then 0 else 1)
                 && (s'.accounts[key].id, d.person) in s'.memberships
                 && s'.events == s.events && s'.snapshots == s.snapshots && s'.limits == s.limits
  {
    History.EnsureKeeps(s, AccountKey(o.provider, o.accountRef), o.hint, ObservedPlan(o), o.observedAt, d.person);
    hide EnsureAccount;
  }

  // ------------------------------------------------------------------ events

  /** The account the device reported the request on, and none when it names
      no account or no request, which passes it over. */
  function ReportedOn(e: SyncEvent): Option<AccountKey> {
    if e.event.accountRef == "" || e.event.dedupeKey == "" then None
    else Some(AccountKey(e.event.provider, e.event.accountRef))
  }

  /** The row is the request as it was read, for the person and device that sent it. */
  ghost predicate AsRead(r: Row, d: Device, o: UsageEvent) {
    && r.person == d.person && r.device == d.id
    && r.product == o.product && r.originator == o.originator && r.session == o.session
    && r.model == o.model && r.occurredAt == o.occurredAt && r.tokens == o.tokens
    && r.thirdParty == o.thirdParty && r.gateway == o.gateway && r.requestId == o.requestId
    && r.parentRequestId == o.parentRequestId && r.effort == o.effort && r.status == o.status
    && r.aggregated == o.aggregated
  }

  /** The first delivery of a request stores it as it was read, on the account
      the device reported it on. */
  lemma StoredAsRead(s: Ledger, d: Device, e: SyncEvent)
    requires ReportedOn(e).Some? && e.event.dedupeKey !in s.events
    ensures var (s', n) := StoreEvent(s, d, e);
            var key, account := e.event.dedupeKey, ReportedOn(e).value;
            && n == 1 && s'.events.Keys == s.events.Keys + {key} && account in s'.accounts
            && s'.events[key].accountId == s'.accounts[account].id && AsRead(s'.events[key], d, e.event)
  {
    History.EnsureKeeps(s, EventAccount(e), "", "", 0, d.person);
    hide EnsureAccount;
    NewRowAsRead(d, StoreEvent(s, d, e).0.accounts[EventAccount(e)].id,
        PreviousId(StoreEvent(s, d, e).0, e.event.provider, e.previousRef), e.event);
    hide Deliver, NewRow, AsRead;
  }

  lemma NewRowAsRead(d: Device, id: AccountId, previous: Option<AccountId>, e: UsageEvent)
    ensures var r := Deliver(NewRow(d, id, e), d, id, previous, e);
            r.accountId == id && AsRead(r, d, e)
  {
  }

  lemma EventPassedOver(s: Ledger, d: Device, e: SyncEvent)
    requires ReportedOn(e).None?
    ensures StoreEvent(s, d, e) == (s, 0)
  {
  }

  /** A later offer for the request is taken exactly when it comes from the
      request's person and either has more output or new evidence on its
      account, or corrects that account from its own session and entrypoint. */
  ghost predicate Taken(r: Row, person: string, id: AccountId, previous: Option<AccountId>, e: UsageEvent) {
    && r.person == person
    && if r.accountId == id then
         || r.tokens.output < e.tokens.output
         || (r.requestId == "" && e.requestId != "")
         || (r.effort == "" && e.effort != "")
       else r.session == e.session && r.originator == e.originator && previous == Some(r.accountId)
  }

  /** What one more delivery teaches a stored request of its tokens: an offer
      that is taken raises output and reasoning output, no other does, and the
      input counts stay in any case. */
  lemma DeliveryTeaches(r: Row, d: Device, id: AccountId, previous: Option<AccountId>, e: UsageEvent)
    ensures var t, t', taken := r.tokens, Deliver(r, d, id, previous, e).tokens, Taken(r, d.person, id, previous, e);
            && t'.input == t.input && t'.cachedInput == t.cachedInput && t'.cacheWrite == t.cacheWrite
            && t'.output == (if taken && t.output < e.tokens.output then e.tokens.output else t.output)
            && t'.reasoning == (if taken && t.reasoning < e.tokens.reasoning then e.tokens.reasoning else t.reasoning)
  {
    var u := Upsert(r, d.person, id, previous, e);
    assert Accepts(r, d.person, id, previous, e) <==> Taken(r, d.person, id, previous, e);
    hide Accepts, Taken, Moves;
    assert Deliver(r, d, id, previous, e).tokens == u.tokens;
  }

  /** Of its evidence: only an offer that is taken fills what was empty. */
  lemma DeliveryFills(r: Row, d: Device, id: AccountId, previous: Option<AccountId>, e: UsageEvent)
    ensures var r', taken := Deliver(r, d, id, previous, e), Taken(r, d.person, id, previous, e);
            && r'.requestId == (if taken && r.requestId == "" then e.requestId else r.requestId)
            && r'.parentRequestId == (if taken && r.parentRequestId == "" then e.parentRequestId else r.parentRequestId)
            && r'.effort == (if taken && r.effort == "" then e.effort else r.effort)
            && r'.status == (if taken && r.status == "" then e.status else r.status)
            && (r'.aggregated <==> r.aggregated || (taken && e.aggregated))
  {
    var u := Upsert(r, d.person, id, previous, e);
    assert Accepts(r, d.person, id, previous, e) <==> Taken(r, d.person, id, previous, e);
    hide Accepts, Taken, Moves;
    assert Deliver(r, d, id, previous, e)
        == u.(accountId := Deliver(r, d, id, previous, e).accountId, model := Deliver(r, d, id, previous, e).model,
              thirdParty := Deliver(r, d, id, previous, e).thirdParty, gateway :=
                  Deliver(r, d, id, previous, e).gateway);
  }

  /** The offer names the gateway that served a third-party request, and comes
      from the device that recorded it on another account. */
  ghost predicate Served(r: Row, d: Device, id: AccountId, e: UsageEvent) {
    r.thirdParty && r.device == d.id && r.accountId != id && e.gateway != ""
  }

  /** Of its place: a correction that is taken and the recording device's
      gateway move put it on the reported account; that move also takes over
      model, gateway and third-party mark; and the person's own offers mark it
      third-party and name its gateway, neither of which they undo. */
  lemma DeliveryPlaces(r: Row, d: Device, id: AccountId, previous: Option<AccountId>, e: UsageEvent)
    ensures var r', own := Deliver(r, d, id, previous, e), r.person == d.person;
            var corrected := Taken(r, d.person, id, previous, e) && r.accountId != id;
            var moved := Served(r, d, id, e) && !corrected;
            && r'.accountId == (if corrected || moved then id else r.accountId)
            && r'.model == (if moved then e.model else r.model)
            && (r'.thirdParty <==> (if moved then e.thirdParty else r.thirdParty) || (own && e.thirdParty))
            && r'.gateway == (if moved || (own && r.gateway == "") then e.gateway else r.gateway)
            && r'.person == r.person && r'.device == r.device && r'.product == r.product
            && r'.originator == r.originator && r'.session == r.session && r'.occurredAt == r.occurredAt
  {
    var u := Upsert(r, d.person, id, previous, e);
    assert Accepts(r, d.person, id, previous, e) <==> Taken(r, d.person, id, previous, e);
    assert u == r.(accountId := u.accountId, tokens := u.tokens, requestId := u.requestId,
                   parentRequestId := u.parentRequestId, effort := u.effort, status := u.status,
                   aggregated := u.aggregated);
    assert u.accountId == if Taken(r, d.person, id, previous, e) then id else r.accountId;
    hide Upsert, Accepts, Taken;
    PlacedFrom(u, d, id, e);
    hide Move, Reclassify;
  }

  lemma PlacedFrom(u: Row, d: Device, id: AccountId, e: UsageEvent)
    ensures var r', own, moved := Reclassify(Move(u, d.id, id, e), d.person, e), u.person
        == d.person, Served(u, d, id, e);
            && r'.accountId == (if moved then id else u.accountId) && r'.model == (if moved then e.model else u.model)
            && (r'.thirdParty <==> (if moved then e.thirdParty else u.thirdParty) || (own && e.thirdParty))
            && r'.gateway == (if moved || (own && u.gateway == "") then e.gateway else u.gateway)
            && r' == u.(accountId := r'.accountId, model := r'.model, thirdParty := r'.thirdParty, gateway :=
                r'.gateway)
  {
  }

  /** An offer that is taken counts as accepted, and no other. */
  lemma OfferCounted(s: Ledger, d: Device, e: SyncEvent)
    requires ReportedOn(e).Some? && e.event.dedupeKey in s.events
    ensures var (s', n) := StoreEvent(s, d, e);
            var key, account := e.event.dedupeKey, ReportedOn(e).value;
            && account in s'.accounts && s'.events.Keys == s.events.Keys
            && (forall k :: k in s.events && k != key ==> s'.events[k] == s.events[k])
            && var id, previous := s'.accounts[account].id, PreviousId(s', e.event.provider, e.previousRef);
               && s'.events[key] == Deliver(s.events[key], d, id, previous, e.event)
               && n == if Taken(s.events[key], d.person, id, previous, e.event) then 1 else 0
  {
    History.EnsureKeeps(s, EventAccount(e), "", "", 0, d.person);
    hide EnsureAccount, Deliver;
  }

  /** The account a correction names, if the ledger has it. */
  lemma PreviousMeans(s: Ledger, provider: string, ref: string, id: AccountId)
    ensures PreviousId(s, provider, ref) == Some(id) <==>
        ref != "" && exists a: AccountKey ::
          a in s.accounts && a.provider == provider && a.ref == ref && s.accounts[a].id == id
  {
  }

  // --------------------------------------------------------------- snapshots

  /** The reading a correction takes back: this device's, of the same source
      and time, on the account the correction names, with the same buckets. */
  ghost predicate TakesBack(s: Ledger, d: Device, c: SyncSnapshot, k: SnapshotKey) {
    && c.previousRef != "" && c.previousRef != c.snapshot.accountRef
    && History.Is(s, AccountKey(c.snapshot.provider, c.previousRef), k.accountId)
    && k.device == d.id && k.source == c.snapshot.source && k.observedAt == c.snapshot.observedAt
    && k in s.snapshots && s.snapshots[k].buckets == c.snapshot.buckets
  }

  /** What a reading does to the snapshots: it removes exactly what it takes
      back, leaves every other key as it was, and holds its own key: as it was
      sent when that was absent, and else as it was, with an empty plan filled. */
  lemma SnapshotStored(s: Ledger, d: Device, c: SyncSnapshot)
    requires ValidAccounts(s) && c.snapshot.accountRef != "" && c.snapshot.buckets != []
    ensures var (s', n) := StoreSnapshot(s, d, c);
            var account := AccountKey(c.snapshot.provider, c.snapshot.accountRef);
            && account in s'.accounts && (s'.accounts[account].id, d.person) in s'.memberships
            && var own := SnapshotKey(s'.accounts[account].id, d.id, c.snapshot.source, c.snapshot.observedAt);
               && !TakesBack(s, d, c, own) && OthersStay(s, s', d, c, own) && OwnHeld(s, s', c.snapshot, own)
               && n == (if exists k :: TakesBack(s, d, c, k) then 1 else 0)
                       + (if own !in s.snapshots || (s.snapshots[own].planType == "" && c.snapshot.planType != "")
                          then 1 else 0)
  {
    var snap := c.snapshot;
    var s1 := EnsureAccount(s, SnapshotAccount(c), snap.hint, snap.planType, snap.observedAt, d.person);
    History.EnsureKeeps(s, SnapshotAccount(c), snap.hint, snap.planType, snap.observedAt, d.person);
    EnsuredAccount(s, SnapshotAccount(c), snap.hint, snap.planType, snap.observedAt, d.person);
    hide EnsureAccount, CorrectedSnapshot, TakesBack, OwnHeld, OthersStay, ValidAccounts, KeepsAccounts;
    TakenBackIs(s, s1, d, c);
    var own := SnapshotKey(s1.accounts[SnapshotAccount(c)].id, d.id, snap.source, snap.observedAt);
    PutHolds(s, s1, d, s1.accounts[SnapshotAccount(c)].id, c);
  }

  /** Apart from its own key, a reading changes only what it takes back. */
  ghost predicate OthersStay(s: Ledger, s': Ledger, d: Device, c: SyncSnapshot, own: SnapshotKey) {
    forall k :: k != own ==>
      && (k in s'.snapshots <==> k in s.snapshots && !TakesBack(s, d, c, k))
      && (k in s'.snapshots ==> s'.snapshots[k] == s.snapshots[k])
  }

  /** The first reading under its key stays, but for an empty plan that is filled. */
  ghost predicate OwnHeld(s: Ledger, s': Ledger, snap: Snapshot, own: SnapshotKey) {
    && own in s'.snapshots
    && if own !in s.snapshots then s'.snapshots[own] == SnapshotRow(snap.buckets, snap.planType)
       else
         && s'.snapshots[own].buckets == s.snapshots[own].buckets
         && s'.snapshots[own].planType == if s.snapshots[own].planType == "" then snap.planType
                                          else s.snapshots[own].planType
  }

  lemma PutHolds(s: Ledger, s1: Ledger, d: Device, id: AccountId, c: SyncSnapshot)
    requires s1.snapshots == s.snapshots
    requires var gone := CorrectedSnapshot(s1, d, c);
             && (forall k :: TakesBack(s, d, c, k) <==> gone == Some(k))
             && (gone.Some? ==> gone.value in s1.snapshots && gone.value.accountId != id)
    ensures var (s', n) := PutSnapshot(s1, d, id, c);
            var own := SnapshotKey(id, d.id, c.snapshot.source, c.snapshot.observedAt);
            && !TakesBack(s, d, c, own) && OthersStay(s, s', d, c, own) && OwnHeld(s, s', c.snapshot, own)
            && s' == s1.(snapshots := s'.snapshots)
            && n == (if exists k :: TakesBack(s, d, c, k) then 1 else 0)
                    + (if own !in s.snapshots || (s.snapshots[own].planType == "" && c.snapshot.planType != "")
                       then 1 else 0)
  {
    hide CorrectedSnapshot, TakesBack;
  }

  /** At most one reading is taken back: the one the DELETE finds. */
  lemma TakenBackIs(s: Ledger, s1: Ledger, d: Device, c: SyncSnapshot)
    requires ValidAccounts(s) && ValidAccounts(s1) && KeepsAccounts(s, s1) && s1.snapshots == s.snapshots
    requires s1.accounts.Keys == s.accounts.Keys + {SnapshotAccount(c)}
    ensures var gone := CorrectedSnapshot(s1, d, c);
            && (forall k :: TakesBack(s, d, c, k) <==> gone == Some(k))
            && (gone.Some? ==> gone.value in s1.snapshots
                               && gone.value.accountId != s1.accounts[SnapshotAccount(c)].id)
  {
    var previous := AccountKey(c.snapshot.provider, c.previousRef);
    assert c.previousRef != c.snapshot.accountRef ==> previous != SnapshotAccount(c);
  }

  /** Without an account or a bucket a reading is passed over. */
  lemma SnapshotPassedOver(s: Ledger, d: Device, c: SyncSnapshot)
    requires c.snapshot.accountRef == "" || c.snapshot.buckets == []
    ensures StoreSnapshot(s, d, c) == (s, 0)
  {
  }

  // ------------------------------------------------------------ limit events

  /** The first report of a limit hit stays as it was sent; later ones change nothing. */
  lemma LimitStored(s: Ledger, d: Device, l: LimitEvent)
    ensures var (s', n) := StoreLimit(s, d, l);
            var key := AccountKey(l.provider, l.accountRef);
            if l.accountRef == "" || l.dedupeKey == "" then s' == s && n == 0
            else
              && key in s'.accounts && (s'.accounts[key].id, d.person) in s'.memberships
              && (l.dedupeKey in s.limits ==> s'.limits == s.limits && n == 0)
              && (l.dedupeKey !in s.limits ==>
                    && n == 1 && s'.limits.Keys == s.limits.Keys + {l.dedupeKey}
                    && s'.limits[l.dedupeKey].accountId == s'.accounts[key].id
                    && s'.limits[l.dedupeKey].device == d && s'.limits[l.dedupeKey].limit == l
                    && forall k :: k in s.limits ==> s'.limits[k] == s.limits[k])
              && s'.events == s.events && s'.snapshots == s.snapshots && s'.observations == s.observations
  {
    History.EnsureKeeps(s, AccountKey(l.provider, l.accountRef), "", "", 0, d.person);
    EnsuredAccount(s, AccountKey(l.provider, l.accountRef), "", "", 0, d.person);
    hide EnsureAccount;
  }

  // ------------------------------------------------------------ whole batches

  /** No account, member, sign-in, request or limit hit is lost; accounts keep
      their ids, and limit hits what they say. */
  ghost predicate Extends(s: Ledger, s': Ledger) {
    && KeepsAccounts(s, s') && s.memberships <= s'.memberships && s.observations <= s'.observations
    && s.events.Keys <= s'.events.Keys
    && forall k :: k in s.limits ==> k in s'.limits && s'.limits[k] == s.limits[k]
  }

  /** The account has the member, and the sign-in. */
  ghost predicate SignInHeld(s: Ledger, d: Device, o: Observation) {
    o.accountRef != "" ==>
      var account := AccountKey(o.provider, o.accountRef);
      && account in s.accounts && (s.accounts[account].id, d.person) in s.memberships
      && ObservationKey(d.id, s.accounts[account].id, o.source, o.observedAt) in s.observations
  }

  ghost predicate RequestHeld(s: Ledger, d: Device, e: SyncEvent) {
    ReportedOn(e).Some? ==>
      var account := ReportedOn(e).value;
      && account in s.accounts && (s.accounts[account].id, d.person) in s.memberships
      && e.event.dedupeKey in s.events
  }

  ghost predicate LimitHeld(s: Ledger, d: Device, l: LimitEvent) {
    l.accountRef != "" && l.dedupeKey != "" ==>
      var account := AccountKey(l.provider, l.accountRef);
      && account in s.accounts && (s.accounts[account].id, d.person) in s.memberships && l.dedupeKey in s.limits
  }

  lemma HeldOn(s: Ledger, s': Ledger, d: Device)
    requires Extends(s, s')
    ensures forall o :: SignInHeld(s, d, o) ==> SignInHeld(s', d, o)
    ensures forall e :: RequestHeld(s, d, e) ==> RequestHeld(s', d, e)
    ensures forall l :: LimitHeld(s, d, l) ==> LimitHeld(s', d, l)
  {
    hide ReportedOn;
  }

  lemma ExtendsOn(s: Ledger, s1: Ledger, s2: Ledger)
    requires Extends(s, s1) && Extends(s1, s2)
    ensures Extends(s, s2)
  {
  }

  lemma SignInExtends(s: Ledger, d: Device, o: Observation)
    ensures var s' := StoreObservation(s, d, o).0;
            Extends(s, s') && SignInHeld(s', d, o)
  {
    History.EnsureKeeps(s, AccountKey(o.provider, o.accountRef), o.hint, ObservedPlan(o), o.observedAt, d.person);
    hide EnsureAccount;
  }

  lemma RequestExtends(s: Ledger, d: Device, e: SyncEvent)
    ensures var s' := StoreEvent(s, d, e).0;
            Extends(s, s') && RequestHeld(s', d, e)
  {
    History.EnsureKeeps(s, EventAccount(e), "", "", 0, d.person);
    hide EnsureAccount, Deliver;
  }

  lemma SnapshotExtends(s: Ledger, d: Device, c: SyncSnapshot)
    ensures Extends(s, StoreSnapshot(s, d, c).0)
  {
    var snap := c.snapshot;
    History.EnsureKeeps(s, SnapshotAccount(c), snap.hint, snap.planType, snap.observedAt, d.person);
    hide EnsureAccount, CorrectedSnapshot;
  }

  lemma LimitExtends(s: Ledger, d: Device, l: LimitEvent)
    ensures var s' := StoreLimit(s, d, l).0;
            Extends(s, s') && LimitHeld(s', d, l)
  {
    History.EnsureKeeps(s, AccountKey(l.provider, l.accountRef), "", "", 0, d.person);
    hide EnsureAccount;
  }

  lemma {:induction false} SignInsExtend(s: Ledger, d: Device, os: seq<Observation>)
    ensures var s' := StoreObservations(s, d, os).0;
            Extends(s, s') && forall o :: o in os ==> SignInHeld(s', d, o)
  {
    hide StoreObservation, Extends, SignInHeld, RequestHeld, LimitHeld;
    if os == [] {
      ExtendsItself(s);
    } else {
      var n := |os| - 1;
      var s1 := StoreObservations(s, d, os[..n]).0;
      SignInsExtend(s, d, os[..n]);
      SignInExtends(s1, d, os[n]);
      HeldOn(s1, StoreObservation(s1, d, os[n]).0, d);
      ExtendsOn(s, s1, StoreObservation(s1, d, os[n]).0);
      assert os == os[..n] + [os[n]];
    }
  }

  lemma ExtendsItself(s: Ledger)
    ensures Extends(s, s)
  {
  }

  lemma {:induction false} RequestsExtend(s: Ledger, d: Device, es: seq<SyncEvent>)
    ensures var s' := StoreEvents(s, d, es).0;
            Extends(s, s') && forall e :: e in es ==> RequestHeld(s', d, e)
  {
    hide StoreEvent, Extends, SignInHeld, RequestHeld, LimitHeld;
    if es == [] {
      ExtendsItself(s);
    } else {
      var n := |es| - 1;
      var s1 := StoreEvents(s, d, es[..n]).0;
      RequestsExtend(s, d, es[..n]);
      RequestExtends(s1, d, es[n]);
      HeldOn(s1, StoreEvent(s1, d, es[n]).0, d);
      ExtendsOn(s, s1, StoreEvent(s1, d, es[n]).0);
      assert es == es[..n] + [es[n]];
    }
  }

  lemma {:induction false} SnapshotsExtend(s: Ledger, d: Device, cs: seq<SyncSnapshot>)
    ensures Extends(s, StoreSnapshots(s, d, cs).0)
  {
    hide StoreSnapshot, Extends;
    if cs == [] {
      ExtendsItself(s);
    } else {
      var n := |cs| - 1;
      var s1 := StoreSnapshots(s, d, cs[..n]).0;
      SnapshotsExtend(s, d, cs[..n]);
      SnapshotExtends(s1, d, cs[n]);
      ExtendsOn(s, s1, StoreSnapshot(s1, d, cs[n]).0);
    }
  }

  lemma {:induction false} LimitsExtend(s: Ledger, d: Device, ls: seq<LimitEvent>)
    ensures var s' := StoreLimits(s, d, ls).0;
            Extends(s, s') && forall l :: l in ls ==> LimitHeld(s', d, l)
  {
    hide StoreLimit, Extends, SignInHeld, RequestHeld, LimitHeld;
    if ls == [] {
      ExtendsItself(s);
    } else {
      var n := |ls| - 1;
      var s1 := StoreLimits(s, d, ls[..n]).0;
      LimitsExtend(s, d, ls[..n]);
      LimitExtends(s1, d, ls[n]);
      HeldOn(s1, StoreLimit(s1, d, ls[n]).0, d);
      ExtendsOn(s, s1, StoreLimit(s1, d, ls[n]).0);
      assert ls == ls[..n] + [ls[n]];
    }
  }

  /** A batch loses nothing, and afterwards the ledger has every sign-in,
      request and limit hit in it that names an account. */
  lemma BatchHeld(s: Ledger, d: Device, req: SyncRequest)
    ensures var s' := IngestBatch(s, d, req).ledger;
            && Extends(s, s')
            && (forall o :: o in req.observations ==> SignInHeld(s', d, o))
            && (forall e :: e in req.events ==> RequestHeld(s', d, e))
            && (forall l :: l in req.limits ==> LimitHeld(s', d, l))
  {
    hide Extends, SignInHeld, RequestHeld, LimitHeld;
    var s1 := StoreObservations(s, d, req.observations).0;
    var s2 := StoreEvents(s1, d, req.events).0;
    var s3 := StoreSnapshots(s2, d, req.snapshots).0;
    var s4 := StoreLimits(s3, d, req.limits).0;
    SignInsExtend(s, d, req.observations);
    RequestsExtend(s1, d, req.events);
    SnapshotsExtend(s2, d, req.snapshots);
    LimitsExtend(s3, d, req.limits);
    ExtendsOn(s2, s3, s4);
    ExtendsOn(s1, s2, s4);
    ExtendsOn(s, s1, s4);
    HeldOn(s1, s4, d);
    HeldOn(s2, s4, d);
  }

  /** The request is on the account the device reported. */
  ghost predicate AsReported(s: Ledger, e: SyncEvent) {
    ReportedOn(e).Some? ==>
      && e.event.dedupeKey in s.events && ReportedOn(e).value in s.accounts
      && s.events[e.event.dedupeKey].accountId == s.accounts[ReportedOn(e).value].id
  }

  lemma {:induction false} ReportedAre(es: seq<SyncEvent>, e: SyncEvent)
    ensures e in Reported(es) <==> e in es && ReportedOn(e).Some?
  {
    if es != [] {
      ReportedAre(es[..|es| - 1], e);
    }
  }

  /** No request diverged, by the batch's answer, exactly when each one in it is
      on the account its device reported. */
  lemma NoneDiverged(s: Ledger, d: Device, req: SyncRequest)
    requires ValidAccounts(s) && History.RowsOnAccounts(s)
    ensures var r := IngestBatch(s, d, req);
            r.diverged == 0 <==> forall e :: e in req.events ==> AsReported(r.ledger, e)
  {
    var s1 := StoreObservations(s, d, req.observations).0;
    var s2 := StoreEvents(s1, d, req.events).0;
    var s' := IngestBatch(s, d, req).ledger;
    History.IngestFrame(s, d, req);
    History.EventsKeepAccounts(s1, d, req.events);
    History.NamesKept(s, s1);
    History.EventsKeepRowsOnAccounts(s1, d, req.events);
    RequestsExtend(s1, d, req.events);
    hide StoreObservations, StoreEvents, StoreSnapshots, StoreLimits, Extends, History.RowsOnAccounts, ValidAccounts;
    NoneDivergedIn(s2, d, req.events);
    forall e | e in req.events ensures AsReported(s2, e) <==> AsReported(s', e) {
      assert RequestHeld(s2, d, e);
    }
  }

  lemma NoneDivergedIn(s: Ledger, d: Device, es: seq<SyncEvent>)
    requires ValidAccounts(s) && History.RowsOnAccounts(s) && forall e :: e in es ==> RequestHeld(s, d, e)
    ensures CountDiverged(s, Reported(es)) == 0 <==> forall e :: e in es ==> AsReported(s, e)
  {
    History.NoDivergence(s, Reported(es));
    hide CountDiverged, Reported, ValidAccounts, History.RowsOnAccounts;
    forall e ensures e in Reported(es) <==> e in es && ReportedOn(e).Some? {
      ReportedAre(es, e);
    }
    forall e | e in es && ReportedOn(e).Some? ensures e.event.dedupeKey in s.events {
      assert RequestHeld(s, d, e);
    }
  }

  /** The entries, by their place, that are not on the account reported. */
  ghost function Off(s: Ledger, es: seq<SyncEvent>): set<nat> {
    set i: nat | i < |es| && !AsReported(s, es[i])
  }

  lemma OffOneMore(s: Ledger, es: seq<SyncEvent>, e: SyncEvent)
    ensures Off(s, es + [e]) == Off(s, es) + (if AsReported(s, e) then {} else {|es|}) && |es| !in Off(s, es)
  {
    hide AsReported;
    var all := es + [e];
    forall i: nat ensures i in Off(s, all) <==> i in Off(s, es) || (i == |es| && !AsReported(s, e)) {
      assert i < |es| ==> all[i] == es[i];
    }
  }

  ghost predicate AllHeld(s: Ledger, es: seq<SyncEvent>) {
    forall e :: e in es ==> ReportedOn(e).Some? && e.event.dedupeKey in s.events
  }

  /** It counts the entries that are not: a request of several once for each of them. */
  lemma {:induction false} DivergedCount(s: Ledger, es: seq<SyncEvent>)
    requires ValidAccounts(s) && History.RowsOnAccounts(s) && AllHeld(s, es)
    ensures CountDiverged(s, es) == |Off(s, es)|
  {
    if es != [] {
      var n := |es| - 1;
      assert es == es[..n] + [es[n]];
      OneDiverged(s, es[n]);
      hide AsReported, ReportedOn, Diverges, ValidAccounts, History.RowsOnAccounts, Off;
      DivergedCount(s, es[..n]);
      OffOneMore(s, es[..n], es[n]);
    } else {
      assert Off(s, es) == {};
    }
  }

  lemma OneDiverged(s: Ledger, e: SyncEvent)
    requires ValidAccounts(s) && History.RowsOnAccounts(s) && ReportedOn(e).Some? && e.event.dedupeKey in s.events
    ensures Diverges(s, e) <==> !AsReported(s, e)
  {
    var id := s.events[e.event.dedupeKey].accountId;
    assert History.Names(s, id);
  }

  lemma SignInCounted(s: Ledger, d: Device, o: Observation)
    ensures var (s', n) := StoreObservation(s, d, o);
            |s'.observations| == |s.observations| + n
  {
    ObservationStored(s, d, o);
    hide StoreObservation, EnsureAccount;
  }

  lemma LimitCounted(s: Ledger, d: Device, l: LimitEvent)
    ensures var (s', n) := StoreLimit(s, d, l);
            |s'.limits| == |s.limits| + n
  {
    LimitStored(s, d, l);
    hide StoreLimit, EnsureAccount;
    assert |StoreLimit(s, d, l).0.limits.Keys| == |StoreLimit(s, d, l).0.limits|;
    assert |s.limits.Keys| == |s.limits|;
  }

  /** A batch of sign-ins counts each new one once, and so one of limit hits. */
  lemma {:induction false} SignInsCounted(s: Ledger, d: Device, os: seq<Observation>)
    ensures var (s', n) := StoreObservations(s, d, os);
            |s'.observations| == |s.observations| + n
  {
    hide StoreObservation;
    if os != [] {
      SignInsCounted(s, d, os[..|os| - 1]);
      SignInCounted(StoreObservations(s, d, os[..|os| - 1]).0, d, os[|os| - 1]);
    }
  }

  lemma {:induction false} LimitsCounted(s: Ledger, d: Device, ls: seq<LimitEvent>)
    ensures var (s', n) := StoreLimits(s, d, ls);
            |s'.limits| == |s.limits| + n
  {
    hide StoreLimit;
    if ls != [] {
      LimitsCounted(s, d, ls[..|ls| - 1]);
      LimitCounted(StoreLimits(s, d, ls[..|ls| - 1]).0, d, ls[|ls| - 1]);
    }
  }

  /** Requests are stored one after the other, as they were sent. */
  lemma {:induction false} RequestsInTurn(s: Ledger, d: Device, a: seq<SyncEvent>, b: seq<SyncEvent>)
    ensures var (s1, n) := StoreEvents(s, d, a);
            var (s2, m) := StoreEvents(s1, d, b);
            StoreEvents(s, d, a + b) == (s2, n + m)
  {
    hide StoreEvent;
    if b == [] {
      assert a + b == a;
    } else {
      var k := |b| - 1;
      assert (a + b)[..|a + b| - 1] == a + b[..k];
      RequestsInTurn(s, d, a, b[..k]);
    }
  }

  /** So are readings: a correction takes back what was sent before it. */
  lemma {:induction false} SnapshotsInTurn(s: Ledger, d: Device, a: seq<SyncSnapshot>, b: seq<SyncSnapshot>)
    ensures var (s1, n) := StoreSnapshots(s, d, a);
            var (s2, m) := StoreSnapshots(s1, d, b);
            StoreSnapshots(s, d, a + b) == (s2, n + m)
  {
    hide StoreSnapshot;
    if b == [] {
      assert a + b == a;
    } else {
      var k := |b| - 1;
      assert (a + b)[..|a + b| - 1] == a + b[..k];
      SnapshotsInTurn(s, d, a, b[..k]);
    }
  }

  /** And limit hits, of which the first stays. */
  lemma {:induction false} LimitsInTurn(s: Ledger, d: Device, a: seq<LimitEvent>, b: seq<LimitEvent>)
    ensures var (s1, n) := StoreLimits(s, d, a);
            var (s2, m) := StoreLimits(s1, d, b);
            StoreLimits(s, d, a + b) == (s2, n + m)
  {
    hide StoreLimit;
    if b == [] {
      assert a + b == a;
    } else {
      var k := |b| - 1;
      assert (a + b)[..|a + b| - 1] == a + b[..k];
      LimitsInTurn(s, d, a, b[..k]);
    }
  }
}
