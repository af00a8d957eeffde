/** What the server's ledger keeps over every run of Ingest, from any devices. */
module LedgerHistory {
  import opened Records
  import opened ServerLedger

  // ------------------------------------------------------- one row, one event

  /** What never changes about a request, and what only grows. */
  ghost predicate Evolves(r: Row, r': Row) {
    && r'.person == r.person && r'.device == r.device && r'.product == r.product
    && r'.originator == r.originator && r'.session == r.session && r'.occurredAt == r.occurredAt
    && r'.tokens == r.tokens.(output := r'.tokens.output, reasoning := r'.tokens.reasoning)
    && r.tokens.output <= r'.tokens.output && r.tokens.reasoning <= r'.tokens.reasoning
    && (r.requestId != "" ==> r'.requestId == r.requestId)
    && (r.parentRequestId != "" ==> r'.parentRequestId == r.parentRequestId)
    && (r.effort != "" ==> r'.effort == r.effort)
    && (r.status != "" ==> r'.status == r.status)
    && (r.aggregated ==> r'.aggregated)
    && (r.gateway != "" ==> r'.gateway != "")
  }

  lemma DeliverEvolves(r: Row, d: Device, id: AccountId, previous: Option<AccountId>, e: UsageEvent)
    ensures Evolves(r, Deliver(r, d, id, previous, e))
  {
    hide Corrects, Merges;
  }

  /** The account changes exactly on a correction by the same person, in the
      same session and from the same entrypoint, that names the current
      account, or on the recording device's move of a third-party request;
      and then it is the event's account. Only that move changes the model or
      makes a third-party request count. */
  lemma DeliverHistory(r: Row, d: Device, id: AccountId, previous: Option<AccountId>, e: UsageEvent)
    ensures var r' := Deliver(r, d, id, previous, e);
            var corrected := r.person == d.person && Corrects(r, id, previous, e);
            var moved := !corrected && Moves(r, d.id, id, e);
            && (r'.accountId != r.accountId <==> corrected || moved)
            && (r'.accountId != r.accountId ==> r'.accountId == id)
            && (r'.model != r.model <==> moved && e.model != r.model)
            && (r.thirdParty && !r'.thirdParty <==> moved && !e.thirdParty)
            && (r'.gateway != r.gateway ==> r'.gateway == e.gateway && (moved || r.gateway == ""))
  {
  }

  /** Where the recording device moves a third-party request, the request counts
      against the quota again if the event says so. */
  lemma CountsAgain()
    ensures exists r: Row, d: Device, id: AccountId, previous: Option<AccountId>, e: UsageEvent ::
              && r.thirdParty && !Deliver(r, d, id, previous, e).thirdParty && r.accountId != id
              && Deliver(r, d, id, previous, e).accountId == id
  {
    var d := Device("laptop", "ann");
    var e := UsageEvent("k", "ref", "openai", "", "", "", "gpt", 0, Tokens(1, 0, 0, 1, 0), false, "opencodex",
                        "", "", "", "", false);
    var r := Row(7, "ann", "laptop", "", "", "", "gpt", 0, Tokens(1, 0, 0, 1, 0), true, "", "", "", "", "", false);
    var r' := Deliver(r, d, 8, None, e);
    assert !r'.thirdParty && r'.accountId == 8;
  }

  /** A device of another person changes nothing of a request it did not record. */
  lemma StrangersChangeNothing(r: Row, d: Device, id: AccountId, previous: Option<AccountId>, e: UsageEvent)
    requires d.person != r.person && d.id != r.device
    ensures Deliver(r, d, id, previous, e) == r
  {
  }

  // ------------------------------------------------------------- redelivery

  /** The same delivery n times over. */
  function Redeliver(r: Row, d: Device, id: AccountId, previous: Option<AccountId>, e: UsageEvent, n: nat): Row {
    if n == 0 then r else Deliver(Redeliver(r, d, id, previous, e, n - 1), d, id, previous, e)
  }

  /** How many deliveries settle a row: one without a gateway; with one, the
      upsert can wait for the move, and the move for the reclassification. */
  function Settles(r: Row, d: Device, id: AccountId, previous: Option<AccountId>, e: UsageEvent): nat {
    if e.gateway == "" || r.device != d.id || r.accountId == id
        || (r.person == d.person && Corrects(r, id, previous, e)) then 1
    else if r.thirdParty then 2
    else if e.thirdParty && r.person == d.person then 3
    else 1
  }

  lemma OneDeliverySettles(r: Row, d: Device, id: AccountId, previous: Option<AccountId>, e: UsageEvent)
    requires Settles(r, d, id, previous, e) == 1
    ensures var r' := Deliver(r, d, id, previous, e);
            Deliver(r', d, id, previous, e) == r' && Settles(r', d, id, previous, e) == 1
  {
    var u := Upsert(r, d.person, id, previous, e);
    assert Move(u, d.id, id, e) == u;
    var r' := Reclassify(u, d.person, e);
    assert !Accepts(r', d.person, id, previous, e);
    assert Upsert(r', d.person, id, previous, e) == r';
  }

  /** Delivering one event again and again reaches a fixed point after
      Settles deliveries, one to three of them. */
  lemma {:induction false} RedeliverySettles(
      r: Row, d: Device, id: AccountId, previous: Option<AccountId>, e: UsageEvent, n: nat)
    requires Settles(r, d, id, previous, e) <= n
    ensures Redeliver(r, d, id, previous, e, n) == Redeliver(r, d, id, previous, e, Settles(r, d, id, previous, e))
    ensures Redeliver(r, d, id, previous, e, n + 1) == Redeliver(r, d, id, previous, e, n)
    ensures 1 <= Settles(r, d, id, previous, e) <= 3 && (e.gateway == "" ==> Settles(r, d, id, previous, e) == 1)
    decreases n
  {
    var k := Settles(r, d, id, previous, e);
    if k == 1 {
      OneDeliverySettles(r, d, id, previous, e);
    } else {
      var r1 := Deliver(r, d, id, previous, e);
      assert Settles(r1, d, id, previous, e) == k - 1;
      RedeliverLater(r, d, id, previous, e, n);
      RedeliverLater(r, d, id, previous, e, n - 1);
      RedeliverLater(r, d, id, previous, e, k - 1);
      RedeliverySettles(r1, d, id, previous, e, n - 1);
      assert Redeliver(r, d, id, previous, e, k) == Redeliver(r1, d, id, previous, e, k - 1);
    }
    if n > k {
      RedeliverySettles(r, d, id, previous, e, n - 1);
    }
  }

  lemma {:induction false} RedeliverLater(
      r: Row, d: Device, id: AccountId, previous: Option<AccountId>, e: UsageEvent, n: nat)
    ensures Redeliver(r, d, id, previous, e, n + 1) == Redeliver(Deliver(r, d, id, previous, e), d, id, previous, e, n)
  {
    hide Deliver;
    if n > 0 {
      RedeliverLater(r, d, id, previous, e, n - 1);
    }
  }

  /** Three can be needed: reclassified, then moved, then given its output. */
  lemma ThreeDeliveriesNeeded()
    ensures exists r, d, id, previous, e ::
              Redeliver(r, d, id, previous, e, 3) != Redeliver(r, d, id, previous, e, 2)
  {
    var d := Device("laptop", "ann");
    var e := UsageEvent("k", "ref", "openai", "", "", "", "gpt", 0, Tokens(1, 0, 0, 9, 0), true, "opencodex", "", "",
        "", "", false);
    var r := Row(7, "ann", "laptop", "", "", "", "claude", 0, Tokens(1, 0, 0, 1, 0), false, "", "", "", "", "", false);
    var r1 := Deliver(r, d, 8, None, e);
    var r2 := Deliver(r1, d, 8, None, e);
    var r3 := Deliver(r2, d, 8, None, e);
    assert r1.thirdParty && r1.accountId == 7;
    assert r2.accountId == 8 && r2.tokens.output == 1;
    assert r3.tokens.output == 9;
    assert Redeliver(r, d, 8, None, e, 1) == r1;
    assert Redeliver(r, d, 8, None, e, 2) == r2;
    assert Redeliver(r, d, 8, None, e, 3) == r3;
  }

  /** Once a row is on the event's account, redelivery keeps it there. */
  lemma {:induction false} StaysOnItsAccount(
      r: Row, d: Device, id: AccountId, previous: Option<AccountId>, e: UsageEvent, m: nat, n: nat)
    requires m <= n && Redeliver(r, d, id, previous, e, m).accountId == id
    ensures Redeliver(r, d, id, previous, e, n).accountId == id
  {
    hide Deliver;
    if m < n {
      StaysOnItsAccount(r, d, id, previous, e, m, n - 1);
      DeliveryStays(Redeliver(r, d, id, previous, e, n - 1), d, id, previous, e);
    }
  }

  lemma DeliveryStays(r: Row, d: Device, id: AccountId, previous: Option<AccountId>, e: UsageEvent)
    requires r.accountId == id
    ensures Deliver(r, d, id, previous, e).accountId == id
  {
  }

  // ------------------------------------------------------------ the accounts

  /** Naming an account keeps every account and its id. */
  lemma EnsureKeeps(s: Ledger, key: AccountKey, hint: string, plan: string, planAt: Time, person: string)
    ensures var s' := EnsureAccount(s, key, hint, plan, planAt, person);
            && KeepsAccounts(s, s') && key in s'.accounts && (s'.accounts[key].id, person) in s'.memberships
            && s' == s.(accounts := s'.accounts, nextAccount := s'.nextAccount, memberships := s'.memberships)
            && s.memberships <= s'.memberships
            && (ValidAccounts(s) ==> ValidAccounts(s'))
  {
    hide Like, Newest, Older;
  }

  /** s starts with the text, in which an underscore stands for any character. */
  predicate StartsLike(s: string, text: string) {
    |text| <= |s| && forall i :: 0 <= i < |text| ==> text[i] == '_' || text[i] == s[i]
  }

  /** A sign-in replayed later, or one that names only the family of the plan
      on record, leaves the plan as it is; any other reading of a plan sets it. */
  lemma PlanFollowsNewestReading(a: Account, hint: string, plan: string, at: Time)
    requires plan != ""
    ensures var a' := UpdateAccount(a, hint, plan, Some(at));
            var replayed := a.planObservedAt.Some? && at < a.planObservedAt.value;
            && (replayed ==> a'.planType == a.planType)
            && (a'.planType == a.planType || a'.planType == plan)
            && a'.planObservedAt == Some(if replayed then a.planObservedAt.value else at)
            && (PlainText(plan) ==>
                  var family := StartsLike(a.planType, plan + " ");
                  a'.planType == if replayed || family then a.planType else plan)
  {
    if PlainText(plan) {
      assert plan + " " + "%" == plan + " %";
      LikeStarts(a.planType, plan + " ");
    }
  }

  /** A text in which LIKE sees no more than itself, but for underscores. */
  predicate PlainText(text: string) {
    forall c :: c in text ==> c !in "%\\"
  }

  /** LIKE 'text%' is a comparison with the start. */
  lemma {:induction false} LikeStarts(s: string, text: string)
    requires PlainText(text)
    ensures Like(s, text + "%") <==> StartsLike(s, text)
  {
    if text == "" {
      LikeAnything(s);
      assert text + "%" == "%";
    } else {
      assert text[0] in text && (text + "%")[1..] == text[1..] + "%";
      if s != "" {
        LikeStarts(s[1..], text[1..]);
        assert StartsLike(s, text) <==> (text[0] == '_' || text[0] == s[0]) && StartsLike(s[1..], text[1..]) by {
          assert forall i :: 0 < i < |text| && i < |s| ==> text[i] == text[1..][i - 1] && s[i] == s[1..][i - 1];
        }
      }
    }
  }

  lemma {:induction false} LikeAnything(s: string)
    ensures Like(s, "%")
  {
    if s != "" {
      LikeAnything(s[1..]);
    }
  }

  // ---------------------------------------------------------------- one event

  /** Storing an event touches its own row and no other, and no account goes. */
  lemma StoreEventFrame(s: Ledger, d: Device, e: SyncEvent)
    ensures var s' := StoreEvent(s, d, e).0;
            && KeepsAccounts(s, s') && (ValidAccounts(s) ==> ValidAccounts(s'))
            && (forall k :: k in s.events ==> k in s'.events)
            && (forall k :: k in s'.events && k != e.event.dedupeKey ==> k in s.events && s'.events[k] == s.events[k])
  {
    if !Skips(e) {
      EnsureKeeps(s, EventAccount(e), "", "", 0, d.person);
    }
  }

  /** The account id and the corrected account of an event already sent once. */
  function AccountOf(s: Ledger, e: SyncEvent): AccountId
    requires EventAccount(e) in s.accounts
  {
    s.accounts[EventAccount(e)].id
  }

  function CorrectedAccount(s: Ledger, e: SyncEvent): Option<AccountId> {
    PreviousId(s, e.event.provider, e.previousRef)
  }

  /** An event sent once has its account, its membership and its row. */
  ghost predicate Arrived(s: Ledger, d: Device, e: SyncEvent) {
    && !Skips(e) && EventAccount(e) in s.accounts && (AccountOf(s, e), d.person) in s.memberships
    && e.event.dedupeKey in s.events
  }

  /** The row an event finds: its own, unless another delivery came first. */
  function Found(s: Ledger, d: Device, id: AccountId, e: UsageEvent): Row {
    if e.dedupeKey in s.events then s.events[e.dedupeKey] else NewRow(d, id, e)
  }

  lemma Arrives(s: Ledger, d: Device, e: SyncEvent)
    requires !Skips(e)
    ensures var s1 := StoreEvent(s, d, e).0;
            && Arrived(s1, d, e)
            && s1.events[e.event.dedupeKey]
               == Deliver(Found(s, d, AccountOf(s1, e), e.event), d, AccountOf(s1, e), CorrectedAccount(s1, e), e.event)
  {
    EnsureKeeps(s, EventAccount(e), "", "", 0, d.person);
  }

  /** From then on each send only delivers to the row. */
  lemma SendAgain(s: Ledger, d: Device, e: SyncEvent)
    requires Arrived(s, d, e)
    ensures var r := s.events[e.event.dedupeKey];
            var r' := Deliver(r, d, AccountOf(s, e), CorrectedAccount(s, e), e.event);
            && StoreEvent(s, d, e).0 == s.(events := s.events[e.event.dedupeKey := r'])
            && (StoreEvent(s, d, e).1 == 0 <==> !Accepts(r, d.person, AccountOf(s, e), CorrectedAccount(s, e), e.event))
  {
    EnsureAgain(s, EventAccount(e), 0, d.person);
  }

  /** The ledger after the same event is sent n times. */
  function Resend(s: Ledger, d: Device, e: SyncEvent, n: nat): Ledger {
    if n == 0 then s else StoreEvent(Resend(s, d, e, n - 1), d, e).0
  }

  /** The row a resent event ends on. */
  function Delivered(s: Ledger, d: Device, e: SyncEvent, n: nat): Row
    requires Arrived(s, d, e)
  {
    Redeliver(s.events[e.event.dedupeKey], d, AccountOf(s, e), CorrectedAccount(s, e), e.event, n)
  }

  lemma {:induction false} ResendDelivers(s: Ledger, d: Device, e: SyncEvent, n: nat)
    requires Arrived(s, d, e)
    ensures Resend(s, d, e, n) == s.(events := s.events[e.event.dedupeKey := Delivered(s, d, e, n)])
  {
    hide Deliver, StoreEvent;
    if n == 0 {
      assert s.events[e.event.dedupeKey := s.events[e.event.dedupeKey]] == s.events;
    } else {
      ResendDelivers(s, d, e, n - 1);
      SendAgain(Resend(s, d, e, n - 1), d, e);
    }
  }

  /** Sending one event over and over reaches a fixed point of the whole
      ledger: at once when it names no gateway, after three sends otherwise. */
  lemma ResendSettles(s: Ledger, d: Device, e: SyncEvent, n: nat)
    requires n >= 3 || (n >= 1 && e.event.gateway == "")
    ensures Resend(s, d, e, n + 1) == Resend(s, d, e, n)
  {
    hide Deliver, StoreEvent;
    if Skips(e) {
      SkippedChangesNothing(Resend(s, d, e, n), d, e);
    } else {
      var s1 := StoreEvent(s, d, e).0;
      ResendLater(s, d, e, n);
      ResendLater(s, d, e, n - 1);
      Arrives(s, d, e);
      ResendDelivers(s1, d, e, n);
      ResendDelivers(s1, d, e, n - 1);
      DeliveredSettles(s, d, e, n);
    }
  }

  lemma SkippedChangesNothing(s: Ledger, d: Device, e: SyncEvent)
    requires Skips(e)
    ensures StoreEvent(s, d, e).0 == s
  {
  }

  lemma DeliveredSettles(s: Ledger, d: Device, e: SyncEvent, n: nat)
    requires !Skips(e) && (n >= 3 || (n >= 1 && e.event.gateway == ""))
    requires Arrived(StoreEvent(s, d, e).0, d, e)
    ensures Delivered(StoreEvent(s, d, e).0, d, e, n) == Delivered(StoreEvent(s, d, e).0, d, e, n - 1)
  {
    hide Deliver;
    var s1 := StoreEvent(s, d, e).0;
    Arrives(s, d, e);
    var id, previous := AccountOf(s1, e), CorrectedAccount(s1, e);
    var r := Found(s, d, id, e.event);
    RedeliverLater(r, d, id, previous, e.event, n);
    RedeliverLater(r, d, id, previous, e.event, n - 1);
    RedeliverySettles(r, d, id, previous, e.event, n);
  }

  lemma {:induction false} ResendLater(s: Ledger, d: Device, e: SyncEvent, n: nat)
    ensures Resend(s, d, e, n + 1) == Resend(StoreEvent(s, d, e).0, d, e, n)
  {
    hide StoreEvent;
    if n > 0 {
      ResendLater(s, d, e, n - 1);
    }
  }

  // -------------------------------------------------------------------- runs

  /** A batch one device sent. */
  datatype Delivery = Delivery(device: Device, request: SyncRequest)

  /** The ledger after a run of batches. */
  function Run(s: Ledger, ds: seq<Delivery>): Ledger {
    if ds == [] then s
    else IngestBatch(Run(s, ds[..|ds| - 1]), ds[|ds| - 1].device, ds[|ds| - 1].request).ledger
  }

  /** Every event of a run with the device that sent it, in order. */
  function Sent(ds: seq<Delivery>): seq<(Device, SyncEvent)> {
    if ds == [] then []
    else Sent(ds[..|ds| - 1]) + Stamp(ds[|ds| - 1].device, ds[|ds| - 1].request.events)
  }

  function Stamp(d: Device, es: seq<SyncEvent>): seq<(Device, SyncEvent)> {
    seq(|es|, i requires 0 <= i < |es| => (d, es[i]))
  }

  /** The account a key names in the ledger. */
  ghost predicate Is(w: Ledger, key: AccountKey, id: AccountId) {
    key in w.accounts && w.accounts[key].id == id
  }

  /** A correction by the person the request belongs to, from its own session
      and entrypoint, that names the account the request is on. */
  ghost predicate Corrected(w: Ledger, r: Row, d: Device, e: SyncEvent) {
    && d.person == r.person && e.previousRef != "" && Is(w, AccountKey(e.event.provider, e.previousRef), r.accountId)
    && e.event.session == r.session && e.event.originator == r.originator
  }

  /** A move of a third-party request by the device that recorded it. */
  ghost predicate GatewayMove(r: Row, d: Device, e: SyncEvent) {
    d.id == r.device && e.event.gateway != "" && r.thirdParty
  }

  /** All that a sent event can do to the row of a key, and what it takes. */
  ghost predicate RowStep(w: Ledger, r: Row, r': Row, key: string, c: (Device, SyncEvent)) {
    && Evolves(r, r')
    && (r' != r ==> c.1.event.dedupeKey == key)
    && (r'.accountId != r.accountId ==>
          Is(w, EventAccount(c.1), r'.accountId) && (Corrected(w, r, c.0, c.1) || GatewayMove(r, c.0, c.1)))
    && (r'.model != r.model || (r.thirdParty && !r'.thirdParty) ==> GatewayMove(r, c.0, c.1))
  }

  lemma EvolvesThen(r: Row, r1: Row, r2: Row)
    requires Evolves(r, r1) && Evolves(r1, r2)
    ensures Evolves(r, r2)
  {
  }

  /** Account ids stay, so what a step took can be looked up in any later ledger. */
  lemma RowStepLater(w: Ledger, w': Ledger, r: Row, r': Row, key: string, c: (Device, SyncEvent))
    requires KeepsAccounts(w, w') && RowStep(w, r, r', key, c)
    ensures RowStep(w', r, r', key, c)
  {
    hide Evolves;
  }

  lemma EventSteps(s: Ledger, d: Device, e: SyncEvent, key: string)
    requires key in s.events
    ensures var s' := StoreEvent(s, d, e).0;
            key in s'.events && RowStep(s', s.events[key], s'.events[key], key, (d, e))
  {
    StoreEventFrame(s, d, e);
    if !Skips(e) && e.event.dedupeKey == key {
      EnsureKeeps(s, EventAccount(e), "", "", 0, d.person);
      var s1 := EnsureAccount(s, EventAccount(e), "", "", 0, d.person);
      var id, previous := s1.accounts[EventAccount(e)].id, PreviousId(s1, e.event.provider, e.previousRef);
      DeliverEvolves(s.events[key], d, id, previous, e.event);
      DeliverHistory(s.events[key], d, id, previous, e.event);
      hide Deliver, EnsureAccount, Evolves;
    }
  }

  /** The ledger right after the first i events of a run. */
  function LedgerAfter(s: Ledger, ds: seq<Delivery>, i: nat): Ledger
    requires i <= |Sent(ds)|
  {
    if ds == [] then s
    else
      var n := |ds| - 1;
      var m := |Sent(ds[..n])|;
      if i <= m then LedgerAfter(s, ds[..n], i) else LastBatchAt(s, ds, i - m)
  }

  /** The ledger right after the first j events of a run's last batch. */
  function LastBatchAt(s: Ledger, ds: seq<Delivery>, j: nat): Ledger
    requires ds != [] && j <= |ds[|ds| - 1].request.events|
  {
    var n := |ds| - 1;
    var s1 := StoreObservations(Run(s, ds[..n]), ds[n].device, ds[n].request.observations).0;
    StoreEvents(s1, ds[n].device, ds[n].request.events[..j]).0
  }

  /** From one event of a run to the next, the row takes one step. */
  ghost predicate RunSteps(s: Ledger, ds: seq<Delivery>, key: string, i: nat)
    requires i < |Sent(ds)|
  {
    StepBetween(Run(s, ds), LedgerAfter(s, ds, i), LedgerAfter(s, ds, i + 1), key, Sent(ds)[i])
  }

  ghost predicate StepBetween(w: Ledger, before: Ledger, after: Ledger, key: string, c: (Device, SyncEvent)) {
    key in before.events && key in after.events && RowStep(w, before.events[key], after.events[key], key, c)
  }

  /** Sign-ins, readings and limit hits touch no request, and no account goes. */
  lemma {:induction false} ObservationsFrame(s: Ledger, d: Device, os: seq<Observation>)
    ensures var s' := StoreObservations(s, d, os).0;
            s'.events == s.events && KeepsAccounts(s, s') && (ValidAccounts(s) ==> ValidAccounts(s'))
  {
    hide EnsureAccount;
    if os != [] {
      ObservationsFrame(s, d, os[..|os| - 1]);
      var o, s1 := os[|os| - 1], StoreObservations(s, d, os[..|os| - 1]).0;
      EnsureKeeps(s1, AccountKey(o.provider, o.accountRef), o.hint, ObservedPlan(o), o.observedAt, d.person);
    }
  }

  lemma {:induction false} SnapshotsFrame(s: Ledger, d: Device, cs: seq<SyncSnapshot>)
    ensures var s' := StoreSnapshots(s, d, cs).0;
            s'.events == s.events && KeepsAccounts(s, s') && (ValidAccounts(s) ==> ValidAccounts(s'))
  {
    hide StoreSnapshot;
    if cs != [] {
      SnapshotsFrame(s, d, cs[..|cs| - 1]);
      SnapshotFrame(StoreSnapshots(s, d, cs[..|cs| - 1]).0, d, cs[|cs| - 1]);
    }
  }

  lemma SnapshotFrame(s: Ledger, d: Device, c: SyncSnapshot)
    ensures var s' := StoreSnapshot(s, d, c).0;
            s'.events == s.events && KeepsAccounts(s, s') && (ValidAccounts(s) ==> ValidAccounts(s'))
  {
    var snap := c.snapshot;
    EnsureKeeps(s, SnapshotAccount(c), snap.hint, snap.planType, snap.observedAt, d.person);
    hide EnsureAccount, CorrectedSnapshot;
  }

  lemma {:induction false} LimitsFrame(s: Ledger, d: Device, ls: seq<LimitEvent>)
    ensures var s' := StoreLimits(s, d, ls).0;
            s'.events == s.events && KeepsAccounts(s, s') && (ValidAccounts(s) ==> ValidAccounts(s'))
  {
    hide EnsureAccount;
    if ls != [] {
      LimitsFrame(s, d, ls[..|ls| - 1]);
      var l, s1 := ls[|ls| - 1], StoreLimits(s, d, ls[..|ls| - 1]).0;
      EnsureKeeps(s1, AccountKey(l.provider, l.accountRef), "", "", 0, d.person);
    }
  }

  lemma {:induction false} EventsKeepAccounts(s: Ledger, d: Device, es: seq<SyncEvent>)
    ensures var s' := StoreEvents(s, d, es).0;
            KeepsAccounts(s, s') && (ValidAccounts(s) ==> ValidAccounts(s'))
  {
    if es != [] {
      EventsKeepAccounts(s, d, es[..|es| - 1]);
      StoreEventFrame(StoreEvents(s, d, es[..|es| - 1]).0, d, es[|es| - 1]);
    }
  }

  lemma IngestFrame(s: Ledger, d: Device, req: SyncRequest)
    ensures var s1 := StoreObservations(s, d, req.observations).0;
            var s' := IngestBatch(s, d, req).ledger;
            && s1.events == s.events && s'.events == StoreEvents(s1, d, req.events).0.events
            && KeepsAccounts(s, s1) && KeepsAccounts(s1, StoreEvents(s1, d, req.events).0)
            && KeepsAccounts(StoreEvents(s1, d, req.events).0, s')
            && (ValidAccounts(s) ==> ValidAccounts(s1) && ValidAccounts(s'))
  {
    var s1 := StoreObservations(s, d, req.observations).0;
    var s2 := StoreEvents(s1, d, req.events).0;
    var s3 := StoreSnapshots(s2, d, req.snapshots).0;
    ObservationsFrame(s, d, req.observations);
    EventsKeepAccounts(s1, d, req.events);
    SnapshotsFrame(s2, d, req.snapshots);
    LimitsFrame(s3, d, req.limits);
  }

  ghost predicate SameRow(s: Ledger, s': Ledger, key: string) {
    key in s.events && key in s'.events && s'.events[key] == s.events[key]
  }

  lemma EventsOneMore(s: Ledger, d: Device, es: seq<SyncEvent>, i: nat)
    requires i < |es|
    ensures StoreEvents(s, d, es[..i + 1]).0 == StoreEvent(StoreEvents(s, d, es[..i]).0, d, es[i]).0
  {
    hide StoreEvent;
    assert es[..i + 1][..i] == es[..i];
  }

  /** The row of a key after each of a batch's events, each event a step, as the
      last ledger's accounts tell it. */
  lemma {:induction false} BatchSteps(s: Ledger, d: Device, es: seq<SyncEvent>, key: string, n: nat)
    requires key in s.events && n <= |es|
    ensures key in StoreEvents(s, d, es[..n]).0.events
    ensures Evolves(s.events[key], StoreEvents(s, d, es[..n]).0.events[key])
    ensures forall i :: 0 <= i < n ==> BatchStep(s, d, es, key, i, StoreEvents(s, d, es[..n]).0)
  {
    hide StoreEvent;
    if n > 0 {
      BatchSteps(s, d, es, key, n - 1);
      EventsOneMore(s, d, es, n - 1);
      var s0, s' := StoreEvents(s, d, es[..n - 1]).0, StoreEvents(s, d, es[..n]).0;
      hide StoreEvents, Evolves;
      EventSteps(s0, d, es[n - 1], key);
      StoreEventFrame(s0, d, es[n - 1]);
      EvolvesThen(s.events[key], s0.events[key], s'.events[key]);
      forall i | 0 <= i < n - 1 ensures BatchStep(s, d, es, key, i, s') {
        BatchStepLater(s, d, es, key, i, s0, s');
      }
    }
  }

  ghost predicate BatchStep(s: Ledger, d: Device, es: seq<SyncEvent>, key: string, i: nat, w: Ledger)
    requires i < |es|
  {
    StepBetween(w, StoreEvents(s, d, es[..i]).0, StoreEvents(s, d, es[..i + 1]).0, key, (d, es[i]))
  }

  lemma BatchStepLater(s: Ledger, d: Device, es: seq<SyncEvent>, key: string, i: nat, w: Ledger, w': Ledger)
    requires i < |es| && KeepsAccounts(w, w') && BatchStep(s, d, es, key, i, w)
    ensures BatchStep(s, d, es, key, i, w')
  {
    hide StoreEvents;
    var before, after := StoreEvents(s, d, es[..i]).0, StoreEvents(s, d, es[..i + 1]).0;
    RowStepLater(w, w', before.events[key], after.events[key], key, (d, es[i]));
  }

  /** What a run's last batch adds to the run's events and ledgers. */
  lemma SentLast(ds: seq<Delivery>)
    requires ds != []
    ensures var n := |ds| - 1;
            Sent(ds) == Sent(ds[..n]) + Stamp(ds[n].device, ds[n].request.events)
  {
  }

  lemma LedgerEarlier(s: Ledger, ds: seq<Delivery>, i: nat)
    requires ds != [] && i <= |Sent(ds[..|ds| - 1])| <= |Sent(ds)|
    ensures LedgerAfter(s, ds, i) == LedgerAfter(s, ds[..|ds| - 1], i)
  {
    hide LastBatchAt, Sent;
  }

  lemma LedgerLast(s: Ledger, ds: seq<Delivery>, j: nat)
    requires ds != [] && 0 < j <= |ds[|ds| - 1].request.events|
    requires |Sent(ds)| == |Sent(ds[..|ds| - 1])| + |ds[|ds| - 1].request.events|
    ensures LedgerAfter(s, ds, |Sent(ds[..|ds| - 1])| + j) == LastBatchAt(s, ds, j)
  {
    hide LastBatchAt, Sent;
  }

  /** Over every run, from any devices: a stored request keeps its person,
      device, input counts and time, its output only grows, its evidence is
      written once. From one event to the next its row is the same unless the
      event is its own; it changes the account only to the event's, on its
      person's correction of the account it was on just before or on its
      recording device's move of a third-party request; and only that move
      changes its model or makes a third-party request count. */
  lemma {:induction false} RunHistory(s: Ledger, ds: seq<Delivery>, key: string)
    requires key in s.events
    ensures key in Run(s, ds).events && Evolves(s.events[key], Run(s, ds).events[key])
    ensures SameRow(s, LedgerAfter(s, ds, 0), key)
    ensures SameRow(Run(s, ds), LedgerAfter(s, ds, |Sent(ds)|), key)
    ensures forall i :: 0 <= i < |Sent(ds)| ==> RunSteps(s, ds, key, i)
  {
    hide StoreEvents, StoreObservations, LedgerAfter, LastBatchAt, RowStep, RunSteps, Run, IngestBatch, Evolves, Sent;
    if ds == [] {
      RunOfNothing(s, key);
    } else {
      var n := |ds| - 1;
      var s0, m, d, req := Run(s, ds[..n]), |Sent(ds[..n])|, ds[n].device, ds[n].request;
      SentLast(ds);
      RunHistory(s, ds[..n], key);
      LedgerEarlier(s, ds, 0);
      RunLast(s, ds);
      BatchHistory(s0, d, req, key);
      EvolvesThen(s.events[key], s0.events[key], Run(s, ds).events[key]);
      LastRow(s, ds, key);
      forall i | 0 <= i < |Sent(ds)| ensures RunSteps(s, ds, key, i) {
        if i < m {
          EarlierStep(s, ds, key, i);
        } else {
          LastBatchStep(s, ds, key, i);
        }
      }
    }
    hide *;
  }

  lemma RunOfNothing(s: Ledger, key: string)
    requires key in s.events
    ensures Run(s, []) == s && Sent([]) == [] && LedgerAfter(s, [], 0) == s
    ensures Evolves(s.events[key], s.events[key])
  {
  }

  /** The ledger after all of a run's events has the row the run ends with. */
  lemma LastRow(s: Ledger, ds: seq<Delivery>, key: string)
    requires ds != [] && |Sent(ds)| == |Sent(ds[..|ds| - 1])| + |ds[|ds| - 1].request.events|
    requires SameRow(Run(s, ds[..|ds| - 1]), LedgerAfter(s, ds[..|ds| - 1], |Sent(ds[..|ds| - 1])|), key)
    ensures SameRow(Run(s, ds), LedgerAfter(s, ds, |Sent(ds)|), key)
  {
    hide StoreEvents, StoreObservations, Run, IngestBatch, LedgerAfter, Sent;
    var n, es := |ds| - 1, ds[|ds| - 1].request.events;
    RunLast(s, ds);
    BatchHistory(Run(s, ds[..n]), ds[n].device, ds[n].request, key);
    assert es[..|es|] == es;
    if es == [] {
      LedgerEarlier(s, ds, |Sent(ds)|);
      NoEvents(StoreObservations(Run(s, ds[..n]), ds[n].device, ds[n].request.observations).0, ds[n].device, es);
    } else {
      LedgerLast(s, ds, |es|);
    }
    hide BatchStep;
  }

  /** A batch's events step by step, as the ledger after the batch tells it. */
  lemma BatchHistory(s: Ledger, d: Device, req: SyncRequest, key: string)
    requires key in s.events
    ensures var s1, s' := StoreObservations(s, d, req.observations).0, IngestBatch(s, d, req).ledger;
            && KeepsAccounts(s, s') && key in s1.events && s1.events[key] == s.events[key]
            && s'.events == StoreEvents(s1, d, req.events).0.events
            && key in s'.events && Evolves(s.events[key], s'.events[key])
            && forall i :: 0 <= i < |req.events| ==> BatchStep(s1, d, req.events, key, i, s')
  {
    var s1, s' := StoreObservations(s, d, req.observations).0, IngestBatch(s, d, req).ledger;
    IngestFrame(s, d, req);
    hide StoreObservations, StoreEvents, IngestBatch, Evolves, BatchStep;
    BatchSteps(s1, d, req.events, key, |req.events|);
    assert req.events[..|req.events|] == req.events;
    forall i | 0 <= i < |req.events| ensures BatchStep(s1, d, req.events, key, i, s') {
      BatchStepLater(s1, d, req.events, key, i, StoreEvents(s1, d, req.events).0, s');
    }
  }

  lemma EarlierStep(s: Ledger, ds: seq<Delivery>, key: string, i: nat)
    requires ds != [] && i < |Sent(ds[..|ds| - 1])| <= |Sent(ds)| && RunSteps(s, ds[..|ds| - 1], key, i)
    requires key in Run(s, ds[..|ds| - 1]).events
    ensures RunSteps(s, ds, key, i)
  {
    hide StoreEvents, StoreObservations, Run, IngestBatch, LedgerAfter, Sent, RowStep;
    var n := |ds| - 1;
    SentLast(ds);
    LedgerEarlier(s, ds, i);
    LedgerEarlier(s, ds, i + 1);
    BatchHistory(Run(s, ds[..n]), ds[n].device, ds[n].request, key);
    RunLast(s, ds);
    RowStepLater(Run(s, ds[..n]), Run(s, ds), LedgerAfter(s, ds, i).events[key], LedgerAfter(s, ds, i + 1).events[key],
                 key, Sent(ds)[i]);
    assert StepBetween(Run(s, ds), LedgerAfter(s, ds, i), LedgerAfter(s, ds, i + 1), key, Sent(ds)[i]);
    hide *;
  }

  lemma LastBatchStep(s: Ledger, ds: seq<Delivery>, key: string, i: nat)
    requires ds != [] && |Sent(ds[..|ds| - 1])| <= i < |Sent(ds)|
    requires SameRow(Run(s, ds[..|ds| - 1]), LedgerAfter(s, ds[..|ds| - 1], |Sent(ds[..|ds| - 1])|), key)
    ensures RunSteps(s, ds, key, i)
  {
    hide StoreEvents, StoreObservations, Run, IngestBatch, LedgerAfter, Sent, RowStep;
    var n, m := |ds| - 1, |Sent(ds[..|ds| - 1])|;
    var d, es := ds[n].device, ds[n].request.events;
    SentLast(ds);
    BatchHistory(Run(s, ds[..n]), d, ds[n].request, key);
    var s1 := StoreObservations(Run(s, ds[..n]), d, ds[n].request.observations).0;
    RunLast(s, ds);
    LedgerLast(s, ds, i + 1 - m);
    assert BatchStep(s1, d, es, key, i - m, Run(s, ds));
    if i == m {
      LedgerEarlier(s, ds, m);
      NoEvents(s1, d, es);
    } else {
      LedgerLast(s, ds, i - m);
    }
    assert StepBetween(Run(s, ds), LedgerAfter(s, ds, i), LedgerAfter(s, ds, i + 1), key, Sent(ds)[i]);
    hide *;
  }

  lemma NoEvents(s: Ledger, d: Device, es: seq<SyncEvent>)
    ensures StoreEvents(s, d, es[..0]).0 == s
  {
  }

  lemma RunLast(s: Ledger, ds: seq<Delivery>)
    requires ds != []
    ensures Run(s, ds) == IngestBatch(Run(s, ds[..|ds| - 1]), ds[|ds| - 1].device, ds[|ds| - 1].request).ledger
  {
  }

  // -------------------------------------------------------------- divergence

  /** Some account has the id. */
  ghost predicate Names(s: Ledger, id: AccountId) {
    exists a :: a in s.accounts && s.accounts[a].id == id
  }

  /** Every row is on an account the ledger has. */
  ghost predicate RowsOnAccounts(s: Ledger) {
    forall k :: k in s.events ==> Names(s, s.events[k].accountId)
  }

  lemma NamesKept(s: Ledger, s': Ledger)
    requires KeepsAccounts(s, s')
    ensures forall id :: Names(s, id) ==> Names(s', id)
  {
    forall id | Names(s, id) ensures Names(s', id) {
      var a :| a in s.accounts && s.accounts[a].id == id;
      assert a in s'.accounts;
    }
  }

  lemma EventKeepsRowsOnAccounts(s: Ledger, d: Device, e: SyncEvent)
    requires RowsOnAccounts(s)
    ensures RowsOnAccounts(StoreEvent(s, d, e).0)
  {
    var s' := StoreEvent(s, d, e).0;
    StoreEventFrame(s, d, e);
    NamesKept(s, s');
    if !Skips(e) {
      Arrives(s, d, e);
      var k, id := e.event.dedupeKey, AccountOf(s', e);
      DeliverHistory(Found(s, d, id, e.event), d, id, CorrectedAccount(s', e), e.event);
      assert Names(s', id);
      forall j | j in s'.events ensures Names(s', s'.events[j].accountId) {
        if j != k || s'.events[k].accountId != id {
          assert j in s.events && Names(s, s.events[j].accountId);
        }
      }
    }
  }

  lemma {:induction false} EventsKeepRowsOnAccounts(s: Ledger, d: Device, es: seq<SyncEvent>)
    requires RowsOnAccounts(s)
    ensures RowsOnAccounts(StoreEvents(s, d, es).0)
  {
    if es != [] {
      var n := |es| - 1;
      EventsKeepRowsOnAccounts(s, d, es[..n]);
      EventKeepsRowsOnAccounts(StoreEvents(s, d, es[..n]).0, d, es[n]);
    }
  }

  /** Over every run from the empty ledger, accounts stay distinct and every
      request is on one of them. */
  lemma {:induction false} RunKeepsAccounts(s: Ledger, ds: seq<Delivery>)
    requires ValidAccounts(s) && RowsOnAccounts(s)
    ensures ValidAccounts(Run(s, ds)) && RowsOnAccounts(Run(s, ds)) && KeepsAccounts(s, Run(s, ds))
  {
    if ds != [] {
      var s0, d, req := Run(s, ds[..|ds| - 1]), ds[|ds| - 1].device, ds[|ds| - 1].request;
      RunKeepsAccounts(s, ds[..|ds| - 1]);
      IngestFrame(s0, d, req);
      var s1 := StoreObservations(s0, d, req.observations).0;
      var s2 := StoreEvents(s1, d, req.events).0;
      NamesKept(s0, s1);
      EventsKeepRowsOnAccounts(s1, d, req.events);
      NamesKept(s2, Run(s, ds));
    }
  }

  /** The answer's divergence count is zero exactly when every event the
      ledger holds is on the account the device reported it on. */
  lemma {:induction false} NoDivergence(s: Ledger, es: seq<SyncEvent>)
    requires ValidAccounts(s) && RowsOnAccounts(s)
    ensures CountDiverged(s, es) == 0 <==>
            forall e :: e in es && e.event.dedupeKey in s.events ==>
              EventAccount(e) in s.accounts && s.accounts[EventAccount(e)].id == s.events[e.event.dedupeKey].accountId
  {
    if es != [] {
      var n := |es| - 1;
      NoDivergence(s, es[..n]);
      assert es == es[..n] + [es[n]];
    }
  }
}
