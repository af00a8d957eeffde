/** Which account usage goes with: ResolveAt of internal/account/account.go,
    and accounts, resolve and ingestFile of internal/client/agent/ingest.go. */
module SignIns {
  import opened Records
  import opened Sorting

  function ObservedTime(o: Observation): int { o.observedAt }

  /** The observation of the provider had been made by t. */
  predicate Known(o: Observation, provider: string, t: Time) {
    o.provider == provider && o.observedAt <= t
  }

  ghost predicate Newest(o: Observation, observations: seq<Observation>, provider: string, t: Time) {
    Known(o, provider, t) && forall p :: p in observations && Known(p, provider, t) ==> p.observedAt <= o.observedAt
  }

  /** r is the account of the latest observation at or before t; nothing when
      there is none, rather than a guess. */
  ghost predicate IsLatest(r: Option<string>, observations: seq<Observation>, provider: string, t: Time) {
    if r.None? then forall o :: o in observations ==> !Known(o, provider, t)
    else exists o :: o in observations && Newest(o, observations, provider, t) && o.accountRef == r.value
  }

  function Matching(observations: seq<Observation>, provider: string): (r: seq<Observation>)
    ensures forall o :: o in r <==> o in observations && o.provider == provider
  {
    if observations == [] then []
    else
      var o := observations[|observations| - 1];
      Matching(observations[..|observations| - 1], provider) + (if o.provider == provider then [o] else [])
  }

  /** ResolveAt's filter. */
  method Match(observations: seq<Observation>, provider: string) returns (matching: seq<Observation>)
    ensures matching == Matching(observations, provider)
  {
    matching := [];
    for i := 0 to |observations|
      invariant matching == Matching(observations[..i], provider)
    {
      assert observations[..i + 1][..i] == observations[..i];
      if observations[i].provider == provider {
        matching := matching + [observations[i]];
      }
    }
    assert observations[..|observations|] == observations;
  }

  method ResolveAt(observations: seq<Observation>, provider: string, t: Time) returns (r: Option<string>)
    ensures IsLatest(r, observations, provider, t)
  {
    hide Matching, SortedBy, IsLatest;
    var matching := Match(observations, provider);
    SortingExists(matching, ObservedTime);
    var sorted: seq<Observation> :| IsSorting(sorted, matching, ObservedTime);
    SameMembers(sorted, matching);
    r := None;
    var i := 0;
    while i < |sorted| && sorted[i].observedAt <= t
      invariant 0 <= i <= |sorted|
      invariant forall j :: 0 <= j < i ==> sorted[j].observedAt <= t
      invariant r == if i == 0 then None else Some(sorted[i - 1].accountRef)
    {
      r := Some(sorted[i].accountRef);
      i := i + 1;
    }
    LastKnown(sorted, observations, provider, t, i);
  }

  lemma LastKnown(sorted: seq<Observation>, observations: seq<Observation>, provider: string, t: Time, i: nat)
    requires SortedBy(sorted, ObservedTime) && i <= |sorted|
    requires forall o :: o in sorted <==> o in observations && o.provider == provider
    requires forall j :: 0 <= j < i ==> sorted[j].observedAt <= t
    requires i < |sorted| ==> sorted[i].observedAt > t
    ensures IsLatest(if i == 0 then None else Some(sorted[i - 1].accountRef), observations, provider, t)
  {
    forall j | i <= j < |sorted| ensures sorted[j].observedAt > t {
      assert i < j ==> ObservedTime(sorted[i]) <= ObservedTime(sorted[j]);
    }
    forall o | o in observations && Known(o, provider, t) ensures i > 0 && o.observedAt <= sorted[i - 1].observedAt {
      var j :| 0 <= j < |sorted| && sorted[j] == o;
      assert j < i - 1 ==> ObservedTime(sorted[j]) <= ObservedTime(sorted[i - 1]);
    }
    if i > 0 {
      assert Newest(sorted[i - 1], observations, provider, t);
    }
  }

  /** Observations made after t, and other providers', say nothing about t. */
  lemma LaterSignInsChangeNothing(r: Option<string>, observations: seq<Observation>, later: seq<Observation>,
                                  provider: string, t: Time)
    requires forall o :: o in later ==> !Known(o, provider, t)
    ensures IsLatest(r, observations + later, provider, t) <==> IsLatest(r, observations, provider, t)
  {
    forall o | o in observations + later && Known(o, provider, t) ensures o in observations {
    }
    if r.Some? && IsLatest(r, observations, provider, t) {
      var o :| o in observations && Newest(o, observations, provider, t) && o.accountRef == r.value;
      assert o in observations + later && Newest(o, observations + later, provider, t);
    }
  }

  /** A provider's sign-ins have their own times, as the observations table's key demands. */
  ghost predicate DistinctTimes(observations: seq<Observation>) {
    forall o, p ::
      o in observations && p in observations && o.provider == p.provider && o.observedAt == p.observedAt ==> o == p
  }

  /** There is one answer, in whatever order the observations come. */
  lemma OneLatest(r: Option<string>, r': Option<string>, a: seq<Observation>, b: seq<Observation>, provider: string,
                  t: Time)
    requires DistinctTimes(a) && multiset(a) == multiset(b)
    requires IsLatest(r, a, provider, t) && IsLatest(r', b, provider, t)
    ensures r == r'
  {
    SameMembers(a, b);
  }

  // ----------------------------------------------------------------- accounts

  /** What attributes one provider's usage: the CLI's sign-ins, and the
      organizations Claude Desktop filed its sessions under. */
  datatype Accounts = Accounts(
    provider: string, cli: seq<Observation>, desktopSeen: bool, desktop: map<string, string>, since: Option<Time>)

  ghost predicate Oldest(o: Observation, observations: seq<Observation>) {
    o in observations && forall p :: p in observations ==> o.observedAt <= p.observedAt
  }

  /** loadAccounts, given the two timelines oldest first. */
  method LoadAccounts(provider: string, cli: seq<Observation>, desktop: seq<Observation>) returns (ac: Accounts)
    requires SortedBy(cli, ObservedTime) && SortedBy(desktop, ObservedTime)
    ensures ac.provider == provider && ac.cli == cli
    ensures ac.desktopSeen <==> provider == "anthropic" && desktop != []
    ensures var seen := cli + if provider == "anthropic" then desktop else [];
            if seen == [] then ac.since.None? else exists o :: Oldest(o, seen) && ac.since == Some(o.observedAt)
  {
    ac := Accounts(provider, cli, false, map[], None);
    if cli != [] {
      ac := ac.(since := Some(cli[0].observedAt));
      FirstIsOldest(cli);
    }
    if provider != "anthropic" {
      assert cli + [] == cli;
      return;
    }
    if desktop != [] {
      FirstIsOldest(desktop);
      ac := ac.(desktopSeen := true);
      if ac.since.None? || desktop[0].observedAt < ac.since.value {
        ac := ac.(since := Some(desktop[0].observedAt));
      }
    }
    assert cli != [] ==> cli[0] in cli + desktop;
    assert desktop != [] ==> desktop[0] in cli + desktop;
    if cli + desktop != [] {
      var first := if cli != [] && ac.since == Some(cli[0].observedAt) then cli[0] else desktop[0];
      assert Oldest(first, cli + desktop);
    }
  }

  lemma FirstIsOldest(observations: seq<Observation>)
    requires SortedBy(observations, ObservedTime) && observations != []
    ensures Oldest(observations[0], observations)
  {
    forall o | o in observations ensures observations[0].observedAt <= o.observedAt {
      var i :| 0 <= i < |observations| && observations[i] == o;
      assert i > 0 ==> ObservedTime(observations[0]) <= ObservedTime(observations[i]);
    }
  }

  predicate ThirdPartyDesktop(entrypoint: string) {
    entrypoint == "claude-desktop-3p"
  }

  predicate FromDesktop(entrypoint: string) {
    entrypoint == "claude-desktop" || entrypoint == "local-agent"
  }

  /** r is the account of usage at t, from a session and an entrypoint. */
  ghost predicate IsAccountOf(r: Option<string>, ac: Accounts, sessionId: string, entrypoint: string, t: Time,
                              hash: string -> string) {
    if ac.provider == "anthropic" && ThirdPartyDesktop(entrypoint) then r == None
    else if ac.provider == "anthropic" && FromDesktop(entrypoint) then
      r == if sessionId in ac.desktop && (ac.since.None? || ac.since.value <= t) then Some(hash(ac.desktop[sessionId]))
          else None
    else if r.Some? then r.value != "" && IsLatest(r, ac.cli, ac.provider, t)
    else IsLatest(None, ac.cli, ac.provider, t) || IsLatest(Some(""), ac.cli, ac.provider, t)
  }

  method Resolve(ac: Accounts, sessionId: string, entrypoint: string, t: Time,
                 hash: string -> string) returns (r: Option<string>)
    ensures IsAccountOf(r, ac, sessionId, entrypoint, t, hash)
  {
    if ac.provider == "anthropic" {
      if ThirdPartyDesktop(entrypoint) {
        return None;
      }
      if FromDesktop(entrypoint) {
        if sessionId !in ac.desktop || (ac.since.Some? && t < ac.since.value) {
          return None;
        }
        return Some(hash(ac.desktop[sessionId]));
      }
    }
    r := ResolveAt(ac.cli, ac.provider, t);
    r := if r == Some("") then None else r;
  }

  // -------------------------------------------------------------- attribution

  /** What decides an event's account: the scanned provider's accounts, those
      of other providers, and which requests OpenCodex sent to another ChatGPT
      account. */
  datatype Context = Context(
    own: Accounts, other: string -> Accounts, elsewhere: (Time, Tokens) -> bool, hash: string -> string)

  /** An event as it is counted, before its account is known. */
  function Settled(e: UsageEvent, c: Context): UsageEvent {
    var away := e.provider == "openai" && e.gateway == "opencodex" && c.elsewhere(e.occurredAt, e.tokens);
    var desktop := e.provider == c.own.provider && ThirdPartyDesktop(e.originator);
    e.(thirdParty := e.thirdParty || away || desktop)
  }

  ghost predicate IsRefOf(r: Option<string>, e: UsageEvent, c: Context) {
    if e.provider != c.own.provider then IsAccountOf(r, c.other(e.provider), "", "", e.occurredAt, c.hash)
    else IsAccountOf(r, c.own, e.session,
                     if ThirdPartyDesktop(e.originator) then "" else e.originator, e.occurredAt, c.hash)
  }

  ghost predicate IsSettledAs(a: UsageEvent, e: UsageEvent, c: Context) {
    IsRefOf(Some(a.accountRef), e, c) && a == Settled(e, c).(accountRef := a.accountRef)
  }

  /** The events with a known account, in order, on that account. */
  ghost predicate AreAttributed(out: seq<UsageEvent>, events: seq<UsageEvent>, c: Context) {
    if events == [] then out == []
    else
      var n, m := |events| - 1, |out| - 1;
      || (IsRefOf(None, events[n], c) && AreAttributed(out, events[..n], c))
      || (out != [] && IsSettledAs(out[m], events[n], c) && AreAttributed(out[..m], events[..n], c))
  }

  /** One event, and the accounts of other providers loaded so far. */
  method ResolveEvent(read: UsageEvent, known: map<string, Accounts>, c: Context)
    returns (e: UsageEvent, ref: Option<string>, others: map<string, Accounts>)
    requires forall p :: p in known ==> known[p] == c.other(p)
    ensures forall p :: p in others ==> others[p] == c.other(p)
    ensures e == Settled(read, c) && IsRefOf(ref, read, c)
  {
    hide IsAccountOf;
    e, others := read, known;
    if e.provider == "openai" && e.gateway == "opencodex" && c.elsewhere(e.occurredAt, e.tokens) {
      e := e.(thirdParty := true);
    }
    if e.provider != c.own.provider {
      if e.provider !in others {
        others := others[e.provider := c.other(e.provider)];
      }
      ref := Resolve(others[e.provider], "", "", e.occurredAt, c.hash);
    } else {
      var entrypoint := e.originator;
      if ThirdPartyDesktop(entrypoint) {
        e, entrypoint := e.(thirdParty := true), "";
      }
      ref := Resolve(c.own, e.session, entrypoint, e.occurredAt, c.hash);
    }
  }

  /** ingestFile's loop over the parsed events. */
  method Attribute(events: seq<UsageEvent>, c: Context) returns (out: seq<UsageEvent>)
    ensures AreAttributed(out, events, c)
  {
    hide IsRefOf, Settled;
    var others: map<string, Accounts> := map[];
    out := [];
    for i := 0 to |events|
      invariant forall p :: p in others ==> others[p] == c.other(p)
      invariant AreAttributed(out, events[..i], c)
    {
      assert events[..i + 1][..i] == events[..i];
      var e, ref;
      e, ref, others := ResolveEvent(events[i], others, c);
      if ref.Some? {
        e := e.(accountRef := ref.value);
        assert IsSettledAs(e, events[i], c);
        assert events[..i + 1] == events[..i] + [events[i]];
        AttributedOneMore(out, events[..i], e, events[i], c);
        out := out + [e];
      }
    }
    assert events[..|events|] == events;
  }

  lemma AttributedOneMore(out: seq<UsageEvent>, events: seq<UsageEvent>, a: UsageEvent, e: UsageEvent, c: Context)
    requires AreAttributed(out, events, c) && IsSettledAs(a, e, c)
    ensures AreAttributed(out + [a], events + [e], c)
  {
    assert (out + [a])[..|out|] == out && (events + [e])[..|events|] == events;
  }

  /** Signing in again, after everything that was read, moves none of it. */
  ghost predicate SignedInLater(before: Accounts, after: Accounts, t: Time) {
    && after == before.(cli := after.cli) && before.cli <= after.cli
    && forall i :: |before.cli| <= i < |after.cli| ==> after.cli[i].observedAt > t
  }

  lemma AccountStays(r: Option<string>, before: Accounts, after: Accounts, sessionId: string, entrypoint: string,
                     t: Time,
                     until: Time, hash: string -> string)
    requires SignedInLater(before, after, until) && t <= until
    ensures IsAccountOf(r, after, sessionId, entrypoint, t, hash) <==>
        IsAccountOf(r, before, sessionId, entrypoint, t, hash)
  {
    var later := after.cli[|before.cli|..];
    assert after.cli == before.cli + later;
    LaterSignInsChangeNothing(r, before.cli, later, before.provider, t);
    LaterSignInsChangeNothing(None, before.cli, later, before.provider, t);
    LaterSignInsChangeNothing(Some(""), before.cli, later, before.provider, t);
  }

  /** Reading the same events after more sign-ins attributes them as before. */
  lemma {:induction false} AttributionStays(out: seq<UsageEvent>, events: seq<UsageEvent>, c: Context, c': Context,
                                            until: Time)
    requires c' == c.(own := c'.own, other := c'.other) && SignedInLater(c.own, c'.own, until)
    requires forall p :: SignedInLater(c.other(p), c'.other(p), until)
    requires forall e :: e in events ==> e.occurredAt <= until
    ensures AreAttributed(out, events, c) <==> AreAttributed(out, events, c')
  {
    if events != [] {
      var n, m := |events| - 1, |out| - 1;
      var e := events[n];
      RefStays(None, e, c, c', until);
      AttributionStays(out, events[..n], c, c', until);
      if out != [] {
        RefStays(Some(out[m].accountRef), e, c, c', until);
        AttributionStays(out[..m], events[..n], c, c', until);
      }
      hide IsRefOf;
    }
  }

  lemma RefStays(r: Option<string>, e: UsageEvent, c: Context, c': Context, until: Time)
    requires c' == c.(own := c'.own, other := c'.other) && SignedInLater(c.own, c'.own, until)
    requires SignedInLater(c.other(e.provider), c'.other(e.provider), until) && e.occurredAt <= until
    ensures IsRefOf(r, e, c) <==> IsRefOf(r, e, c')
    ensures Settled(e, c) == Settled(e, c')
  {
    hide IsAccountOf;
    if e.provider != c.own.provider {
      AccountStays(r, c.other(e.provider), c'.other(e.provider), "", "", e.occurredAt, until, c.hash);
    } else {
      AccountStays(r, c.own, c'.own, e.session,
                   if ThirdPartyDesktop(e.originator) then "" else e.originator, e.occurredAt, until, c.hash);
    }
  }

  // -------------------------------------------------------- what attribution says

  /** o says who was signed in at t: no other sign-in of the provider was seen
      after it, by t. */
  ghost predicate SignedInAt(o: Observation, cli: seq<Observation>, provider: string, t: Time) {
    && o in cli && o.provider == provider && o.observedAt <= t
    && forall p :: p in cli && p.provider == provider && o.observedAt < p.observedAt ==> t < p.observedAt
  }

  /** The account the provider's CLI was signed into at t; none when it was
      signed out, on an account that is not pooled, or not seen yet. */
  ghost predicate CliAccount(r: Option<string>, cli: seq<Observation>, provider: string, t: Time) {
    match r
    case Some(ref) => ref != "" && exists o :: SignedInAt(o, cli, provider, t) && o.accountRef == ref
    case None =>
      || (forall o :: o in cli && o.provider == provider ==> t < o.observedAt)
      || exists o :: SignedInAt(o, cli, provider, t) && o.accountRef == ""
  }

  /** The organization Claude Desktop filed the session under; none for usage
      from before the device joined. */
  ghost predicate DesktopAccount(r: Option<string>, ac: Accounts, session: string, t: Time, hash: string -> string) {
    && (r.Some? <==> session in ac.desktop && !(ac.since.Some? && t < ac.since.value))
    && (r.Some? ==> session in ac.desktop && r.value == hash(ac.desktop[session]))
  }

  lemma LatestIsCli(r: Option<string>, cli: seq<Observation>, provider: string, t: Time)
    ensures r.Some? && r.value != "" && IsLatest(r, cli, provider, t) ==> CliAccount(r, cli, provider, t)
    ensures IsLatest(None, cli, provider, t) || IsLatest(Some(""), cli, provider, t) ==>
        CliAccount(None, cli, provider, t)
  {
    forall o | o in cli && Newest(o, cli, provider, t) ensures SignedInAt(o, cli, provider, t) {
    }
  }

  /** Usage of Claude Desktop goes with the account Desktop filed it under, of
      Desktop set up for third-party inference with none, and all other usage
      with the CLI's. */
  lemma AccountTells(r: Option<string>, ac: Accounts, session: string, entrypoint: string, t: Time,
                     hash: string -> string)
    requires IsAccountOf(r, ac, session, entrypoint, t, hash)
    ensures if ac.provider == "anthropic" && entrypoint == "claude-desktop-3p" then r.None?
            else if ac.provider == "anthropic" && entrypoint in {"claude-desktop", "local-agent"}
                 then DesktopAccount(r, ac, session, t, hash)
                 else CliAccount(r, ac.cli, ac.provider, t)
  {
    LatestIsCli(r, ac.cli, ac.provider, t);
    hide IsLatest, CliAccount;
  }

  /** A request of another provider goes with that provider's CLI; of its own
      provider, from Desktop set up for third-party inference, with the CLI too. */
  ghost predicate GoesWith(r: Option<string>, e: UsageEvent, c: Context) {
    if e.provider != c.own.provider then CliAccount(r, c.other(e.provider).cli, e.provider, e.occurredAt)
    else if e.provider == "anthropic" && e.originator in {"claude-desktop", "local-agent"}
         then DesktopAccount(r, c.own, e.session, e.occurredAt, c.hash)
         else CliAccount(r, c.own.cli, e.provider, e.occurredAt)
  }

  /** The event is kept as read, on its account, and is third-party when it was
      read as such, when OpenCodex sent it to a ChatGPT account other than
      Codex's own, or when it is from Desktop set up for third-party inference. */
  ghost predicate CountsAs(a: UsageEvent, e: UsageEvent, c: Context) {
    && GoesWith(Some(a.accountRef), e, c)
    && a == e.(accountRef := a.accountRef, thirdParty := a.thirdParty)
    && (a.thirdParty <==>
        || e.thirdParty
        || (e.provider == "openai" && e.gateway == "opencodex" && c.elsewhere(e.occurredAt, e.tokens))
        || (e.provider == c.own.provider && e.originator == "claude-desktop-3p"))
  }

  /** The accounts c.other gives are of the provider asked for. */
  ghost predicate OwnProviders(c: Context) {
    forall p :: c.other(p).provider == p
  }

  lemma RefTells(r: Option<string>, e: UsageEvent, c: Context)
    requires IsRefOf(r, e, c) && OwnProviders(c)
    ensures GoesWith(r, e, c)
  {
    hide IsAccountOf, CliAccount, DesktopAccount;
    if e.provider != c.own.provider {
      AccountTells(r, c.other(e.provider), "", "", e.occurredAt, c.hash);
    } else {
      AccountTells(r, c.own, e.session, if ThirdPartyDesktop(e.originator) then "" else e.originator, e.occurredAt,
                   c.hash);
    }
  }

  lemma SettledTells(a: UsageEvent, e: UsageEvent, c: Context)
    requires IsSettledAs(a, e, c) && OwnProviders(c)
    ensures CountsAs(a, e, c)
  {
    RefTells(Some(a.accountRef), e, c);
    hide GoesWith, IsRefOf;
  }

  /** The events at the given places, in order, are counted; those at all
      others go with no account. */
  ghost predicate Counted(at: seq<nat>, out: seq<UsageEvent>, events: seq<UsageEvent>, c: Context) {
    && |at| == |out| && (forall k, m :: 0 <= k < m < |at| ==> at[k] < at[m])
    && (forall k :: 0 <= k < |at| ==> at[k] < |events| && CountsAs(out[k], events[at[k]], c))
    && forall i: nat :: i < |events| && i !in at ==> GoesWith(None, events[i], c)
  }

  lemma CountedStays(at: seq<nat>, out: seq<UsageEvent>, events: seq<UsageEvent>, e: UsageEvent, c: Context)
    requires Counted(at, out, events, c) && GoesWith(None, e, c)
    ensures Counted(at, out, events + [e], c)
  {
    hide GoesWith, CountsAs;
  }

  lemma CountedGrows(at: seq<nat>, out: seq<UsageEvent>, events: seq<UsageEvent>, a: UsageEvent, e: UsageEvent,
                     c: Context)
    requires Counted(at, out, events, c) && CountsAs(a, e, c)
    ensures Counted(at + [|events|], out + [a], events + [e], c)
  {
    hide GoesWith, CountsAs;
    var all, after := events + [e], at + [|events|];
    assert after[|at|] == |events| && |events| in after;
    forall i: nat | i < |all| && i !in after ensures GoesWith(None, all[i], c) {
      assert i !in at;
    }
  }

  /** What attribution keeps of the events read, and as what. */
  lemma {:induction false} AttributionTells(out: seq<UsageEvent>, events: seq<UsageEvent>, c: Context)
      returns (at: seq<nat>)
    requires AreAttributed(out, events, c) && OwnProviders(c)
    ensures Counted(at, out, events, c)
  {
    if events == [] {
      at := [];
    } else {
      hide IsRefOf, IsSettledAs, GoesWith, CountsAs, Counted, OwnProviders;
      var n, m := |events| - 1, |out| - 1;
      assert events == events[..n] + [events[n]];
      if IsRefOf(None, events[n], c) && AreAttributed(out, events[..n], c) {
        at := AttributionTells(out, events[..n], c);
        RefTells(None, events[n], c);
        CountedStays(at, out, events[..n], events[n], c);
      } else {
        assert out == out[..m] + [out[m]];
        var before := AttributionTells(out[..m], events[..n], c);
        SettledTells(out[m], events[n], c);
        CountedGrows(before, out[..m], events[..n], out[m], events[n], c);
        at := before + [n];
      }
    }
  }
}
