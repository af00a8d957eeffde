/** Claude Code transcripts, from decoded lines on: Parse of
    internal/provider/anthropic/transcript/transcript.go. */
module Transcripts {
  import opened Records

  datatype Usage = Usage(input: int, output: int, cacheRead: int, cacheCreation: int)

  datatype Message = Message(id: string, model: string, usage: Option<Usage>)

  datatype Line = Line(
    kind: string, sessionId: string, requestId: string, timestamp: Time, entrypoint: string,
    effort: Option<string>, isApiError: bool, message: Option<Message>, details: string)

  /** A complete line of the file: whether it holds the "assistant" marker, and
      what it decodes to, if it does. */
  datatype Raw = Raw(marked: bool, line: Option<Line>)

  /** The other regular expressions and string clean-ups, and the classification of
      logged errors. */
  datatype Rules = Rules(
    isAnthropic: string -> bool,
    isOpenCodex: string -> bool,
    native: string -> Option<string>,
    effort: string -> string,
    limit: Line -> Option<LimitEvent>)

  datatype Parsed = Parsed(events: seq<UsageEvent>, limits: seq<LimitEvent>, badLines: nat)

  predicate IsAssistant(raw: Raw) {
    raw.marked && raw.line.Some? && raw.line.value.kind == "assistant" && raw.line.value.message.Some?
  }

  predicate IsFailure(raw: Raw) {
    IsAssistant(raw) && raw.line.value.isApiError
  }

  /** A line with a response's usage. */
  predicate IsResponse(raw: Raw) {
    && IsAssistant(raw) && !raw.line.value.isApiError
    && var m := raw.line.value.message.value;
       m.usage.Some? && m.id != "" && m.model != "" && m.model != "<synthetic>"
  }

  function Key(l: Line): string
    requires l.message.Some?
  {
    "claude:" + l.message.value.id + ":" + l.requestId
  }

  /** A gateway's own message id: so many hexadecimal digits. */
  predicate IsHexId(id: string, digits: nat) {
    && |id| == 4 + digits && id[..4] == "msg_"
    && forall i :: 4 <= i < |id| ==> '0' <= id[i] <= '9' || 'a' <= id[i] <= 'f'
  }

  /** The service a request went through, or "" when its line does not show one. */
  function Gateway(model: string, messageId: string, requestId: string, rules: Rules): string {
    if rules.isOpenCodex(model) then "opencodex"
    else if requestId != "" then ""
    else if IsHexId(messageId, 32) then "opencodex"
    else if IsHexId(messageId, 24) then "ollama"
    else ""
  }

  function Output(raw: Raw): int
    requires IsResponse(raw)
  {
    raw.line.value.message.value.usage.value.output
  }

  predicate Has(raw: Raw, key: string) {
    IsResponse(raw) && Key(raw.line.value) == key
  }

  /** The event a response's first line makes. */
  function EventOf(raw: Raw, rules: Rules): (e: UsageEvent)
    requires IsResponse(raw)
    ensures e.dedupeKey == Key(raw.line.value) && e.tokens.output == Output(raw)
  {
    var l := raw.line.value;
    var m, u := l.message.value, l.message.value.usage.value;
    var native := rules.native(m.model);
    UsageEvent(
      Key(l), "", if native.Some? then "openai" else "anthropic", "claude-code", l.entrypoint, l.sessionId,
      if native.Some? then native.value else m.model, l.timestamp,
      Tokens(u.input, u.cacheRead, u.cacheCreation, u.output, 0),
      native.None? && (!rules.isAnthropic(m.model) || rules.isOpenCodex(m.model)),
      Gateway(m.model, m.id, l.requestId, rules), l.requestId, "",
      if l.effort.Some? then rules.effort(l.effort.value) else "", "", false)
  }

  // -------------------------------------------------------------------- Parse

  /** most is the highest output on the response's lines. */
  ghost predicate IsHighest(most: int, raws: seq<Raw>, key: string) {
    && (forall i :: 0 <= i < |raws| && Has(raws[i], key) ==> Output(raws[i]) <= most)
    && exists i :: 0 <= i < |raws| && Has(raws[i], key) && Output(raws[i]) == most
  }

  ghost predicate IsFirst(raws: seq<Raw>, key: string, i: nat) {
    i < |raws| && Has(raws[i], key) && forall j :: 0 <= j < i ==> !Has(raws[j], key)
  }

  /** e is the event of the response whose first line is i. */
  ghost predicate StartsAt(e: UsageEvent, raws: seq<Raw>, rules: Rules, i: nat) {
    && IsFirst(raws, e.dedupeKey, i)
    && e == EventOf(raws[i], rules).(tokens := EventOf(raws[i], rules).tokens.(output := e.tokens.output))
  }

  /** One event of the response: its first line's, but with its highest output. */
  ghost predicate IsEventOf(e: UsageEvent, raws: seq<Raw>, rules: Rules) {
    IsHighest(e.tokens.output, raws, e.dedupeKey) && exists i: nat :: StartsAt(e, raws, rules, i)
  }

  ghost predicate EachIsEvent(events: seq<UsageEvent>, raws: seq<Raw>, rules: Rules) {
    forall k :: 0 <= k < |events| ==> IsEventOf(events[k], raws, rules)
  }

  ghost predicate HasKey(events: seq<UsageEvent>, key: string) {
    exists k :: 0 <= k < |events| && events[k].dedupeKey == key
  }

  ghost predicate EveryResponse(events: seq<UsageEvent>, raws: seq<Raw>) {
    forall i :: 0 <= i < |raws| && IsResponse(raws[i]) ==> HasKey(events, Key(raws[i].line.value))
  }

  /** The events of a transcript: one for each response in it. */
  ghost predicate AreEvents(events: seq<UsageEvent>, raws: seq<Raw>, rules: Rules) {
    EachIsEvent(events, raws, rules) && DistinctKeys(events) && EveryResponse(events, raws)
  }

  function Limits(raws: seq<Raw>, rules: Rules): seq<LimitEvent> {
    if raws == [] then []
    else
      var raw := raws[|raws| - 1];
      var limit := if IsFailure(raw) then rules.limit(raw.line.value) else None;
      Limits(raws[..|raws| - 1], rules) + (if limit.Some? then [limit.value] else [])
  }

  function Unreadable(raws: seq<Raw>): nat {
    |set i | 0 <= i < |raws| && raws[i].marked && raws[i].line.None?|
  }

  lemma UnreadableOneMore(raws: seq<Raw>, raw: Raw)
    ensures Unreadable(raws + [raw]) == Unreadable(raws) + if raw.marked && raw.line.None? then 1 else 0
  {
    var all := raws + [raw];
    var before := set i | 0 <= i < |raws| && raws[i].marked && raws[i].line.None?;
    var after := set i | 0 <= i < |all| && all[i].marked && all[i].line.None?;
    assert after == before + (if raw.marked && raw.line.None? then {|raws|} else {});
  }

  function Raised(e: UsageEvent, output: int): UsageEvent {
    e.(tokens := e.tokens.(output := Max(e.tokens.output, output)))
  }

  /** A line of another response, or of none. */
  lemma OtherEvent(e: UsageEvent, raws: seq<Raw>, raw: Raw, rules: Rules)
    requires IsEventOf(e, raws, rules) && !Has(raw, e.dedupeKey)
    ensures IsEventOf(e, raws + [raw], rules)
  {
    hide EventOf, Key, IsResponse;
    var all := raws + [raw];
    var i: nat :| StartsAt(e, raws, rules, i);
    assert StartsAt(e, all, rules, i);
    HighestStays(e.tokens.output, raws, raw, e.dedupeKey);
  }

  lemma HighestStays(most: int, raws: seq<Raw>, raw: Raw, key: string)
    requires IsHighest(most, raws, key)
    ensures !Has(raw, key) ==> IsHighest(most, raws + [raw], key)
    ensures Has(raw, key) ==> IsHighest(Max(most, Output(raw)), raws + [raw], key)
  {
    hide Key, IsResponse;
    var all := raws + [raw];
    var h :| 0 <= h < |raws| && Has(raws[h], key) && Output(raws[h]) == most;
    assert all[h] == raws[h] && all[|raws|] == raw;
  }

  /** Another line of a response. */
  lemma SameEvent(e: UsageEvent, raws: seq<Raw>, raw: Raw, rules: Rules)
    requires IsEventOf(e, raws, rules) && Has(raw, e.dedupeKey)
    ensures IsEventOf(Raised(e, Output(raw)), raws + [raw], rules)
  {
    hide EventOf, Key, IsResponse;
    var i: nat :| StartsAt(e, raws, rules, i);
    assert StartsAt(Raised(e, Output(raw)), raws + [raw], rules, i);
    HighestStays(e.tokens.output, raws, raw, e.dedupeKey);
  }

  /** The first line of a response. */
  lemma FirstEvent(raws: seq<Raw>, raw: Raw, rules: Rules)
    requires IsResponse(raw) && forall i :: 0 <= i < |raws| ==> !Has(raws[i], Key(raw.line.value))
    ensures IsEventOf(EventOf(raw, rules), raws + [raw], rules)
  {
    hide EventOf, Key;
    var all := raws + [raw];
    assert all[|raws|] == raw && Has(raw, Key(raw.line.value));
    assert StartsAt(EventOf(raw, rules), all, rules, |raws|);
  }

  lemma NoEventYet(events: seq<UsageEvent>, raws: seq<Raw>, raw: Raw, rules: Rules)
    requires AreEvents(events, raws, rules) && IsResponse(raw) && !HasKey(events, Key(raw.line.value))
    ensures AreEvents(events + [EventOf(raw, rules)], raws + [raw], rules)
  {
    var key, all, after := Key(raw.line.value), raws + [raw], events + [EventOf(raw, rules)];
    hide EventOf, Key, IsEventOf;
    assert forall i :: 0 <= i < |raws| ==> !Has(raws[i], key);
    FirstEvent(raws, raw, rules);
    assert EachIsEvent(after, all, rules) by {
      forall k | 0 <= k < |events| ensures IsEventOf(events[k], all, rules) {
        assert HasKey(events, events[k].dedupeKey);
        OtherEvent(events[k], raws, raw, rules);
      }
    }
    hide EachIsEvent, Has;
    assert DistinctKeys(after) by {
      forall k | 0 <= k < |events| ensures events[k].dedupeKey != key {
        assert HasKey(events, events[k].dedupeKey);
      }
    }
    assert after[|events|].dedupeKey == key;
    EveryResponseKept(events, after, raws, raw);
  }

  /** Events of the same keys, and one for the new line, still cover every response. */
  lemma EveryResponseKept(events: seq<UsageEvent>, after: seq<UsageEvent>, raws: seq<Raw>, raw: Raw)
    requires EveryResponse(events, raws) && |events| <= |after|
        && (IsResponse(raw) ==> HasKey(after, Key(raw.line.value)))
    requires forall k :: 0 <= k < |events| ==> after[k].dedupeKey == events[k].dedupeKey
    ensures EveryResponse(after, raws + [raw])
  {
    hide Key;
    var all := raws + [raw];
    forall i | 0 <= i < |all| && IsResponse(all[i]) ensures HasKey(after, Key(all[i].line.value)) {
      if i < |raws| {
        assert all[i] == raws[i];
        var k :| 0 <= k < |events| && events[k].dedupeKey == Key(raws[i].line.value);
        assert after[k].dedupeKey == events[k].dedupeKey;
      }
    }
  }

  lemma EventRaised(events: seq<UsageEvent>, raws: seq<Raw>, raw: Raw, rules: Rules, n: nat)
    requires AreEvents(events, raws, rules) && n < |events| && Has(raw, events[n].dedupeKey)
    ensures AreEvents(events[n := Raised(events[n], Output(raw))], raws + [raw], rules)
  {
    var after := events[n := Raised(events[n], Output(raw))];
    hide IsEventOf, Key, IsResponse;
    SameEvent(events[n], raws, raw, rules);
    forall k | 0 <= k < |events| && k != n ensures IsEventOf(after[k], raws + [raw], rules) {
      assert events[k].dedupeKey != events[n].dedupeKey;
      OtherEvent(events[k], raws, raw, rules);
    }
    assert after[n].dedupeKey == events[n].dedupeKey;
    EveryResponseKept(events, after, raws, raw);
  }

  lemma NothingNew(events: seq<UsageEvent>, raws: seq<Raw>, raw: Raw, rules: Rules)
    requires AreEvents(events, raws, rules) && !IsResponse(raw)
    ensures AreEvents(events, raws + [raw], rules)
  {
    hide IsEventOf, IsResponse;
    forall k | 0 <= k < |events| ensures IsEventOf(events[k], raws + [raw], rules) {
      OtherEvent(events[k], raws, raw, rules);
    }
    EveryResponseKept(events, events, raws, raw);
  }

  /** The map from dedupe keys to positions in the events. */
  ghost predicate Indexes(index: map<string, nat>, events: seq<UsageEvent>) {
    && (forall key :: key in index ==> index[key] < |events| && events[index[key]].dedupeKey == key)
    && (forall k :: 0 <= k < |events| ==> events[k].dedupeKey in index && index[events[k].dedupeKey] == k)
  }

  lemma IndexedKey(index: map<string, nat>, events: seq<UsageEvent>, key: string)
    requires Indexes(index, events)
    ensures key in index <==> HasKey(events, key)
  {
  }

  lemma IndexGrows(index: map<string, nat>, events: seq<UsageEvent>, e: UsageEvent)
    requires Indexes(index, events) && e.dedupeKey !in index
    ensures Indexes(index[e.dedupeKey := |events|], events + [e])
  {
  }

  lemma IndexStays(index: map<string, nat>, events: seq<UsageEvent>, n: nat, e: UsageEvent)
    requires Indexes(index, events) && n < |events| && e.dedupeKey == events[n].dedupeKey
    ensures Indexes(index, events[n := e])
  {
  }

  /** One line's part of the loop. */
  method Read(events: seq<UsageEvent>, index: map<string, nat>, ghost raws: seq<Raw>, raw: Raw, rules: Rules)
    returns (events': seq<UsageEvent>, index': map<string, nat>)
    requires AreEvents(events, raws, rules) && Indexes(index, events) && IsResponse(raw)
    ensures AreEvents(events', raws + [raw], rules) && Indexes(index', events')
  {
    var l := raw.line.value;
    var output := l.message.value.usage.value.output;
    var key := Key(l);
    IndexedKey(index, events, key);
    assert Has(raw, key) && Output(raw) == output;
    hide AreEvents, EventOf, IsResponse, Key, HasKey, Has, Output;
    events', index' := events, index;
    if key in index {
      var n := index[key];
      var e := events[n];
      EventRaised(events, raws, raw, rules, n);
      IndexStays(index, events, n, Raised(e, output));
      if output > e.tokens.output {
        events' := events[n := e.(tokens := e.tokens.(output := output))];
      } else {
        assert events[n := Raised(e, output)] == events;
      }
    } else {
      NoEventYet(events, raws, raw, rules);
      IndexGrows(index, events, EventOf(raw, rules));
      index' := index[key := |events|];
      events' := events + [EventOf(raw, rules)];
    }
  }

  method Parse(raws: seq<Raw>, rules: Rules) returns (r: Parsed)
    ensures AreEvents(r.events, raws, rules)
    ensures r.limits == Limits(raws, rules) && r.badLines == Unreadable(raws)
  {
    var events: seq<UsageEvent>, limits: seq<LimitEvent>, badLines: nat := [], [], 0;
    var index: map<string, nat> := map[];
    for i := 0 to |raws|
      invariant AreEvents(events, raws[..i], rules) && Indexes(index, events)
      invariant limits == Limits(raws[..i], rules) && badLines == Unreadable(raws[..i])
    {
      var raw := raws[i];
      assert raws[..i + 1] == raws[..i] + [raw] && raws[..i + 1][..i] == raws[..i];
      UnreadableOneMore(raws[..i], raw);
      hide AreEvents, EventOf, Unreadable, Key, Indexes;
      if !IsResponse(raw) {
        NothingNew(events, raws[..i], raw, rules);
      }
      if !raw.marked {
        continue;
      }
      if raw.line.None? {
        badLines := badLines + 1;
        continue;
      }
      var l := raw.line.value;
      if l.kind != "assistant" || l.message.None? {
        continue;
      }
      if l.isApiError {
        var limit := rules.limit(l);
        if limit.Some? {
          limits := limits + [limit.value];
        }
        continue;
      }
      var m := l.message.value;
      if m.usage.None? || m.id == "" || m.model == "" || m.model == "<synthetic>" {
        continue;
      }
      events, index := Read(events, index, raws[..i], raw, rules);
    }
    assert raws[..|raws|] == raws;
    r := Parsed(events, limits, badLines);
  }

  // ------------------------------------------------------- growing transcripts

  lemma SameStart(before: UsageEvent, later: UsageEvent, raws: seq<Raw>, more: seq<Raw>, rules: Rules)
    requires IsEventOf(before, raws, rules) && IsEventOf(later, raws + more, rules)
        && before.dedupeKey == later.dedupeKey
    ensures later == before.(tokens := before.tokens.(output := later.tokens.output))
  {
    hide EventOf, Has, IsHighest;
    var all := raws + more;
    var i: nat :| StartsAt(before, raws, rules, i);
    var j: nat :| StartsAt(later, all, rules, j);
    assert forall k :: 0 <= k <= i ==> all[k] == raws[k];
    assert i == j;
  }

  lemma HighestGrows(most: int, later: int, raws: seq<Raw>, more: seq<Raw>, key: string)
    requires IsHighest(most, raws, key) && IsHighest(later, raws + more, key)
    ensures most <= later
  {
    hide Key, IsResponse;
    var h :| 0 <= h < |raws| && Has(raws[h], key) && Output(raws[h]) == most;
    assert (raws + more)[h] == raws[h];
  }

  /** While a transcript grows, a response's event keeps everything but its
      output, and that never falls. */
  lemma GrowingTranscript(before: UsageEvent, after: seq<UsageEvent>, raws: seq<Raw>, more: seq<Raw>, rules: Rules)
    returns (k: nat)
    requires IsEventOf(before, raws, rules) && AreEvents(after, raws + more, rules)
    ensures k < |after| && after[k].tokens.output >= before.tokens.output
    ensures after[k] == before.(tokens := before.tokens.(output := after[k].tokens.output))
  {
    assert HasKey(after, before.dedupeKey) by {
      hide EventOf, Key, IsResponse;
      var i: nat :| StartsAt(before, raws, rules, i);
      assert (raws + more)[i] == raws[i];
    }
    k :| 0 <= k < |after| && after[k].dedupeKey == before.dedupeKey;
    hide IsHighest, StartsAt;
    assert IsEventOf(after[k], raws + more, rules);
    SameStart(before, after[k], raws, more, rules);
    HighestGrows(before.tokens.output, after[k].tokens.output, raws, more, before.dedupeKey);
  }

  function Colons(s: string): nat {
    if s == "" then 0 else Colons(s[..|s| - 1]) + if s[|s| - 1] == ':' then 1 else 0
  }

  lemma {:induction false} ColonsConcat(a: string, b: string)
    ensures Colons(a + b) == Colons(a) + Colons(b)
  {
    if b == "" {
      assert a + b == a;
    } else {
      var n := |b| - 1;
      assert (a + b)[..|a + b| - 1] == a + b[..n];
      ColonsConcat(a, b[..n]);
    }
  }

  /** A key names one message and one request among message ids of equally many
      colons, as ids without any are, and among no others. */
  lemma KeyNamesOne(a: Line, b: Line)
    requires a.message.Some? && b.message.Some?
    ensures var x, y := a.message.value.id, b.message.value.id;
            && (x == y && a.requestId == b.requestId ==> Key(a) == Key(b))
            && (Key(a) == Key(b) ==> (x == y && a.requestId == b.requestId <==> Colons(x) == Colons(y)))
  {
    if Key(a) == Key(b) {
      var x, y := a.message.value.id, b.message.value.id;
      assert Key(a)[7..] == x + ":" + a.requestId && Key(b)[7..] == y + ":" + b.requestId;
      SameCut(x, a.requestId, y, b.requestId);
    }
    hide Key, Colons;
  }

  lemma SameCut(x: string, p: string, y: string, q: string)
    requires x + ":" + p == y + ":" + q
    ensures x == y && p == q <==> Colons(x) == Colons(y)
  {
    if |x| < |y| {
      ShorterCut(x, p, y, q);
    } else if |y| < |x| {
      ShorterCut(y, q, x, p);
    } else {
      var s := x + ":" + p;
      assert s[..|x|] == x && s[..|y|] == y && s[|x| + 1..] == p && s[|y| + 1..] == q;
    }
    hide Colons;
  }

  lemma ShorterCut(x: string, p: string, y: string, q: string)
    requires x + ":" + p == y + ":" + q && |x| < |y|
    ensures Colons(x) < Colons(y)
  {
    var s := x + ":" + p;
    assert s[..|y|] == y && s[..|x|] == x && s[|x|] == ':';
    assert y == x + ":" + y[|x| + 1..];
    ColonsConcat(x, ":");
    ColonsConcat(x + ":", y[|x| + 1..]);
    assert ":"[..0] == "";
  }

  // --------------------------------------------------------------- what events say

  /** The line's use of the model, whatever came before it. */
  ghost predicate IsUse(raw: Raw, l: Line, m: Message, u: Usage) {
    && raw == Raw(true, Some(l)) && l.kind == "assistant" && !l.isApiError
    && l.message == Some(m) && m.usage == Some(u) && m.id != "" && m.model !in {"", "<synthetic>"}
  }

  /** Column by column, what an event takes from its first line and what from
      the rules: cache counts apart from the input, and the model's own service
      unless a ChatGPT account answered for it. */
  ghost predicate Tells(e: UsageEvent, l: Line, m: Message, u: Usage, rules: Rules) {
    && e.dedupeKey == "claude:" + m.id + ":" + l.requestId && e.product == "claude-code"
    && e.originator == l.entrypoint && e.session == l.sessionId && e.requestId == l.requestId
    && e.occurredAt == l.timestamp
    && e.tokens.input == u.input && e.tokens.cachedInput == u.cacheRead && e.tokens.cacheWrite == u.cacheCreation
    && e.tokens.reasoning == 0 && e.effort == (if l.effort.Some? then rules.effort(l.effort.value) else "")
    && !e.aggregated && e.accountRef == e.parentRequestId == e.status == ""
    && match rules.native(m.model)
       case Some(name) => e.provider == "openai" && e.model == name && !e.thirdParty
       case None =>
         && e.provider == "anthropic" && e.model == m.model
         && (e.thirdParty <==> rules.isOpenCodex(m.model) || !rules.isAnthropic(m.model))
  }

  /** A gateway is named only by a model that OpenCodex names or, without a
      request id, by a message id of its own. */
  ghost predicate TellsGateway(e: UsageEvent, l: Line, m: Message, rules: Rules) {
    && (e.gateway == "opencodex" <==> rules.isOpenCodex(m.model) || (l.requestId == "" && IsHexId(m.id, 32)))
    && (e.gateway == "ollama" <==> !rules.isOpenCodex(m.model) && l.requestId == "" && IsHexId(m.id, 24))
    && e.gateway in {"", "opencodex", "ollama"}
  }

  ghost predicate UseOf(key: string, raw: Raw, l: Line, m: Message, u: Usage) {
    IsUse(raw, l, m, u) && "claude:" + m.id + ":" + l.requestId == key
  }

  /** The highest output of the uses with the key. */
  ghost predicate Peaks(most: int, raws: seq<Raw>, key: string) {
    && (forall j, l, m, u :: 0 <= j < |raws| && UseOf(key, raws[j], l, m, u) ==> u.output <= most)
    && exists j, l, m, u :: 0 <= j < |raws| && UseOf(key, raws[j], l, m, u) && u.output == most
  }

  /** An event tells what the first line of its response says, and the highest
      output of all of them. */
  lemma EventColumns(e: UsageEvent, raws: seq<Raw>, rules: Rules)
      returns (i: nat, l: Line, m: Message, u: Usage)
    requires IsEventOf(e, raws, rules)
    ensures i < |raws| && UseOf(e.dedupeKey, raws[i], l, m, u) && Tells(e, l, m, u, rules)
    ensures TellsGateway(e, l, m, rules) && Peaks(e.tokens.output, raws, e.dedupeKey)
    ensures forall j: nat, l', m', u' :: j < |raws| && UseOf(e.dedupeKey, raws[j], l', m', u') ==> i <= j
  {
    hide Gateway, Peaks, IsHighest;
    i :| StartsAt(e, raws, rules, i);
    l := raws[i].line.value;
    m := l.message.value;
    u := m.usage.value;
    GatewayTold(e, l, m, rules);
    HighestPeaks(e.tokens.output, raws, e.dedupeKey);
    hide Tells, TellsGateway, EventOf;
    forall j: nat, l', m', u' | j < |raws| && UseOf(e.dedupeKey, raws[j], l', m', u') ensures i <= j {
      assert Has(raws[j], e.dedupeKey);
    }
  }

  lemma HighestPeaks(most: int, raws: seq<Raw>, key: string)
    requires IsHighest(most, raws, key)
    ensures Peaks(most, raws, key)
  {
    forall j, l, m, u | 0 <= j < |raws| && UseOf(key, raws[j], l, m, u) ensures u.output <= most {
      assert Has(raws[j], key);
    }
    var h :| 0 <= h < |raws| && Has(raws[h], key) && Output(raws[h]) == most;
    var l := raws[h].line.value;
    assert UseOf(key, raws[h], l, l.message.value, l.message.value.usage.value);
  }

  lemma GatewayTold(e: UsageEvent, l: Line, m: Message, rules: Rules)
    requires e.gateway == Gateway(m.model, m.id, l.requestId, rules)
    ensures TellsGateway(e, l, m, rules)
  {
  }

  /** Every use of a model has its event. */
  lemma UseHasEvent(events: seq<UsageEvent>, raws: seq<Raw>, rules: Rules, i: nat, l: Line, m: Message, u: Usage)
    requires AreEvents(events, raws, rules) && i < |raws| && IsUse(raws[i], l, m, u)
    ensures exists e :: e in events && e.dedupeKey == "claude:" + m.id + ":" + l.requestId
  {
    hide EventOf, IsEventOf;
    assert HasKey(events, Key(l));
    var k :| 0 <= k < |events| && events[k].dedupeKey == Key(l);
    assert events[k] in events;
  }

  lemma {:induction false} LimitsConcat(a: seq<Raw>, b: seq<Raw>, rules: Rules)
    ensures Limits(a + b, rules) == Limits(a, rules) + Limits(b, rules)
  {
    if b == [] {
      assert a + b == a;
    } else {
      var n := |b| - 1;
      LimitsConcat(a, b[..n], rules);
      assert (a + b)[..|a + b| - 1] == a + b[..n];
      hide IsFailure;
    }
  }

  /** Only an assistant's message marked as an API error is a limit. */
  lemma LimitsOne(raw: Raw, rules: Rules)
    ensures var failed := raw.marked && raw.line.Some? && raw.line.value.kind == "assistant"
                          && raw.line.value.message.Some? && raw.line.value.isApiError;
      Limits([raw], rules)
      == if failed && rules.limit(raw.line.value).Some? then [rules.limit(raw.line.value).value] else []
  {
    assert [raw][..0] == [] && Limits([], rules) == [];
  }
}
