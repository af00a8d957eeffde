/** Codex session rollouts, from decoded lines on: Parse of
    internal/provider/openai/codex/rollout/rollout.go. */
module Rollouts {
  import opened Records

  /** OpenAI's own counts, in which cached input is part of the input. */
  datatype TokenUsage = TokenUsage(
    input: int, cached: int, cacheWrite: int, output: int, reasoning: int, total: int)

  datatype Line =
    | Unreadable
    | Meta(id: string, sessionId: string, originator: string, modelProvider: string)
    | Turn(model: string)
    | Request(responseId: string, recordSession: string, usage: TokenUsage, thread: TokenUsage, requestAt: Time)
    | TokenCount(info: Option<Info>, snapshot: Option<Snapshot>, countAt: Time)
    | Other

  datatype Info = Info(total: TokenUsage, last: TokenUsage)

  datatype Rollout = Rollout(
    sessionId: string, skipped: bool, events: seq<UsageEvent>, snapshots: seq<Snapshot>, badLines: nat)

  function Sub(u: TokenUsage, o: TokenUsage): TokenUsage {
    TokenUsage(u.input - o.input, u.cached - o.cached, u.cacheWrite - o.cacheWrite, u.output - o.output,
               u.reasoning - o.reasoning, u.total - o.total)
  }

  /** The ledger's counts, in which input excludes cached input. */
  function Converted(u: TokenUsage): Tokens {
    Tokens(u.input - u.cached, u.cached, u.cacheWrite, u.output, u.reasoning)
  }

  /** Go's cmp.Or. */
  function Or(a: string, b: string): string {
    if a != "" then a else b
  }

  predicate Foreign(l: Line) {
    l.Meta? && l.modelProvider != "" && l.modelProvider != "openai"
  }

  // -------------------------------------------------------- numbers in keys

  function Digit(d: nat): char
    requires d < 10
  {
    ('0' as int + d) as char
  }

  function Digits(n: nat): (s: string)
    ensures s != "" && forall i :: 0 <= i < |s| ==> '0' <= s[i] <= '9'
  {
    if n < 10 then [Digit(n)] else Digits(n / 10) + [Digit(n % 10)]
  }

  function Decimal(n: int): (s: string)
    ensures forall i :: 0 <= i < |s| ==> s[i] != ':'
  {
    if n < 0 then "-" + Digits(-n) else Digits(n)
  }

  function Value(s: string): int {
    if s == "" then 0 else Value(s[..|s| - 1]) * 10 + (s[|s| - 1] as int - '0' as int)
  }

  lemma {:induction false} ValueOfDigits(n: nat)
    ensures Value(Digits(n)) == n
  {
    if n < 10 {
      assert [Digit(n)][..0] == "";
      assert Value("") == 0;
    } else {
      var s := Digits(n / 10) + [Digit(n % 10)];
      assert s[..|s| - 1] == Digits(n / 10);
      ValueOfDigits(n / 10);
    }
  }

  lemma DecimalTells(m: int, n: int)
    requires Decimal(m) == Decimal(n)
    ensures m == n
  {
    ValueOfDigits(if m < 0 then -m else m);
    ValueOfDigits(if n < 0 then -n else n);
    if m < 0 {
      assert Decimal(m)[0] == '-' && Decimal(m)[1..] == Digits(-m);
    }
    if n < 0 {
      assert Decimal(n)[0] == '-' && Decimal(n)[1..] == Digits(-n);
    }
  }

  function TotalKey(session: string, total: int): string {
    "codex:" + session + ":tc:" + Decimal(total)
  }

  /** What precedes and what follows the last colon. */
  lemma SameSuffix(p: string, d: string, q: string, e: string)
    requires p + ":" + d == q + ":" + e
    requires (forall i :: 0 <= i < |d| ==> d[i] != ':') && (forall i :: 0 <= i < |e| ==> e[i] != ':')
    ensures p == q && d == e
  {
    var s := p + ":" + d;
    assert s[|p|] == ':' && s[|q|] == ':' && s[|p| + 1..] == d && s[|q| + 1..] == e;
    assert forall i :: |p| < i < |s| ==> s[i] == d[i - |p| - 1];
    assert forall i :: |q| < i < |s| ==> s[i] == e[i - |q| - 1];
    assert s[..|p|] == p && s[..|q|] == q;
  }

  /** A key names its session and its total. */
  lemma TotalKeyTells(s: string, m: int, t: string, n: int)
    requires TotalKey(s, m) == TotalKey(t, n)
    ensures s == t && m == n
  {
    var p, q := "codex:" + s + ":tc", "codex:" + t + ":tc";
    assert TotalKey(s, m) == p + ":" + Decimal(m) && TotalKey(t, n) == q + ":" + Decimal(n);
    SameSuffix(p, Decimal(m), q, Decimal(n));
    DecimalTells(m, n);
    assert p[6..|p| - 3] == s && q[6..|q| - 3] == t;
  }

  // --------------------------------------------------- what the lines have set

  function Session(lines: seq<Line>): string {
    if lines == [] then ""
    else
      var l := lines[|lines| - 1];
      if l.Meta? then Or(l.sessionId, l.id) else Session(lines[..|lines| - 1])
  }

  function Originator(lines: seq<Line>): string {
    if lines == [] then ""
    else
      var l := lines[|lines| - 1];
      if l.Meta? then l.originator else Originator(lines[..|lines| - 1])
  }

  function Model(lines: seq<Line>): string {
    if lines == [] then "unknown"
    else
      var l := lines[|lines| - 1];
      if l.Turn? && l.model != "" then l.model else Model(lines[..|lines| - 1])
  }

  predicate IsBad(l: Line) {
    l.Unreadable? || (l.Request? && l.responseId == "" && l.thread.total <= 0)
  }

  function BadLines(lines: seq<Line>): nat {
    if lines == [] then 0 else BadLines(lines[..|lines| - 1]) + if IsBad(lines[|lines| - 1]) then 1 else 0
  }

  function Snapshots(lines: seq<Line>): seq<Snapshot> {
    if lines == [] then []
    else
      var l := lines[|lines| - 1];
      var before := Snapshots(lines[..|lines| - 1]);
      if l.TokenCount? && l.snapshot.Some? then before + [l.snapshot.value] else before
  }

  function BareEvent(key: string, session: string, requestId: string, model: string, at: Time, tokens: Tokens,
                     aggregated: bool): UsageEvent {
    UsageEvent(key, "", "", "", "", session, model, at, tokens, false, "", requestId, "", "", "", aggregated)
  }

  /** The event of a request line, given the session and model so far. */
  function RequestEvent(l: Line, session: string, model: string): UsageEvent
    requires l.Request?
  {
    var owner := Or(l.recordSession, session);
    BareEvent(if l.responseId != "" then "codex:" + l.responseId else TotalKey(owner, l.thread.total),
              owner, l.responseId, model, l.requestAt, Converted(l.usage), false)
  }

  function Requests(lines: seq<Line>): seq<UsageEvent> {
    if lines == [] then []
    else
      var l, rest := lines[|lines| - 1], lines[..|lines| - 1];
      if l.Request? && !IsBad(l) then Requests(rest) + [RequestEvent(l, Session(rest), Model(rest))] else Requests(rest)
  }

  /** A cumulative count, with the session and model of its line. */
  datatype Count = Count(info: Info, session: string, model: string, at: Time)

  function Counts(lines: seq<Line>): seq<Count> {
    if lines == [] then []
    else
      var l, rest := lines[|lines| - 1], lines[..|lines| - 1];
      if l.TokenCount? && l.info.Some? then Counts(rest) + [Count(l.info.value, Session(rest), Model(rest), l.countAt)]
      else Counts(rest)
  }

  // ------------------------------------------------------ the cumulative counts

  /** What the session inherited: the first total without its latest request. */
  function Base(counts: seq<Count>): TokenUsage
    requires counts != []
  {
    Sub(counts[0].info.total, counts[0].info.last)
  }

  /** What a count is measured from: the last total taken, or what was inherited. */
  function Before(counts: seq<Count>, c: Count): TokenUsage
    decreases |counts|, 1
  {
    if counts == [] then Sub(c.info.total, c.info.last) else Taken(counts)
  }

  predicate Exceeds(c: Count, before: TokenUsage) {
    c.info.total.total > before.total
  }

  /** The last total taken: each that exceeds the one taken before it. */
  function Taken(counts: seq<Count>): TokenUsage
    requires counts != []
    decreases |counts|, 0
  {
    var n := |counts| - 1;
    var before := Before(counts[..n], counts[n]);
    if Exceeds(counts[n], before) then counts[n].info.total else before
  }

  /** The event of a count that exceeds what was taken before. */
  function CountEvent(c: Count, before: TokenUsage): UsageEvent {
    BareEvent(TotalKey(c.session, c.info.total.total), c.session, "", c.model, c.at,
        Converted(Sub(c.info.total, before)), true)
  }

  function Fallback(counts: seq<Count>): seq<UsageEvent> {
    if counts == [] then []
    else
      var n := |counts| - 1;
      var before := Before(counts[..n], counts[n]);
      if Exceeds(counts[n], before) then Fallback(counts[..n]) + [CountEvent(counts[n], before)]
          else Fallback(counts[..n])
  }

  // -------------------------------------------------------------------- Parse

  function Finished(e: UsageEvent, originator: string): UsageEvent {
    var routed := '/' in e.model;
    e.(provider := "openai", product := "codex", originator := originator,
       thirdParty := e.thirdParty || routed, gateway := if routed then "opencodex" else e.gateway)
  }

  function AllFinished(events: seq<UsageEvent>, originator: string): (r: seq<UsageEvent>)
    ensures |r| == |events| && forall i :: 0 <= i < |r| ==> r[i] == Finished(events[i], originator)
  {
    seq(|events|, i requires 0 <= i < |events| => Finished(events[i], originator))
  }

  /** The events of a rollout: its request records, or, without any, its cumulative counts. */
  function Events(lines: seq<Line>): seq<UsageEvent> {
    AllFinished(if Requests(lines) != [] then Requests(lines) else Fallback(Counts(lines)), Originator(lines))
  }

  // ------------------------------------------------------ what the lines say

  /** k is the last of the first n lines that satisfies the test; -1 when none does. */
  ghost predicate IsLast(lines: seq<Line>, n: nat, test: Line -> bool, k: int)
    requires n <= |lines|
  {
    && -1 <= k < n && (k >= 0 ==> test(lines[k])) && forall j :: k < j < n ==> !test(lines[j])
  }

  predicate IsMeta(l: Line) { l.Meta? }

  predicate NamesModel(l: Line) { l.Turn? && l.model != "" }

  /** The session and originator in force are those of the last session line,
      the model that of the last turn that names one. */
  lemma {:induction false} InForce(lines: seq<Line>) returns (meta: int, turn: int)
    ensures IsLast(lines, |lines|, IsMeta, meta) && IsLast(lines, |lines|, NamesModel, turn)
    ensures Session(lines) == if meta < 0 then "" else if lines[meta].sessionId != "" then lines[meta].sessionId
                              else lines[meta].id
    ensures Originator(lines) == if meta < 0 then "" else lines[meta].originator
    ensures Model(lines) == if turn < 0 then "unknown" else lines[turn].model
  {
    meta, turn := -1, -1;
    if lines != [] {
      var n := |lines| - 1;
      meta, turn := InForce(lines[..n]);
      if IsMeta(lines[n]) {
        meta := n;
      }
      if NamesModel(lines[n]) {
        turn := n;
      }
    }
  }

  /** A line is bad when it cannot be read, or is a record that nothing names. */
  ghost function Bad(lines: seq<Line>): set<nat> {
    set i: nat | i < |lines| &&
      (lines[i].Unreadable? || (lines[i].Request? && lines[i].responseId == "" && lines[i].thread.total <= 0))
  }

  lemma {:induction false} BadLinesAre(lines: seq<Line>)
    ensures BadLines(lines) == |Bad(lines)|
  {
    if lines == [] {
      assert Bad(lines) == {};
    } else {
      var n := |lines| - 1;
      BadLinesAre(lines[..n]);
      assert Bad(lines) == Bad(lines[..n]) + if IsBad(lines[n]) then {n} else {};
    }
  }

  /** Lines picked in order, all that satisfy the test and no other. */
  ghost predicate PicksAll(lines: seq<Line>, at: seq<nat>, test: Line -> bool) {
    && (forall i, j :: 0 <= i < j < |at| ==> at[i] < at[j])
    && (forall i :: 0 <= i < |at| ==> at[i] < |lines| && test(lines[at[i]]))
    && (forall n: nat :: n < |lines| && test(lines[n]) ==> n in at)
  }

  lemma PicksOneMore(lines: seq<Line>, at: seq<nat>, test: Line -> bool)
    requires lines != [] && PicksAll(lines[..|lines| - 1], at, test)
    ensures PicksAll(lines, at + if test(lines[|lines| - 1]) then [|lines| - 1] else [], test)
  {
    var n: nat := |lines| - 1;
    var more := at + if test(lines[n]) then [n] else [];
    assert forall k :: k in at ==> k in more;
    assert test(lines[n]) ==> n in more;
  }

  predicate IsNamedRecord(l: Line) {
    l.Request? && (l.responseId != "" || l.thread.total > 0)
  }

  predicate IsCount(l: Line) {
    l.TokenCount? && l.info.Some?
  }

  predicate IsReading(l: Line) {
    l.TokenCount? && l.snapshot.Some?
  }

  function RecordAt(lines: seq<Line>, k: nat): UsageEvent
    requires k < |lines| && IsNamedRecord(lines[k])
  {
    RequestEvent(lines[k], Session(lines[..k]), Model(lines[..k]))
  }

  function CountAt(lines: seq<Line>, k: nat): Count
    requires k < |lines| && IsCount(lines[k])
  {
    Count(lines[k].info.value, Session(lines[..k]), Model(lines[..k]), lines[k].countAt)
  }

  function ReadingAt(lines: seq<Line>, k: nat): Snapshot
    requires k < |lines| && IsReading(lines[k])
  {
    lines[k].snapshot.value
  }

  /** The listed events are those of the picked lines. */
  ghost predicate RecordsAt(listed: seq<UsageEvent>, lines: seq<Line>, at: seq<nat>) {
    |at| == |listed| && forall i :: 0 <= i < |at| ==>
      at[i] < |lines| && IsNamedRecord(lines[at[i]]) && listed[i] == RecordAt(lines, at[i])
  }

  lemma RecordsAtOneMore(listed: seq<UsageEvent>, lines: seq<Line>, at: seq<nat>)
    requires lines != [] && RecordsAt(listed, lines[..|lines| - 1], at)
    ensures var n := |lines| - 1;
            if IsNamedRecord(lines[n]) then RecordsAt(listed + [RecordAt(lines, n)], lines, at + [n])
            else RecordsAt(listed, lines, at)
  {
    hide Session, Model, IsNamedRecord, RequestEvent;
    forall i | 0 <= i < |at| ensures listed[i] == RecordAt(lines, at[i]) && IsNamedRecord(lines[at[i]]) {
      assert lines[..|lines| - 1][..at[i]] == lines[..at[i]];
    }
  }

  /** The events of records are those of the named records' lines, in order, each
      under the session and model in force before it. */
  lemma {:induction false} RecordsFrom(lines: seq<Line>) returns (at: seq<nat>)
    ensures PicksAll(lines, at, IsNamedRecord) && RecordsAt(Requests(lines), lines, at)
  {
    at := [];
    if lines != [] {
      var n := |lines| - 1;
      var before := RecordsFrom(lines[..n]);
      ListsOneMore(lines, n);
      assert lines[..n + 1] == lines;
      hide Requests, Counts, Snapshots, PicksAll, RecordsAt, Session, Model;
      PicksOneMore(lines, before, IsNamedRecord);
      RecordsAtOneMore(Requests(lines[..n]), lines, before);
      at := if IsNamedRecord(lines[n]) then before + [n] else before;
      assert !IsNamedRecord(lines[n]) ==> before + [] == before;
    }
  }

  /** The listed counts are those of the picked lines. */
  ghost predicate CountsAt(listed: seq<Count>, lines: seq<Line>, at: seq<nat>) {
    |at| == |listed| && forall i :: 0 <= i < |at| ==>
      at[i] < |lines| && IsCount(lines[at[i]]) && listed[i] == CountAt(lines, at[i])
  }

  lemma CountsAtOneMore(listed: seq<Count>, lines: seq<Line>, at: seq<nat>)
    requires lines != [] && CountsAt(listed, lines[..|lines| - 1], at)
    ensures var n := |lines| - 1;
            if IsCount(lines[n]) then CountsAt(listed + [CountAt(lines, n)], lines, at + [n])
            else CountsAt(listed, lines, at)
  {
    hide Session, Model, IsCount;
    forall i | 0 <= i < |at| ensures listed[i] == CountAt(lines, at[i]) && IsCount(lines[at[i]]) {
      assert lines[..|lines| - 1][..at[i]] == lines[..at[i]];
    }
  }

  /** So are the cumulative counts. */
  lemma {:induction false} CountsFrom(lines: seq<Line>) returns (at: seq<nat>)
    ensures PicksAll(lines, at, IsCount) && CountsAt(Counts(lines), lines, at)
  {
    at := [];
    if lines != [] {
      var n := |lines| - 1;
      var before := CountsFrom(lines[..n]);
      ListsOneMore(lines, n);
      assert lines[..n + 1] == lines;
      hide Requests, Counts, Snapshots, PicksAll, CountsAt, Session, Model;
      PicksOneMore(lines, before, IsCount);
      CountsAtOneMore(Counts(lines[..n]), lines, before);
      at := if IsCount(lines[n]) then before + [n] else before;
      assert !IsCount(lines[n]) ==> before + [] == before;
    }
  }

  /** The listed snapshots are those of the picked lines. */
  ghost predicate ReadingsAt(listed: seq<Snapshot>, lines: seq<Line>, at: seq<nat>) {
    |at| == |listed| && forall i :: 0 <= i < |at| ==>
      at[i] < |lines| && IsReading(lines[at[i]]) && listed[i] == ReadingAt(lines, at[i])
  }

  lemma ReadingsAtOneMore(listed: seq<Snapshot>, lines: seq<Line>, at: seq<nat>)
    requires lines != [] && ReadingsAt(listed, lines[..|lines| - 1], at)
    ensures var n := |lines| - 1;
            if IsReading(lines[n]) then ReadingsAt(listed + [ReadingAt(lines, n)], lines, at + [n])
            else ReadingsAt(listed, lines, at)
  {
    hide Session, Model, IsReading;
    forall i | 0 <= i < |at| ensures listed[i] == ReadingAt(lines, at[i]) && IsReading(lines[at[i]]) {
      assert lines[..|lines| - 1][..at[i]] == lines[..at[i]];
    }
  }

  /** And the readings are those of their lines, in order. */
  lemma {:induction false} ReadingsFrom(lines: seq<Line>) returns (at: seq<nat>)
    ensures PicksAll(lines, at, IsReading) && ReadingsAt(Snapshots(lines), lines, at)
  {
    at := [];
    if lines != [] {
      var n := |lines| - 1;
      var before := ReadingsFrom(lines[..n]);
      ListsOneMore(lines, n);
      assert lines[..n + 1] == lines;
      hide Requests, Counts, Snapshots, PicksAll, ReadingsAt, Session, Model;
      PicksOneMore(lines, before, IsReading);
      ReadingsAtOneMore(Snapshots(lines[..n]), lines, before);
      at := if IsReading(lines[n]) then before + [n] else before;
      assert !IsReading(lines[n]) ==> before + [] == before;
    }
  }

  lemma CountOneMore(counts: seq<Count>, c: Count)
    ensures var before, all := Before(counts, c), counts + [c];
            && Taken(all) == (if Exceeds(c, before) then c.info.total else before)
            && Fallback(all) == (if Exceeds(c, before) then Fallback(counts) + [CountEvent(c, before)]
                else Fallback(counts))
            && Base(all) == (if counts == [] then before else Base(counts))
  {
    hide CountEvent, Sub;
    var all := counts + [c];
    assert all[..|counts|] == counts && all[|counts|] == c;
    assert counts != [] ==> all[0] == counts[0];
  }

  lemma LineOneMore(lines: seq<Line>, i: nat)
    requires i < |lines|
    ensures var l, rest, all := lines[i], lines[..i], lines[..i + 1];
            && Session(all) == (if l.Meta? then Or(l.sessionId, l.id) else Session(rest))
            && Originator(all) == (if l.Meta? then l.originator else Originator(rest))
            && Model(all) == (if l.Turn? && l.model != "" then l.model else Model(rest))
            && BadLines(all) == BadLines(rest) + (if IsBad(l) then 1 else 0)
  {
    assert lines[..i + 1][..i] == lines[..i];
  }

  lemma ListsOneMore(lines: seq<Line>, i: nat)
    requires i < |lines|
    ensures var l, rest, all := lines[i], lines[..i], lines[..i + 1];
            && Snapshots(all) == (if l.TokenCount? && l.snapshot.Some? then Snapshots(rest) + [l.snapshot.value]
                else Snapshots(rest))
            && Requests(all) == (if l.Request? && !IsBad(l)
                then Requests(rest) + [RequestEvent(l, Session(rest), Model(rest))]
                                 else Requests(rest))
            && Counts(all) == if l.TokenCount? && l.info.Some?
                              then Counts(rest) + [Count(l.info.value, Session(rest), Model(rest), l.countAt)]
                                  else Counts(rest)
  {
    hide RequestEvent, Session, Model;
    assert lines[..i + 1][..i] == lines[..i];
  }

  /** The loop's variables. */
  datatype State = State(
    session: string, originator: string, model: string, snapshots: seq<Snapshot>, badLines: nat,
    records: seq<UsageEvent>, fallback: seq<UsageEvent>, prevTotal: Option<TokenUsage>)

  const START := State("", "", "unknown", [], 0, [], [], None)

  ghost predicate Stands(v: State, lines: seq<Line>) {
    && v.session == Session(lines) && v.originator == Originator(lines) && v.model == Model(lines)
    && v.snapshots == Snapshots(lines) && v.badLines == BadLines(lines) && v.records == Requests(lines)
    && v.fallback == Fallback(Counts(lines))
    && v.prevTotal == if Counts(lines) == [] then None else Some(Taken(Counts(lines)))
  }

  /** The token_count case. */
  method TakeCount(v: State, info: Info, at: Time, ghost counts: seq<Count>) returns (v': State)
    requires v.fallback == Fallback(counts) && v.prevTotal == if counts == [] then None else Some(Taken(counts))
    ensures var all := counts + [Count(info, v.session, v.model, at)];
            v' == v.(fallback := Fallback(all), prevTotal := Some(Taken(all)))
  {
    CountOneMore(counts, Count(info, v.session, v.model, at));
    hide Fallback, Taken, Sub;
    var total := info.total;
    var before := if v.prevTotal.None? then Sub(total, info.last) else v.prevTotal.value;
    v' := v.(prevTotal := Some(before));
    if total.total <= before.total {
      return;
    }
    v' := v'.(fallback := v.fallback + [BareEvent(TotalKey(v.session, total.total), v.session, "", v.model, at,
        Converted(Sub(total, before)), true)],
              prevTotal := Some(total));
  }

  /** The token record case. */
  method TakeRequest(v: State, l: Line) returns (v': State)
    requires l.Request?
    ensures v' == if IsBad(l) then v.(badLines := v.badLines + 1)
                  else v.(records := v.records + [RequestEvent(l, v.session, v.model)])
  {
    hide TotalKey, Converted;
    var key := "codex:" + l.responseId;
    if l.responseId == "" {
      if l.thread.total <= 0 {
        return v.(badLines := v.badLines + 1);
      }
      key := TotalKey(Or(l.recordSession, v.session), l.thread.total);
    }
    v' := v.(records := v.records + [BareEvent(key, Or(l.recordSession, v.session), l.responseId, v.model, l.requestAt,
        Converted(l.usage), false)]);
  }

  /** One line's part of the loop. */
  method Read(v: State, l: Line, ghost lines: seq<Line>, ghost i: nat) returns (v': State)
    requires i < |lines| && l == lines[i] && !Foreign(l) && Stands(v, lines[..i])
    ensures Stands(v', lines[..i + 1])
  {
    LineOneMore(lines, i);
    ListsOneMore(lines, i);
    hide Session, Originator, Model, Snapshots, BadLines, Requests, Counts, Fallback, Taken, Before, RequestEvent;
    v' := v;
    match l {
      case Unreadable =>
        v' := v'.(badLines := v'.badLines + 1);
      case Meta(id, sessionId, originator, modelProvider) =>
        v' := v'.(session := Or(sessionId, id), originator := originator);
      case Turn(model) =>
        if model != "" {
          v' := v'.(model := model);
        }
      case Request(_, _, _, _, _) =>
        v' := TakeRequest(v, l);
      case TokenCount(info, snapshot, at) =>
        if snapshot.Some? {
          v' := v'.(snapshots := v'.snapshots + [snapshot.value]);
        }
        if info.Some? {
          v' := TakeCount(v', info.value, at, Counts(lines[..i]));
        }
      case Other =>
    }
  }

  /** Another provider's session, of which nothing is read. */
  ghost predicate Skipped(lines: seq<Line>) {
    exists i :: 0 <= i < |lines| && Foreign(lines[i])
  }

  ghost function Parsed(lines: seq<Line>): seq<UsageEvent> {
    if Skipped(lines) then [] else Events(lines)
  }

  method Parse(lines: seq<Line>) returns (r: Rollout)
    ensures r.skipped <==> Skipped(lines)
    ensures r.events == Parsed(lines)
    ensures !r.skipped ==> r == Rollout(Session(lines), false, Events(lines), Snapshots(lines), BadLines(lines))
    ensures r.skipped ==>
        exists i :: 0 <= i < |lines| && Foreign(lines[i]) && r == Rollout(Session(lines[..i + 1]), true, [], [], 0)
  {
    var v := START;
    for i := 0 to |lines|
      invariant forall j :: 0 <= j < i ==> !Foreign(lines[j])
      invariant Stands(v, lines[..i])
    {
      if Foreign(lines[i]) {
        LineOneMore(lines, i);
        return Rollout(Or(lines[i].sessionId, lines[i].id), true, [], [], 0);
      }
      hide Stands, Foreign;
      v := Read(v, lines[i], lines, i);
    }
    assert lines[..|lines|] == lines;
    var events := if v.records == [] then v.fallback else v.records;
    events := Finish(events, v.originator);
    r := Rollout(v.session, false, events, v.snapshots, v.badLines);
  }

  /** Parse's last loop. */
  method Finish(bare: seq<UsageEvent>, originator: string) returns (events: seq<UsageEvent>)
    ensures events == AllFinished(bare, originator)
  {
    events := bare;
    for i := 0 to |events|
      invariant |events| == |bare|
      invariant forall j :: i <= j < |bare| ==> events[j] == bare[j]
      invariant forall j :: 0 <= j < i ==> events[j] == Finished(bare[j], originator)
    {
      var e := events[i].(provider := "openai", product := "codex", originator := originator);
      if '/' in e.model {
        e := e.(thirdParty := true, gateway := "opencodex");
      }
      events := events[i := e];
    }
  }

  // --------------------------------------------- nothing lost, nothing doubled

  /** Count i exceeds what was inherited and every count before it. */
  ghost predicate IsNew(counts: seq<Count>, i: nat)
    requires i < |counts|
  {
    && counts[i].info.total.total > Base(counts).total
    && forall j :: 0 <= j < i ==> counts[j].info.total.total < counts[i].info.total.total
  }

  lemma {:induction false} TakenAtLeast(counts: seq<Count>)
    requires counts != []
    ensures Base(counts).total <= Taken(counts).total
    ensures forall j :: 0 <= j < |counts| ==> counts[j].info.total.total <= Taken(counts).total
  {
    var n := |counts| - 1;
    var rest := counts[..n];
    assert counts == rest + [counts[n]];
    CountOneMore(rest, counts[n]);
    if n > 0 {
      TakenAtLeast(rest);
      assert forall j :: 0 <= j < n ==> rest[j] == counts[j];
    }
  }

  lemma {:induction false} TakenIsOne(counts: seq<Count>)
    requires counts != []
    ensures Taken(counts) == Base(counts) || exists j :: 0 <= j < |counts| && counts[j].info.total == Taken(counts)
  {
    var n := |counts| - 1;
    var rest := counts[..n];
    assert counts == rest + [counts[n]];
    CountOneMore(rest, counts[n]);
    hide Taken, Sub;
    if n > 0 && Taken(counts) != counts[n].info.total {
      TakenIsOne(rest);
      if Taken(rest) != Base(rest) {
        var j :| 0 <= j < n && rest[j].info.total == Taken(rest);
        assert counts[j].info.total == Taken(counts);
      }
    }
  }

  /** A count makes an event exactly when it is new: repeated and lower counts make none. */
  lemma TakenIffNew(counts: seq<Count>, c: Count)
    ensures Exceeds(c, Before(counts, c)) <==> IsNew(counts + [c], |counts|)
    ensures Fallback(counts + [c])
         == if IsNew(counts + [c], |counts|) then Fallback(counts) + [CountEvent(c, Before(counts, c))]
             else Fallback(counts)
  {
    var all := counts + [c];
    CountOneMore(counts, c);
    hide Taken, Sub, CountEvent, Fallback;
    assert all[|counts|] == c && forall j :: 0 <= j < |counts| ==> all[j] == counts[j];
    if counts != [] {
      TakenAtLeast(counts);
      TakenIsOne(counts);
      if Taken(counts) != Base(counts) {
        var j :| 0 <= j < |counts| && counts[j].info.total == Taken(counts);
        assert all[j].info.total == Taken(counts);
      }
    }
  }

  /** The totals of the events taken, in order. */
  function Totals(counts: seq<Count>): seq<int> {
    if counts == [] then []
    else
      var n := |counts| - 1;
      if Exceeds(counts[n], Before(counts[..n], counts[n])) then Totals(counts[..n]) + [counts[n].info.total.total]
      else Totals(counts[..n])
  }

  ghost predicate Ascends(totals: seq<int>) {
    forall i, j :: 0 <= i < j < |totals| ==> totals[i] < totals[j]
  }

  ghost predicate KeyedBy(events: seq<UsageEvent>, totals: seq<int>) {
    |events| == |totals| && forall i :: 0 <= i < |events| ==>
        events[i].dedupeKey == TotalKey(events[i].session, totals[i])
  }

  /** The totals of the events strictly increase, whatever repeats or falls between them. */
  lemma {:induction false} TotalsAscend(counts: seq<Count>)
    ensures Ascends(Totals(counts))
    ensures counts != [] ==> forall i :: 0 <= i < |Totals(counts)| ==> Totals(counts)[i] <= Taken(counts).total
  {
    if counts != [] {
      TotalsAscend(counts[..|counts| - 1]);
    }
  }

  lemma {:induction false} TotalsAreKeys(counts: seq<Count>)
    ensures KeyedBy(Fallback(counts), Totals(counts))
  {
    if counts != [] {
      TotalsAreKeys(counts[..|counts| - 1]);
      hide TotalKey, Converted;
    }
  }

  /** So no two events share a key. */
  lemma FallbackKeysDistinct(counts: seq<Count>)
    ensures DistinctKeys(Fallback(counts))
  {
    TotalsAscend(counts);
    TotalsAreKeys(counts);
    var events, totals := Fallback(counts), Totals(counts);
    hide Fallback, Totals, TotalKey;
    forall i, j | 0 <= i < j < |events| ensures events[i].dedupeKey != events[j].dedupeKey {
      if events[i].dedupeKey == events[j].dedupeKey {
        TotalKeyTells(events[i].session, totals[i], events[j].session, totals[j]);
      }
    }
  }

  function Plus(a: Tokens, b: Tokens): Tokens {
    Tokens(a.input + b.input, a.cachedInput + b.cachedInput, a.cacheWrite + b.cacheWrite, a.output + b.output,
        a.reasoning + b.reasoning)
  }

  function SumTokens(events: seq<UsageEvent>): Tokens {
    if events == [] then Tokens(0, 0, 0, 0, 0)
    else Plus(SumTokens(events[..|events| - 1]), events[|events| - 1].tokens)
  }

  lemma SumOneMore(events: seq<UsageEvent>, e: UsageEvent)
    ensures SumTokens(events + [e]) == Plus(SumTokens(events), e.tokens)
  {
    assert (events + [e])[..|events|] == events;
  }

  /** The events' tokens add up to the highest total without what the session
      inherited: nothing is lost, and nothing is counted twice. */
  lemma {:induction false} FallbackTelescopes(counts: seq<Count>)
    requires counts != []
    ensures SumTokens(Fallback(counts)) == Converted(Sub(Taken(counts), Base(counts)))
  {
    var n := |counts| - 1;
    var rest, c := counts[..n], counts[n];
    var before, base := Before(rest, c), Base(counts);
    hide CountEvent, Fallback, Taken, Converted, Sub, Plus, SumTokens, Exceeds;
    assert counts == rest + [c];
    CountOneMore(rest, c);
    assert SumTokens(Fallback(rest)) == Converted(Sub(before, base)) by {
      if n > 0 {
        FallbackTelescopes(rest);
      } else {
        EmptyFallback(base);
      }
    }
    hide Before, Base;
    SumCount(Fallback(rest), c, before, base);
  }

  /** The fields of a sum of usage, in OpenAI's counts: input and what of it was
      cached are told apart, and every other count is its own. */
  ghost predicate CountsAs(t: Tokens, u: TokenUsage) {
    && t.input + t.cachedInput == u.input && t.cachedInput == u.cached
    && t.cacheWrite == u.cacheWrite && t.output == u.output && t.reasoning == u.reasoning
  }

  /** a less b, count by count. */
  ghost predicate IsRest(u: TokenUsage, a: TokenUsage, b: TokenUsage) {
    && u.input + b.input == a.input && u.cached + b.cached == a.cached && u.cacheWrite + b.cacheWrite == a.cacheWrite
    && u.output + b.output == a.output && u.reasoning + b.reasoning == a.reasoning && u.total + b.total == a.total
  }

  /** A request record's event counts what the record says, nothing twice. */
  lemma RecordCounts(l: Line, session: string, model: string)
    requires l.Request?
    ensures var e := RequestEvent(l, session, model);
            && CountsAs(e.tokens, l.usage) && e.model == model && e.occurredAt == l.requestAt
            && e.requestId == l.responseId && !e.aggregated
            && e.session == (if l.recordSession != "" then l.recordSession else session)
            && e.dedupeKey == "codex:" + if l.responseId != "" then l.responseId
                                         else e.session + ":tc:" + Decimal(l.thread.total)
  {
    hide Decimal;
    var e := RequestEvent(l, session, model);
    var d := Decimal(l.thread.total);
    assert "codex:" + e.session + ":tc:" + d == "codex:" + (e.session + ":tc:" + d);
  }

  /** A cumulative count's event counts what the count adds to the total before. */
  lemma CountCounts(c: Count, before: TokenUsage)
    ensures var e := CountEvent(c, before);
            && (exists u :: IsRest(u, c.info.total, before) && CountsAs(e.tokens, u))
            && e.model == c.model && e.occurredAt == c.at && e.session == c.session && e.requestId == "" && e.aggregated
            && e.dedupeKey == "codex:" + c.session + ":tc:" + Decimal(c.info.total.total)
  {
    hide Decimal;
    var u := Sub(c.info.total, before);
    assert IsRest(u, c.info.total, before) && CountsAs(CountEvent(c, before).tokens, u);
  }

  /** All that is read of records and counts is set down with its provider,
      product and originator, and a model with a slash as a gateway's. */
  lemma FinishedAs(e: UsageEvent, originator: string)
    ensures var f := Finished(e, originator);
            && f == e.(provider := f.provider, product := f.product, originator := f.originator,
                       thirdParty := f.thirdParty, gateway := f.gateway)
            && f.provider == "openai" && f.product == "codex" && f.originator == originator
            && (f.thirdParty <==> e.thirdParty || '/' in e.model)
            && f.gateway == if '/' in e.model then "opencodex" else e.gateway
  {
  }

  /** The line says that the session is another provider's. */
  predicate Elsewhere(l: Line) {
    l.Meta? && l.modelProvider !in {"", "openai"}
  }

  lemma SkippedIs(lines: seq<Line>)
    ensures Skipped(lines) <==> exists i :: 0 <= i < |lines| && Elsewhere(lines[i])
  {
    assert forall l :: Foreign(l) <==> Elsewhere(l);
  }

  /** Nothing is read of another provider's session; of any other, the events of
      its request records, or those of its counts when it has no record that
      names its request or a total. */
  lemma ParsedFrom(lines: seq<Line>)
    ensures Skipped(lines) ==> Parsed(lines) == []
    ensures !Skipped(lines) && (exists k :: 0 <= k < |lines| && IsNamedRecord(lines[k])) ==>
        Parsed(lines) == AllFinished(Requests(lines), Originator(lines))
    ensures !Skipped(lines) && (forall k :: 0 <= k < |lines| ==> !IsNamedRecord(lines[k])) ==>
        Parsed(lines) == AllFinished(Fallback(Counts(lines)), Originator(lines))
  {
    var at := RecordsFrom(lines);
    hide Requests, Fallback, Counts, Originator, Skipped, IsNamedRecord, AllFinished;
    if k: nat :| k < |lines| && IsNamedRecord(lines[k]) {
      assert k in at;
    }
    assert at != [] ==> at[0] < |lines|;
  }

  /** What a session inherited: its first total without the request counted last. */
  lemma BaseIs(counts: seq<Count>)
    requires counts != []
    ensures IsRest(Base(counts), counts[0].info.total, counts[0].info.last)
  {
  }

  /** Count by count, the events' tokens add up to the last total taken without
      what the session inherited. */
  lemma FallbackCounts(counts: seq<Count>)
    requires counts != []
    ensures exists u :: IsRest(u, Taken(counts), Base(counts)) && CountsAs(SumTokens(Fallback(counts)), u)
  {
    hide Taken, Base, SumTokens, Fallback, Converted, Sub, IsRest, CountsAs;
    FallbackTelescopes(counts);
    var u := Sub(Taken(counts), Base(counts));
    SubIsRest(Taken(counts), Base(counts));
    assert IsRest(u, Taken(counts), Base(counts)) && CountsAs(SumTokens(Fallback(counts)), u);
  }

  lemma SubIsRest(a: TokenUsage, b: TokenUsage)
    ensures IsRest(Sub(a, b), a, b) && CountsAs(Converted(Sub(a, b)), Sub(a, b))
  {
  }

  lemma SumCount(events: seq<UsageEvent>, c: Count, before: TokenUsage, base: TokenUsage)
    requires SumTokens(events) == Converted(Sub(before, base))
    ensures SumTokens(events + [CountEvent(c, before)]) == Converted(Sub(c.info.total, base))
  {
    hide SumTokens;
    SumOneMore(events, CountEvent(c, before));
  }

  lemma EmptyFallback(base: TokenUsage)
    ensures Fallback([]) == [] && SumTokens([]) == Converted(Sub(base, base))
  {
  }

  // ----------------------------------------------------------- growing rollouts

  lemma {:induction false} MoreCounts(counts: seq<Count>, more: seq<Count>)
    ensures Fallback(counts) <= Fallback(counts + more)
  {
    if more == [] {
      assert counts + more == counts;
    } else {
      var n := |more| - 1;
      assert counts + more == counts + more[..n] + [more[n]];
      CountOneMore(counts + more[..n], more[n]);
      MoreCounts(counts, more[..n]);
    }
  }

  lemma {:induction false} MoreLines(lines: seq<Line>, more: seq<Line>) returns (counts: seq<Count>)
    ensures Requests(lines) <= Requests(lines + more) && Counts(lines + more) == Counts(lines) + counts
  {
    hide Requests, Counts, RequestEvent, Session, Model, IsBad;
    var all := lines + more;
    if more == [] {
      assert all == lines;
      counts := [];
    } else {
      var n := |more| - 1;
      var l, rest := more[n], lines + more[..n];
      counts := MoreLines(lines, more[..n]);
      LastLine(all, rest, l);
      if l.TokenCount? && l.info.Some? {
        counts := counts + [Count(l.info.value, Session(rest), Model(rest), l.countAt)];
      }
    }
  }

  lemma LastLine(all: seq<Line>, rest: seq<Line>, l: Line)
    requires all == rest + [l]
    ensures Requests(rest) <= Requests(all)
    ensures Counts(all) == if l.TokenCount? && l.info.Some?
        then Counts(rest) + [Count(l.info.value, Session(rest), Model(rest), l.countAt)]
                           else Counts(rest)
  {
    assert all[..|rest|] == rest && all[|rest|] == l && all[..|all|] == all;
    ListsOneMore(all, |rest|);
    hide Requests, Counts, RequestEvent, Session, Model, IsBad;
  }

  lemma {:induction false} RequestsAreSingle(lines: seq<Line>)
    ensures forall e :: e in Requests(lines) ==> !e.aggregated
  {
    if lines != [] {
      hide TotalKey, Converted, IsBad;
      RequestsAreSingle(lines[..|lines| - 1]);
    }
  }

  lemma {:induction false} CountsAreAggregated(counts: seq<Count>)
    ensures forall e :: e in Fallback(counts) ==> e.aggregated
  {
    if counts != [] {
      hide TotalKey, Converted;
      CountsAreAggregated(counts[..|counts| - 1]);
    }
  }

  /** Request records took the place of the counts that alone had been read. */
  ghost predicate Replaced(lines: seq<Line>, all: seq<Line>) {
    Requests(lines) == [] && Requests(all) != []
  }

  /** While a rollout grows, what was read of it stays and more comes after it,
      exactly as long as it does not turn out to be another provider's, its
      session line keeps the originator and request records do not take the
      place of counts. */
  lemma GrowingRollout(lines: seq<Line>, more: seq<Line>)
    ensures Parsed(lines) <= Parsed(lines + more) <==>
            || Parsed(lines) == []
            || (!Skipped(lines + more) && Originator(lines + more) == Originator(lines)
                && !Replaced(lines, lines + more))
  {
    var all := lines + more;
    SkippedStays(lines, more);
    GrowingEvents(lines, more);
    hide Events, Originator, Skipped, Requests;
  }

  lemma SkippedStays(lines: seq<Line>, more: seq<Line>)
    ensures Skipped(lines) ==> Skipped(lines + more)
  {
    if i :| 0 <= i < |lines| && Foreign(lines[i]) {
      assert (lines + more)[i] == lines[i];
    }
  }

  lemma GrowingEvents(lines: seq<Line>, more: seq<Line>)
    ensures Events(lines) <= Events(lines + more) <==>
            Events(lines) == [] || (Originator(lines + more) == Originator(lines) && !Replaced(lines, lines + more))
  {
    var all := lines + more;
    var counts := MoreLines(lines, more);
    MoreCounts(Counts(lines), counts);
    RequestsAreSingle(all);
    CountsAreAggregated(Counts(lines));
    hide Requests, Fallback, Counts, Originator;
    var now, later := Events(lines), Events(all);
    if now != [] {
      if Requests(lines) == [] && Requests(all) != [] {
        assert Fallback(Counts(lines))[0].aggregated && !Requests(all)[0].aggregated;
        assert now[0].aggregated && !later[0].aggregated;
      } else if Originator(all) != Originator(lines) {
        assert now[0].originator != later[0].originator;
      }
    }
  }

  // ------------------------------------------------------------ keys that stay

  ghost predicate HasKey(events: seq<UsageEvent>, key: string) {
    exists j :: 0 <= j < |events| && events[j].dedupeKey == key
  }

  ghost predicate IsRecord(lines: seq<Line>, k: int) {
    0 <= k < |lines| && lines[k].Request? && !IsBad(lines[k])
  }

  function RecordKey(lines: seq<Line>, k: nat): string
    requires k < |lines| && lines[k].Request?
  {
    RequestEvent(lines[k], Session(lines[..k]), Model(lines[..k])).dedupeKey
  }

  ghost predicate HasRecord(lines: seq<Line>, key: string) {
    exists k :: IsRecord(lines, k) && RecordKey(lines, k) == key
  }

  lemma {:induction false} RequestKeys(lines: seq<Line>, key: string)
    ensures HasKey(Requests(lines), key) <==> HasRecord(lines, key)
  {
    if lines != [] {
      RequestKeys(lines[..|lines| - 1], key);
      LastRequestKey(lines, key);
      LastRecordKey(lines, key);
      hide Requests, HasKey, HasRecord, IsRecord, RecordKey;
    }
  }

  lemma LastRecordKey(lines: seq<Line>, key: string)
    requires lines != []
    ensures var n := |lines| - 1;
            HasRecord(lines, key) <==> HasRecord(lines[..n], key) || (IsRecord(lines, n) && RecordKey(lines, n) == key)
  {
    hide RequestEvent, IsBad, Session, Model;
    var n := |lines| - 1;
    forall k | 0 <= k < n ensures lines[..n][..k] == lines[..k] && lines[..n][k] == lines[k] {
    }
    if HasRecord(lines[..n], key) {
      var k :| IsRecord(lines[..n], k) && RecordKey(lines[..n], k) == key;
      assert IsRecord(lines, k) && RecordKey(lines, k) == key;
    }
    if HasRecord(lines, key) {
      var k :| IsRecord(lines, k) && RecordKey(lines, k) == key;
      assert k < n ==> IsRecord(lines[..n], k) && RecordKey(lines[..n], k) == key;
    }
  }

  lemma LastRequestKey(lines: seq<Line>, key: string)
    requires lines != []
    ensures var n := |lines| - 1;
            HasKey(Requests(lines), key)
            <==> HasKey(Requests(lines[..n]), key) || (IsRecord(lines, n) && RecordKey(lines, n) == key)
  {
    hide RequestEvent, IsBad, Session, Model;
    var n := |lines| - 1;
    var rest, all := Requests(lines[..n]), Requests(lines);
    assert all == rest + all[|rest|..];
    if HasKey(rest, key) {
      var j :| 0 <= j < |rest| && rest[j].dedupeKey == key;
      assert all[j].dedupeKey == key;
    }
    if IsRecord(lines, n) {
      assert all[|rest|] == RequestEvent(lines[n], Session(lines[..n]), Model(lines[..n]));
    }
  }

  /** A record of the total a count of the session had: without a response id
      it is named by the session and the total, with one it would have to be
      spelled like that. */
  ghost predicate RecordOfTotal(lines: seq<Line>, k: int, session: string, total: int) {
    && IsRecord(lines, k)
    && if lines[k].responseId == ""
        then Or(lines[k].recordSession, Session(lines[..k])) == session && lines[k].thread.total == total
       else lines[k].responseId == session + ":tc:" + Decimal(total)
  }

  lemma RecordOfKey(lines: seq<Line>, k: nat, session: string, total: int)
    requires IsRecord(lines, k)
    ensures RecordKey(lines, k) == TotalKey(session, total) <==> RecordOfTotal(lines, k, session, total)
  {
    hide Session, Model, Decimal, Converted, IsBad;
    var owner := Or(lines[k].recordSession, Session(lines[..k]));
    if lines[k].responseId == "" {
      if TotalKey(owner, lines[k].thread.total) == TotalKey(session, total) {
        TotalKeyTells(owner, lines[k].thread.total, session, total);
      }
    } else {
      assert TotalKey(session, total) == "codex:" + (session + ":tc:" + Decimal(total));
      assert TotalKey(session, total)[6..] == session + ":tc:" + Decimal(total);
      assert ("codex:" + lines[k].responseId)[6..] == lines[k].responseId;
    }
  }

  /** What was read under a key is read again under it, as long as the rollout
      is not another provider's, exactly unless it was a count, request records
      have taken the counts' place and none of them is of the count's total:
      then the request has another key from then on. */
  lemma KeyStays(lines: seq<Line>, more: seq<Line>, i: nat)
    requires i < |Parsed(lines)|
    ensures HasKey(Parsed(lines + more), Parsed(lines)[i].dedupeKey) <==>
            && !Skipped(lines + more)
            && (Replaced(lines, lines + more) ==>
                  i < |Totals(Counts(lines))|
                  && exists k :: RecordOfTotal(lines + more, k, Parsed(lines)[i].session, Totals(Counts(lines))[i]))
  {
    var all := lines + more;
    SkippedStays(lines, more);
    if !Skipped(all) {
      if Replaced(lines, all) {
        ReplacedKey(lines, all, i);
      } else {
        KeptKey(lines, more, i);
      }
    }
    hide *;
  }

  lemma KeptKey(lines: seq<Line>, more: seq<Line>, i: nat)
    requires i < |Events(lines)| && !Replaced(lines, lines + more)
    ensures HasKey(Events(lines + more), Events(lines)[i].dedupeKey)
  {
    var counts := MoreLines(lines, more);
    MoreCounts(Counts(lines), counts);
    hide Requests, Fallback, Counts, Originator;
    assert Events(lines + more)[i].dedupeKey == Events(lines)[i].dedupeKey;
  }

  lemma ReplacedKey(lines: seq<Line>, all: seq<Line>, i: nat)
    requires i < |Events(lines)| && Replaced(lines, all)
    ensures i < |Totals(Counts(lines))|
    ensures HasKey(Events(all), Events(lines)[i].dedupeKey) <==>
            exists k :: RecordOfTotal(all, k, Events(lines)[i].session, Totals(Counts(lines))[i])
  {
    TotalsAreKeys(Counts(lines));
    var e := Fallback(Counts(lines))[i];
    RequestKeys(all, e.dedupeKey);
    FinishedKeys(Requests(all), Originator(all), e.dedupeKey);
    hide Requests, Fallback, Counts, Originator, Totals, HasKey, TotalKey, RecordKey, RecordOfTotal;
    var total := Totals(Counts(lines))[i];
    assert e.dedupeKey == TotalKey(e.session, total);
    forall k | IsRecord(all, k) ensures RecordKey(all, k) == e.dedupeKey <==> RecordOfTotal(all, k, e.session, total) {
      RecordOfKey(all, k, e.session, total);
    }
    RecordsOnly(all, e.session, total);
  }

  lemma RecordsOnly(lines: seq<Line>, session: string, total: int)
    ensures forall k :: RecordOfTotal(lines, k, session, total) ==> IsRecord(lines, k)
  {
  }

  lemma FinishedKeys(events: seq<UsageEvent>, originator: string, key: string)
    ensures HasKey(AllFinished(events, originator), key) <==> HasKey(events, key)
  {
    var all := AllFinished(events, originator);
    assert forall j :: 0 <= j < |events| ==> all[j].dedupeKey == events[j].dedupeKey;
  }
}
