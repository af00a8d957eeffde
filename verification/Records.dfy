/** The records devices and the server exchange, and the small types every
    other module shares. */
module Records {

  datatype Option<+T> = None | Some(value: T)

  /** A point in time or a duration, in nanoseconds since the Unix epoch. */
  type Time = int

  const SECOND: Time := 1_000_000_000
  const MINUTE: Time := 60 * SECOND
  const HOUR: Time := 60 * MINUTE
  const FIVE_HOURS: Time := 5 * HOUR
  const WEEK: Time := 168 * HOUR

  function Max(a: int, b: int): int {
    if a < b then b else a
  }

  function Min(a: int, b: int): int {
    if a < b then a else b
  }

  function MaxReal(a: real, b: real): real {
    if a < b then b else a
  }

  /** Go's integer division, which truncates toward zero, and its remainder. */
  function Quotient(a: int, b: int): int
    requires b > 0
  {
    if a >= 0 then a / b else -((-a) / b)
  }

  function Remainder(a: int, b: int): int
    requires b > 0
  {
    a - Quotient(a, b) * b
  }

  lemma QuotientTruncates(a: int, b: int)
    requires b > 0
    ensures var q, r := Quotient(a, b), Remainder(a, b);
      a == q * b + r && -b < r < b && (a >= 0 ==> r >= 0) && (a <= 0 ==> r <= 0)
  {
    var n := if a >= 0 then a else -a;
    assert n == n / b * b + n % b;
    assert -(n / b) * b == -(n / b * b);
  }

  /** A time as the device's database keeps it, in whole milliseconds. */
  function CutToMilli(t: Time): Time {
    t - t % 1_000_000
  }

  lemma MultipleOutside(d: int, w: int)
    requires w > 0
    ensures d >= 1 ==> d * w >= w
    ensures d <= -1 ==> d * w <= -w
  {
  }

  lemma DivUnique(n: int, w: int, q: int, r: int)
    requires w > 0 && n == q * w + r && 0 <= r < w
    ensures n / w == q
  {
    MultipleOutside(n / w - q, w);
    assert (n / w - q) * w == r - n % w;
  }

  /** Go's Round to a minute, halves up. */
  function RoundToMinute(t: Time): Time {
    var over := t % MINUTE;
    if over + over < MINUTE then t - over else t - over + MINUTE
  }

  /** at is t to the nearest minute, a half rounding up. */
  predicate ToTheMinute(at: Time, t: Time) {
    at % 60_000_000_000 == 0 && -60_000_000_000 <= 2 * (t - at) < 60_000_000_000
  }

  lemma RoundedIsNearest(t: Time)
    ensures ToTheMinute(RoundToMinute(t), t)
  {
    var over, floor := t % MINUTE, t / MINUTE;
    assert t == floor * MINUTE + over;
    assert (floor * MINUTE) % MINUTE == 0 && ((floor + 1) * MINUTE) % MINUTE == 0;
  }

  lemma OneMinute(a: Time, b: Time, t: Time)
    requires ToTheMinute(a, t) && ToTheMinute(b, t)
    ensures a == b
  {
    var m := 60_000_000_000;
    assert a == a / m * m && b == b / m * m && (a / m - b / m) * m == a - b;
    if a != b {
      MultipleOutside(a / m - b / m, m);
    }
  }

  datatype Tokens = Tokens(
    input: int, cachedInput: int, cacheWrite: int, output: int, reasoning: int)

  /** One model request read from a device's logs. */
  datatype UsageEvent = UsageEvent(
    dedupeKey: string,
    accountRef: string,
    provider: string,
    product: string,
    originator: string,
    session: string,
    model: string,
    occurredAt: Time,
    tokens: Tokens,
    thirdParty: bool,
    gateway: string,
    requestId: string,
    parentRequestId: string,
    effort: string,
    status: string,
    aggregated: bool)

  ghost predicate DistinctKeys(events: seq<UsageEvent>) {
    forall i, j :: 0 <= i < j < |events| ==> events[i].dedupeKey != events[j].dedupeKey
  }

  /** A queued request: the event as it was read, and, for an account
      correction, the account it was attributed to before ("" otherwise). */
  datatype SyncEvent = SyncEvent(event: UsageEvent, previousRef: string)

  datatype Observation = Observation(
    provider: string, source: string, accountRef: string, hint: string, planType: string, observedAt: Time)

  datatype Bucket = Bucket(
    key: string, usedPercent: Option<real>, resetsAt: Option<Time>, windowMinutes: Option<int>)

  datatype Snapshot = Snapshot(
    accountRef: string, hint: string, planType: string, provider: string, source: string,
    observedAt: Time, buckets: seq<Bucket>)

  datatype SyncSnapshot = SyncSnapshot(snapshot: Snapshot, previousRef: string)

  /** A logged limit hit. The fields the ledger never looks at travel as details. */
  datatype LimitEvent = LimitEvent(
    dedupeKey: string, accountRef: string, provider: string, occurredAt: Time, observedAt: Time, details: string)

  datatype SyncRequest = SyncRequest(
    observations: seq<Observation>, events: seq<SyncEvent>, snapshots: seq<SyncSnapshot>, limits: seq<LimitEvent>)

  /** The database's CASE WHEN stored = '' THEN offered ELSE stored END. */
  function Fill(stored: string, offered: string): string {
    if stored == "" then offered else stored
  }

  /** What both ledgers do to the token counts of a stored request. */
  function Raise(stored: Tokens, offered: Tokens): Tokens {
    stored.(output := Max(stored.output, offered.output), reasoning := Max(stored.reasoning, offered.reasoning))
  }
}
