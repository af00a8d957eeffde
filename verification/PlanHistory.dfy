/** An account's plan intervals: SavePlanInterval and DeletePlanInterval of
    internal/server/storage/storage.go, and IntervalAt and ResolvePlanAt of
    internal/account/account.go. */
module PlanHistory {
  import opened Records

  datatype PlanInterval = PlanInterval(
    id: string, accountId: string, planType: string, effectiveAt: Time, endedAt: Option<Time>,
    reason: string, source: string, precision: string)

  datatype Error = InvalidPlanInterval | NoSuchAccount | Overlap | NotFound
  datatype Result = Saved(interval: PlanInterval) | Failed(error: Error)

  predicate Covers(plan: PlanInterval, t: Time) {
    plan.effectiveAt <= t && (plan.endedAt.None? || t < plan.endedAt.value)
  }

  /** An interval that never ends reaches past every time. */
  predicate Before(t: Time, end: Option<Time>) {
    end.None? || t < end.value
  }

  /** Two intervals share a moment. */
  ghost predicate Meet(a: PlanInterval, b: PlanInterval) {
    exists t: Time :: Covers(a, t) && Covers(b, t)
  }

  ghost predicate Empty(a: PlanInterval) {
    forall t: Time :: !Covers(a, t)
  }

  predicate IsSpace(c: char) {
    || '\t' <= c <= '\r' || c == ' ' || c == '\U{85}' || c == '\U{a0}' || c == '\U{1680}'
    || c == '\U{2028}' || c == '\U{2029}' || c == '\U{202f}' || c == '\U{205f}' || c == '\U{3000}'
    || '\U{2000}' <= c <= '\U{200a}'
  }

  /** Go's strings.TrimSpace. */
  function TrimSpace(s: string): (r: string)
    ensures r == "" <==> forall i :: 0 <= i < |s| ==> IsSpace(s[i])
    ensures r != "" ==> !IsSpace(r[0]) && !IsSpace(r[|r| - 1])
  {
    if s == "" then s
    else if IsSpace(s[0]) then
      var rest := s[1..];
      assert forall i :: 0 < i < |s| ==> s[i] == rest[i - 1];
      TrimSpace(rest)
    else if IsSpace(s[|s| - 1]) then
      var rest := s[..|s| - 1];
      assert rest != [] && rest[0] == s[0];
      TrimSpace(rest)
    else s
  }

  // -------------------------------------------------------------------- table

  type Table = map<string, PlanInterval>

  /** What every save keeps: each row has its own id and a moment it covers,
      and no two rows of one account share a moment. */
  ghost predicate Valid(table: Table) {
    && (forall id :: id in table ==> table[id].id == id && !Empty(table[id]))
    && (forall a, b :: a in table && b in table && a != b && table[a].accountId == table[b].accountId ==>
          !Meet(table[a], table[b]))
  }

  /** The rows an interval must not overlap: its account's other ones. */
  predicate Rival(row: PlanInterval, plan: PlanInterval) {
    row.accountId == plan.accountId && (plan.id == "" || row.id != plan.id)
  }

  /** The overlap check of the source, end for end. */
  predicate Overlaps(a: PlanInterval, b: PlanInterval) {
    Before(a.effectiveAt, b.endedAt) && Before(b.effectiveAt, a.endedAt)
  }

  predicate WellFormed(plan: PlanInterval) {
    plan.accountId != "" && plan.planType != "" && (plan.endedAt.Some? ==> plan.effectiveAt < plan.endedAt.value)
  }

  lemma WellFormedCovers(a: PlanInterval)
    requires WellFormed(a)
    ensures Covers(a, a.effectiveAt) && !Empty(a)
  {
    assert Covers(a, a.effectiveAt);
  }

  /** The check finds exactly the intervals that share a moment. */
  lemma OverlapsIsMeet(a: PlanInterval, b: PlanInterval)
    requires !Empty(a) && !Empty(b)
    ensures Overlaps(a, b) <==> Meet(a, b)
  {
    var s: Time :| Covers(a, s);
    var t: Time :| Covers(b, t);
    if Overlaps(a, b) {
      assert Covers(a, Max(a.effectiveAt, b.effectiveAt)) && Covers(b, Max(a.effectiveAt, b.effectiveAt));
    }
  }

  /** The interval as it is stored. */
  function Normal(plan: PlanInterval): PlanInterval {
    plan.(planType := TrimSpace(plan.planType),
          precision := if plan.precision == "" then "confirmed" else plan.precision)
  }

  /** Which answer a save gives. */
  ghost predicate IsAnswer(r: Result, table: Table, accounts: set<string>, asked: PlanInterval, newId: string) {
    var plan := Normal(asked);
    var clash := exists id :: id in table && Rival(table[id], plan) && Meet(table[id], plan);
    var unknown := plan.id != "" && !(plan.id in table && table[plan.id].accountId == plan.accountId);
    if plan.accountId == "" || plan.planType == "" || Empty(plan) then r == Failed(InvalidPlanInterval)
    else if plan.accountId !in accounts then r == Failed(NoSuchAccount)
    else if clash then r == Failed(Overlap)
    else if unknown then r == Failed(NotFound)
    else r == Saved(plan.(id := if plan.id == "" then newId else plan.id))
  }

  lemma SavedKeepsValid(table: Table, plan: PlanInterval)
    requires Valid(table) && plan.id != "" && !Empty(plan)
    requires plan.id in table ==> table[plan.id].accountId == plan.accountId
    requires forall id :: id in table && Rival(table[id], plan) ==> !Meet(table[id], plan)
    ensures Valid(table[plan.id := plan])
  {
    var after := table[plan.id := plan];
    hide Empty;
    forall a, b | a in after && b in after && a != b && after[a].accountId == after[b].accountId
      ensures !Meet(after[a], after[b])
    {
      if a == plan.id {
        assert Rival(table[b], plan);
        MeetSymmetric(plan, table[b]);
      } else if b == plan.id {
        assert Rival(table[a], plan);
      }
    }
  }

  lemma MeetSymmetric(a: PlanInterval, b: PlanInterval)
    ensures Meet(a, b) <==> Meet(b, a)
  {
  }

  class Store {
    var accounts: set<string>
    var intervals: Table

    /** Saves a new interval (id "") or changes one. newId is a fresh random id. */
    method SavePlanInterval(asked: PlanInterval, newId: string) returns (r: Result)
      requires Valid(intervals) && newId != "" && newId !in intervals
      modifies this`intervals
      ensures Valid(intervals)
      ensures IsAnswer(r, old(intervals), accounts, asked, newId)
      ensures intervals == if r.Saved? then old(intervals)[r.interval.id := r.interval] else old(intervals)
    {
      var plan := asked.(planType := TrimSpace(asked.planType));
      if plan.accountId == "" || plan.planType == "" {
        return Failed(InvalidPlanInterval);
      }
      if plan.endedAt.Some? && plan.endedAt.value <= plan.effectiveAt {
        return Failed(InvalidPlanInterval);
      }
      if plan.precision == "" {
        plan := plan.(precision := "confirmed");
      }
      WellFormedCovers(plan);
      assert plan == Normal(asked);
      hide Empty, Covers, TrimSpace, WellFormed;
      if plan.accountId !in accounts {
        return Failed(NoSuchAccount);
      }
      var clash := FindOverlap(plan);
      if clash {
        return Failed(Overlap);
      }
      hide Meet, Rival;
      if plan.id == "" {
        r := Saved(plan.(id := newId));
        NewHasNoRivals(intervals, plan, newId);
      } else if plan.id in intervals && intervals[plan.id].accountId == plan.accountId {
        r := Saved(plan);
      } else {
        return Failed(NotFound);
      }
      SavedKeepsValid(intervals, r.interval);
      intervals := intervals[r.interval.id := r.interval];
    }

    /** The query's rows, in whatever order they come. */
    method FindOverlap(plan: PlanInterval) returns (clash: bool)
      requires Valid(intervals) && !Empty(plan)
      ensures clash <==> exists id :: id in intervals && Rival(intervals[id], plan) && Meet(intervals[id], plan)
    {
      var ids := set id | id in intervals && Rival(intervals[id], plan);
      clash := false;
      while ids != {}
        invariant ids <= (set id | id in intervals && Rival(intervals[id], plan))
        invariant forall id :: id in intervals && Rival(intervals[id], plan) && id !in ids ==>
            !Meet(intervals[id], plan)
        decreases |ids|
      {
        var id :| id in ids;
        OverlapsIsMeet(plan, intervals[id]);
        MeetSymmetric(plan, intervals[id]);
        if Overlaps(plan, intervals[id]) {
          return true;
        }
        ids := ids - {id};
      }
    }

    method DeletePlanInterval(accountId: string, intervalId: string) returns (found: bool)
      requires Valid(intervals)
      modifies this`intervals
      ensures Valid(intervals)
      ensures found <==> intervalId in old(intervals) && old(intervals)[intervalId].accountId == accountId
      ensures intervals == if found then old(intervals) - {intervalId} else old(intervals)
    {
      found := intervalId in intervals && intervals[intervalId].accountId == accountId;
      if found {
        intervals := intervals - {intervalId};
      }
    }
  }

  lemma NewHasNoRivals(table: Table, plan: PlanInterval, newId: string)
    requires Valid(table) && plan.id == "" && !Empty(plan)
    requires forall id :: id in table && Rival(table[id], plan) ==> !Meet(table[id], plan)
    ensures forall id :: id in table && Rival(table[id], plan.(id := newId)) ==> !Meet(table[id], plan.(id := newId))
    ensures !Empty(plan.(id := newId))
  {
    forall t: Time ensures Covers(plan, t) == Covers(plan.(id := newId), t) {}
    forall id | id in table && Rival(table[id], plan.(id := newId)) ensures !Meet(table[id], plan.(id := newId)) {
      assert Rival(table[id], plan);
      assert !Meet(table[id], plan);
    }
  }

  // ------------------------------------------------------------ what saves say

  /** r is what is left of the text from i to j, and there is only white space around it. */
  ghost predicate CutOut(r: string, s: string, i: nat, j: nat) {
    i <= j <= |s| && r == s[i..j] && forall k :: 0 <= k < |s| && !(i <= k < j) ==> IsSpace(s[k])
  }

  /** The text without the white space around it, and nothing else left out. */
  ghost predicate IsTrimmed(r: string, s: string) {
    && (r != "" ==> !IsSpace(r[0]) && !IsSpace(r[|r| - 1]))
    && exists i, j :: CutOut(r, s, i, j)
  }

  lemma CutAfter(r: string, s: string, i: nat, j: nat)
    requires s != "" && IsSpace(s[0]) && CutOut(r, s[1..], i, j)
    ensures CutOut(r, s, i + 1, j + 1)
  {
    hide IsSpace;
    var rest := s[1..];
    assert s[i + 1..j + 1] == rest[i..j];
    forall k | 0 <= k < |s| && !(i + 1 <= k < j + 1) ensures IsSpace(s[k]) {
      assert k > 0 ==> s[k] == rest[k - 1];
    }
  }

  lemma CutBefore(r: string, s: string, i: nat, j: nat)
    requires s != "" && IsSpace(s[|s| - 1]) && CutOut(r, s[..|s| - 1], i, j)
    ensures CutOut(r, s, i, j)
  {
    hide IsSpace;
    var n := |s| - 1;
    assert s[i..j] == s[..n][i..j];
    forall k | 0 <= k < |s| && !(i <= k < j) ensures IsSpace(s[k]) {
      assert k < n ==> s[k] == s[..n][k];
    }
  }

  lemma {:induction false} CutIs(s: string) returns (i: nat, j: nat)
    ensures CutOut(TrimSpace(s), s, i, j)
  {
    if s != "" && IsSpace(s[0]) {
      i, j := CutIs(s[1..]);
      hide IsSpace, CutOut;
      CutAfter(TrimSpace(s[1..]), s, i, j);
      i, j := i + 1, j + 1;
    } else if s != "" && IsSpace(s[|s| - 1]) {
      i, j := CutIs(s[..|s| - 1]);
      hide IsSpace, CutOut;
      CutBefore(TrimSpace(s[..|s| - 1]), s, i, j);
    } else {
      i, j := 0, |s|;
      assert s[0..|s|] == s;
    }
  }

  lemma TrimmedIs(s: string)
    ensures IsTrimmed(TrimSpace(s), s)
  {
    hide CutOut, IsSpace;
    var i, j := CutIs(s);
  }

  /** The interval is the one in force at t: from its start on, up to its end if it has one. */
  predicate InForce(plan: PlanInterval, t: Time) {
    t >= plan.effectiveAt && (plan.endedAt.Some? ==> t < plan.endedAt.value)
  }

  /** Another interval of the account is in force at a moment at which this one would be. */
  ghost predicate Conflicts(table: Table, plan: PlanInterval) {
    exists id, t: Time :: id in table && id != plan.id && table[id].accountId == plan.accountId
      && InForce(table[id], t) && InForce(plan, t)
  }

  /** The interval as asked, but for the spaces around its plan, a precision it
      does not give and the id it is to have. */
  ghost predicate AskedFor(plan: PlanInterval, asked: PlanInterval, newId: string) {
    && IsTrimmed(plan.planType, asked.planType)
    && plan == asked.(planType := plan.planType, precision := plan.precision, id := plan.id)
    && plan.precision == (if asked.precision != "" then asked.precision else "confirmed")
    && plan.id == if asked.id != "" then asked.id else newId
  }

  /** What each answer of a save says: it is malformed when it names no account
      or no plan or would end before it starts; of an unknown account; in
      conflict with another of the account's intervals; or a change to an
      interval the account has not; and otherwise it is saved as asked. */
  lemma AnswerTells(r: Result, table: Table, accounts: set<string>, asked: PlanInterval, newId: string)
      returns (plan: PlanInterval)
    requires Valid(table) && newId != "" && newId !in table && IsAnswer(r, table, accounts, asked, newId)
    ensures AskedFor(plan, asked, newId)
    ensures r == if asked.accountId == "" || plan.planType == ""
                    || (asked.endedAt.Some? && asked.endedAt.value <= asked.effectiveAt)
                        then Failed(InvalidPlanInterval)
                 else if asked.accountId !in accounts then Failed(NoSuchAccount)
                 else if Conflicts(table, plan) then Failed(Overlap)
                 else if asked.id != "" && (asked.id in table ==> table[asked.id].accountId != asked.accountId)
                      then Failed(NotFound)
                 else Saved(plan)
  {
    var normal := Normal(asked);
    plan := normal.(id := if asked.id == "" then newId else asked.id);
    TrimmedIs(asked.planType);
    EmptyIs(normal);
    ConflictIsClash(table, normal, plan);
    hide TrimSpace, IsTrimmed, Empty, Conflicts, Meet, Rival, Valid;
  }

  lemma EmptyIs(plan: PlanInterval)
    ensures Empty(plan) <==> plan.endedAt.Some? && plan.endedAt.value <= plan.effectiveAt
  {
    assert plan.endedAt.None? || plan.effectiveAt < plan.endedAt.value ==> Covers(plan, plan.effectiveAt);
  }

  lemma ConflictIsClash(table: Table, normal: PlanInterval, plan: PlanInterval)
    requires Valid(table) && plan == normal.(id := plan.id) && (normal.id != "" ==> plan.id == normal.id)
    requires normal.id == "" ==> plan.id !in table
    ensures Conflicts(table, plan) <==> exists id :: id in table && Rival(table[id], normal) && Meet(table[id], normal)
  {
    forall id | id in table && Rival(table[id], normal) && Meet(table[id], normal) ensures Conflicts(table, plan) {
      var t: Time :| Covers(table[id], t) && Covers(normal, t);
      assert InForce(table[id], t) && InForce(plan, t);
    }
    if Conflicts(table, plan) {
      var id, t: Time :| id in table && id != plan.id && table[id].accountId == plan.accountId
        && InForce(table[id], t) && InForce(plan, t);
      assert Covers(table[id], t) && Covers(normal, t);
      assert Rival(table[id], normal) && Meet(table[id], normal);
    }
  }

  // ---------------------------------------------------------- plan at a time

  /** An account's intervals, in whatever order they are read. */
  ghost predicate IsHistoryOf(intervals: seq<PlanInterval>, table: Table, accountId: string) {
    && (forall plan :: plan in intervals <==> plan.id in table && table[plan.id] == plan && plan.accountId == accountId)
  }

  /** The first interval that covers t. */
  function Covering(intervals: seq<PlanInterval>, t: Time): (r: Option<PlanInterval>)
    ensures r.Some? ==> r.value in intervals && Covers(r.value, t)
    ensures r.None? ==> forall plan :: plan in intervals ==> !Covers(plan, t)
  {
    if intervals == [] then None
    else if Covers(intervals[0], t) then Some(intervals[0])
    else Covering(intervals[1..], t)
  }

  method IntervalAt(intervals: seq<PlanInterval>, t: Time) returns (r: Option<PlanInterval>)
    ensures r == Covering(intervals, t)
  {
    for i := 0 to |intervals|
      invariant Covering(intervals, t) == Covering(intervals[i..], t)
    {
      if intervals[i].effectiveAt <= t && (intervals[i].endedAt.None? || t < intervals[i].endedAt.value) {
        return Some(intervals[i]);
      }
    }
    return None;
  }

  /** The plan active at t, or "" when no interval covers it. */
  method ResolvePlanAt(intervals: seq<PlanInterval>, t: Time) returns (planType: string)
    ensures planType == if Covering(intervals, t).Some? then Covering(intervals, t).value.planType else ""
  {
    var r := IntervalAt(intervals, t);
    planType := if r.Some? then r.value.planType else "";
  }

  lemma OneCovers(table: Table, a: string, b: string, t: Time)
    requires Valid(table) && a in table && b in table && table[a].accountId == table[b].accountId
    requires Covers(table[a], t) && Covers(table[b], t)
    ensures a == b
  {
    assert Meet(table[a], table[b]);
  }

  /** A saved history has one answer at each moment, in whatever order its
      intervals are read: the row that covers it, if there is one. */
  lemma OneAnswer(table: Table, accountId: string, a: seq<PlanInterval>, b: seq<PlanInterval>, t: Time)
    requires Valid(table) && IsHistoryOf(a, table, accountId) && IsHistoryOf(b, table, accountId)
    ensures Covering(a, t) == Covering(b, t)
    ensures Covering(a, t).Some? <==>
        exists id :: id in table && table[id].accountId == accountId && Covers(table[id], t)
    ensures forall id :: id in table && table[id].accountId == accountId && Covers(table[id], t) ==>
        Covering(a, t) == Some(table[id])
  {
    var ra, rb := Covering(a, t), Covering(b, t);
    hide Covers, Covering;
    if ra.Some? {
      assert table[ra.value.id] == ra.value;
    }
    if rb.Some? {
      assert table[rb.value.id] == rb.value;
    }
    forall id | id in table && table[id].accountId == accountId && Covers(table[id], t)
      ensures ra == Some(table[id]) && rb == Some(table[id])
    {
      assert table[id] in a && table[id] in b;
      OneCovers(table, id, ra.value.id, t);
      OneCovers(table, id, rb.value.id, t);
    }
  }

  /** The plan of a saved history at t is the one of the account's interval in
      force then, if there is one. */
  lemma PlanInForce(table: Table, accountId: string, intervals: seq<PlanInterval>, t: Time, id: string)
    requires Valid(table) && IsHistoryOf(intervals, table, accountId)
    ensures id in table && table[id].accountId == accountId && InForce(table[id], t) ==>
        Covering(intervals, t) == Some(table[id])
    ensures Covering(intervals, t).Some? ==>
        var plan := Covering(intervals, t).value;
        plan.id in table && table[plan.id] == plan && plan.accountId == accountId && InForce(plan, t)
  {
    OneAnswer(table, accountId, intervals, intervals, t);
  }

  /** A new interval changes the plan at the moments it covers and no others. */
  lemma NewIntervalIsLocal(table: Table, plan: PlanInterval, before: seq<PlanInterval>, after: seq<PlanInterval>,
                           t: Time)
    requires Valid(table) && plan.id !in table && Valid(table[plan.id := plan])
    requires IsHistoryOf(before, table, plan.accountId) && IsHistoryOf(after, table[plan.id := plan], plan.accountId)
    ensures Covering(after, t) == if Covers(plan, t) then Some(plan) else Covering(before, t)
    ensures Covers(plan, t) ==> Covering(before, t).None?
  {
    var table' := table[plan.id := plan];
    OneAnswer(table, plan.accountId, before, before, t);
    OneAnswer(table', plan.accountId, after, after, t);
    var r := Covering(before, t);
    hide Covers, Covering;
    if Covers(plan, t) {
      assert table'[plan.id] == plan;
      if r.Some? {
        OneCovers(table', plan.id, r.value.id, t);
      }
    } else if r.Some? {
      assert table'[r.value.id] == r.value;
    }
  }
}
