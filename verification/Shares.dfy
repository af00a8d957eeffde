/** An account's quota split among the people sharing it: Apportion of
    internal/attribution/attribution.go and bucketOverview of
    internal/server/query/overview.go, over exact arithmetic. */
module Shares {
  import opened Records
  import opened LatestQuota

  // ---------------------------------------------------------------- map sums

  ghost function SumOver(keys: set<string>, m: map<string, real>): real
    requires keys <= m.Keys
  {
    if keys == {} then 0.0
    else
      var k :| k in keys;
      m[k] + SumOver(keys - {k}, m)
  }

  ghost function Sum(m: map<string, real>): real {
    SumOver(m.Keys, m)
  }

  /** Whichever entry is added first, the sum is the same. */
  lemma {:induction false} SumWithout(keys: set<string>, m: map<string, real>, k: string)
    requires keys <= m.Keys && k in keys
    ensures SumOver(keys, m) == m[k] + SumOver(keys - {k}, m)
  {
    var first :| first in keys && SumOver(keys, m) == m[first] + SumOver(keys - {first}, m);
    if first != k {
      SumWithout(keys - {first}, m, k);
      SumWithout(keys - {k}, m, first);
      assert keys - {first} - {k} == keys - {k} - {first};
    }
  }

  /** Only the entries of the keys matter, and they may be scaled together. */
  lemma {:induction false} SumScaled(keys: set<string>, m: map<string, real>, n: map<string, real>, factor: real)
    requires keys <= m.Keys && keys <= n.Keys && forall k :: k in keys ==> n[k] == Times(factor, m[k])
    ensures SumOver(keys, n) == Times(factor, SumOver(keys, m))
  {
    hide Times, SumOver;
    if keys == {} {
      NothingScaled(m, n, factor);
    } else {
      var k :| k in keys;
      SumWithout(keys, m, k);
      SumWithout(keys, n, k);
      SumScaled(keys - {k}, m, n, factor);
      Distribute(factor, m[k], SumOver(keys - {k}, m));
    }
  }

  function Times(x: real, y: real): real {
    x * y
  }

  lemma NothingScaled(m: map<string, real>, n: map<string, real>, factor: real)
    ensures SumOver({}, n) == Times(factor, SumOver({}, m))
  {
  }

  lemma Distribute(x: real, y: real, z: real)
    ensures Times(x, y + z) == Times(x, y) + Times(x, z)
  {
  }

  /** Entries of zero may be left out. */
  lemma {:induction false} SumOfNonZero(keys: set<string>, some: set<string>, m: map<string, real>)
    requires some <= keys <= m.Keys && forall k :: k in keys && k !in some ==> m[k] == 0.0
    ensures SumOver(some, m) == SumOver(keys, m)
  {
    if keys != some {
      var k :| k in keys && k !in some;
      SumWithout(keys, m, k);
      SumOfNonZero(keys - {k}, some, m);
    }
  }

  method Add(m: map<string, real>) returns (sum: real)
    ensures sum == Sum(m)
  {
    sum := 0.0;
    var todo := m.Keys;
    while todo != {}
      invariant todo <= m.Keys && sum + SumOver(todo, m) == Sum(m)
      decreases |todo|
    {
      var k :| k in todo;
      SumWithout(todo, m, k);
      sum := sum + m[k];
      todo := todo - {k};
    }
  }

  // ---------------------------------------------------------------- Apportion

  /** A person's portion of a window: allotted by share weight, used by estimate. */
  datatype Share = Share(allotted: real, used: real)

  /** part of total, in percent of whole. */
  function Portion(whole: real, part: real, total: real): real
    requires total != 0.0
  {
    whole * part / total
  }

  function Allotment(weight: real, totalWeight: real): real {
    if totalWeight > 0.0 then weight / totalWeight * 100.0 else 0.0
  }

  ghost predicate IsShare(s: Share, person: string, used: real, costs: map<string, real>, weights: map<string, real>) {
    && s.allotted == (if person in weights then Allotment(weights[person], Sum(weights)) else 0.0)
    && s.used == if person in costs && Sum(costs) != 0.0 then Portion(used, costs[person], Sum(costs)) else 0.0
  }

  /** What Apportion answers: every member has a share, and with any cost, so has
      everyone who has some. */
  ghost predicate AreShares(shares: map<string, Share>, unattributed: real, used: real, costs: map<string, real>,
                            weights: map<string, real>) {
    && shares.Keys == (if Sum(costs) == 0.0 then weights.Keys else weights.Keys + costs.Keys)
    && (forall person :: person in shares ==> IsShare(shares[person], person, used, costs, weights))
    && unattributed == if Sum(costs) == 0.0 then used else 0.0
  }

  /** Apportion's allotments. */
  method Allot(weights: map<string, real>, totalWeight: real) returns (shares: map<string, Share>)
    ensures shares.Keys == weights.Keys
    ensures forall person :: person in shares ==> shares[person] == Share(Allotment(weights[person], totalWeight), 0.0)
  {
    hide Allotment;
    shares := map[];
    var todo := weights.Keys;
    while todo != {}
      invariant todo <= weights.Keys && shares.Keys == weights.Keys - todo
      invariant forall person :: person in shares ==>
          shares[person] == Share(Allotment(weights[person], totalWeight), 0.0)
      decreases |todo|
    {
      var person :| person in todo;
      shares := shares[person := Share(Allotment(weights[person], totalWeight), 0.0)];
      todo := todo - {person};
    }
  }

  /** A share with its estimate, on top of its allotment if it has one. */
  function Estimated(allotted: map<string, Share>, used: real, cost: real, totalCost: real, person: string): Share
    requires totalCost != 0.0
  {
    Share(if person in allotted then allotted[person].allotted else 0.0, Portion(used, cost, totalCost))
  }

  ghost predicate AreEstimated(shares: map<string, Share>, allotted: map<string, Share>, used: real,
                               costs: map<string, real>,
                               totalCost: real, done: set<string>)
    requires totalCost != 0.0 && done <= costs.Keys
  {
    && shares.Keys == allotted.Keys + done
    && forall person :: person in shares ==>
         shares[person] == if person in done then Estimated(allotted, used, costs[person], totalCost, person)
             else allotted[person]
  }

  /** Apportion's estimates. */
  method Estimate(allotted: map<string, Share>, used: real, costs: map<string, real>,
                  totalCost: real) returns (shares: map<string, Share>)
    requires totalCost != 0.0 && forall person :: person in allotted ==> allotted[person].used == 0.0
    ensures AreEstimated(shares, allotted, used, costs, totalCost, costs.Keys)
  {
    hide Portion;
    shares := allotted;
    var todo := costs.Keys;
    while todo != {}
      invariant todo <= costs.Keys && AreEstimated(shares, allotted, used, costs, totalCost, costs.Keys - todo)
      decreases |todo|
    {
      var person :| person in todo;
      var s := if person in shares then shares[person] else Share(0.0, 0.0);
      s := s.(used := Portion(used, costs[person], totalCost));
      EstimateOneMore(shares, allotted, used, costs, totalCost, costs.Keys - todo, person);
      Visited(costs.Keys, todo, person);
      hide AreEstimated;
      shares := shares[person := s];
      todo := todo - {person};
    }
    assert costs.Keys - todo == costs.Keys;
  }

  lemma Visited(keys: set<string>, todo: set<string>, k: string)
    requires todo <= keys && k in todo
    ensures keys - (todo - {k}) == (keys - todo) + {k}
  {
  }

  lemma EstimateOneMore(shares: map<string, Share>, allotted: map<string, Share>, used: real, costs: map<string, real>,
                        totalCost: real, done: set<string>, person: string)
    requires totalCost != 0.0 && done <= costs.Keys && person in costs && person !in done
    requires AreEstimated(shares, allotted, used, costs, totalCost, done)
    ensures var s := if person in shares then shares[person] else Share(0.0, 0.0);
            AreEstimated(shares[person := s.(used := Portion(used, costs[person], totalCost))], allotted, used, costs,
                totalCost, done + {person})
  {
    hide Portion;
  }

  method Apportion(used: real, costs: map<string, real>, weights: map<string, real>)
    returns (shares: map<string, Share>, unattributed: real)
    ensures AreShares(shares, unattributed, used, costs, weights)
  {
    var totalWeight := Add(weights);
    hide Sum, Portion, Allotment;
    shares := Allot(weights, totalWeight);
    var totalCost := Add(costs);
    if totalCost == 0.0 {
      return shares, used;
    }
    shares := Estimate(shares, used, costs, totalCost);
    unattributed := 0.0;
  }

  function UsedOf(shares: map<string, Share>): (m: map<string, real>)
    ensures m.Keys == shares.Keys
  {
    map person | person in shares :: shares[person].used
  }

  function AllottedOf(shares: map<string, Share>): (m: map<string, real>)
    ensures m.Keys == shares.Keys
  {
    map person | person in shares :: shares[person].allotted
  }

  lemma PortionIsScale(whole: real, part: real, total: real, factor: real)
    requires total != 0.0 && factor == whole / total
    ensures Portion(whole, part, total) == factor * part
  {
  }

  lemma WholePortion(whole: real, total: real)
    requires total != 0.0
    ensures Portion(whole, total, total) == whole
  {
  }

  /** Portions of a total add up to the portion of the sum. */
  lemma PortionsAddUp(keys: set<string>, costs: map<string, real>, portions: map<string, real>, whole: real,
                      total: real)
    requires total != 0.0 && keys <= costs.Keys && keys <= portions.Keys
    requires forall k :: k in keys ==> portions[k] == Portion(whole, costs[k], total)
    ensures SumOver(keys, portions) == Portion(whole, SumOver(keys, costs), total)
  {
    hide Portion, SumOver;
    var factor := whole / total;
    forall k | k in keys ensures portions[k] == factor * costs[k] {
      PortionIsScale(whole, costs[k], total, factor);
    }
    SumScaled(keys, costs, portions, factor);
    PortionIsScale(whole, SumOver(keys, costs), total, factor);
  }

  /** Nothing of the used quota is lost and nothing is invented: people's use
      and what is unattributed make up what the provider reports. */
  lemma UseIsConserved(shares: map<string, Share>, unattributed: real, used: real, costs: map<string, real>,
                       weights: map<string, real>)
    requires AreShares(shares, unattributed, used, costs, weights)
    ensures Sum(UsedOf(shares)) + unattributed == used
  {
    var usedOf := UsedOf(shares);
    hide SumOver, Portion;
    if Sum(costs) == 0.0 {
      SumOfNonZero(usedOf.Keys, {}, usedOf);
      SumOfNothing(usedOf);
    } else {
      SumOfNonZero(usedOf.Keys, costs.Keys, usedOf);
      PortionsAddUp(costs.Keys, costs, usedOf, used, Sum(costs));
      WholePortion(used, Sum(costs));
    }
  }

  lemma SumOfNothing(m: map<string, real>)
    ensures SumOver({}, m) == 0.0
  {
  }

  lemma AllotmentIsScale(weight: real, total: real)
    requires total > 0.0
    ensures Allotment(weight, total) == Portion(100.0, weight, total)
  {
    assert weight / total * 100.0 == 100.0 * weight / total;
  }

  /** The members' allotments make up the whole window. */
  lemma AllotmentsMakeTheWhole(shares: map<string, Share>, unattributed: real, used: real, costs: map<string, real>,
                               weights: map<string, real>)
    requires AreShares(shares, unattributed, used, costs, weights) && Sum(weights) > 0.0
    ensures Sum(AllottedOf(shares)) == 100.0
  {
    var allotted := AllottedOf(shares);
    hide SumOver, Portion, Allotment;
    SumOfNonZero(allotted.Keys, weights.Keys, allotted);
    forall k | k in weights.Keys ensures allotted[k] == Portion(100.0, weights[k], Sum(weights)) {
      AllotmentIsScale(weights[k], Sum(weights));
    }
    PortionsAddUp(weights.Keys, weights, allotted, 100.0, Sum(weights));
    WholePortion(100.0, Sum(weights));
  }

  // ------------------------------------------------------------------- tallies

  datatype UsageRow = UsageRow(personId: string, deviceName: string, model: string, gateway: string, tokens: Tokens)

  /** What bucketOverview adds costs up by: people, models, and one person's
      models or devices. */
  datatype Grouping = Persons | Models | ModelsOf(person: string) | DevicesOf(person: string)

  function ModelKey(model: string, gateway: string): string {
    gateway + "\0" + model
  }

  predicate In(g: Grouping, r: UsageRow) {
    match g
    case Persons => true
    case Models => true
    case ModelsOf(person) => r.personId == person
    case DevicesOf(person) => r.personId == person
  }

  function KeyIn(g: Grouping, r: UsageRow): string {
    match g
    case Persons => r.personId
    case Models => ModelKey(r.model, r.gateway)
    case ModelsOf(_) => ModelKey(r.model, r.gateway)
    case DevicesOf(_) => r.deviceName
  }

  type Pricing = (string, Tokens) -> real

  ghost predicate NonNegative(cost: Pricing) {
    forall model, tokens :: cost(model, tokens) >= 0.0
  }

  /** The cost of a grouping's rows. */
  function Total(rows: seq<UsageRow>, g: Grouping, cost: Pricing): real {
    if rows == [] then 0.0
    else
      var r := rows[|rows| - 1];
      Total(rows[..|rows| - 1], g, cost) + if In(g, r) then cost(r.model, r.tokens) else 0.0
  }

  /** The cost of a grouping's rows with one key. */
  function Part(rows: seq<UsageRow>, g: Grouping, k: string, cost: Pricing): real {
    if rows == [] then 0.0
    else
      var r := rows[|rows| - 1];
      Part(rows[..|rows| - 1], g, k, cost) + if In(g, r) && KeyIn(g, r) == k then cost(r.model, r.tokens) else 0.0
  }

  function Keys(rows: seq<UsageRow>, g: Grouping): set<string> {
    set r | r in rows && In(g, r) :: KeyIn(g, r)
  }

  /** The map holds what each key's rows cost. */
  ghost predicate Tallies(m: map<string, real>, rows: seq<UsageRow>, g: Grouping, cost: Pricing) {
    m.Keys == Keys(rows, g) && forall k :: k in m ==> m[k] == Part(rows, g, k, cost)
  }

  /** Go's m[k] += c. */
  function AddTo(m: map<string, real>, k: string, c: real): map<string, real> {
    m[k := (if k in m then m[k] else 0.0) + c]
  }

  lemma KeysOneMore(rows: seq<UsageRow>, r: UsageRow, g: Grouping)
    ensures Keys(rows + [r], g) == Keys(rows, g) + if In(g, r) then {KeyIn(g, r)} else {}
  {
    hide In, KeyIn;
    assert forall x :: x in rows + [r] <==> x in rows || x == r;
  }

  lemma {:induction false} NoPart(rows: seq<UsageRow>, g: Grouping, k: string, cost: Pricing)
    requires k !in Keys(rows, g)
    ensures Part(rows, g, k, cost) == 0.0
  {
    if rows != [] {
      var n := |rows| - 1;
      assert rows == rows[..n] + [rows[n]];
      KeysOneMore(rows[..n], rows[n], g);
      NoPart(rows[..n], g, k, cost);
    }
  }

  lemma PartOneMore(rows: seq<UsageRow>, r: UsageRow, g: Grouping, k: string, cost: Pricing)
    ensures Part(rows + [r], g, k, cost)
         == Part(rows, g, k, cost) + if In(g, r) && KeyIn(g, r) == k then cost(r.model, r.tokens) else 0.0
    ensures Total(rows + [r], g, cost) == Total(rows, g, cost) + if In(g, r) then cost(r.model, r.tokens) else 0.0
  {
    assert (rows + [r])[..|rows|] == rows;
  }

  lemma TallyOneMore(m: map<string, real>, rows: seq<UsageRow>, r: UsageRow, g: Grouping, cost: Pricing)
    requires Tallies(m, rows, g, cost)
    ensures Tallies(if In(g, r) then AddTo(m, KeyIn(g, r), cost(r.model, r.tokens)) else m, rows + [r], g, cost)
  {
    var m' := if In(g, r) then AddTo(m, KeyIn(g, r), cost(r.model, r.tokens)) else m;
    KeysOneMore(rows, r, g);
    if KeyIn(g, r) !in m {
      NoPart(rows, g, KeyIn(g, r), cost);
    }
    hide In, KeyIn, Keys, Part;
    forall k | k in m' ensures m'[k] == Part(rows + [r], g, k, cost) {
      PartOneMore(rows, r, g, k, cost);
      assert k != KeyIn(g, r) ==> k in m;
    }
  }

  lemma SumAddTo(m: map<string, real>, k: string, c: real)
    ensures Sum(AddTo(m, k, c)) == Sum(m) + c
  {
    var m' := AddTo(m, k, c);
    SumWithout(m'.Keys, m', k);
    assert m'.Keys - {k} == m.Keys - {k};
    SumScaled(m.Keys - {k}, m, m', 1.0);
    if k in m {
      SumWithout(m.Keys, m, k);
    } else {
      assert m.Keys - {k} == m.Keys;
    }
  }

  lemma OneTally(m: map<string, real>, n: map<string, real>, rows: seq<UsageRow>, g: Grouping, cost: Pricing)
    requires Tallies(m, rows, g, cost) && Tallies(n, rows, g, cost)
    ensures m == n
  {
    hide Keys, Part;
    assert forall k :: k in m <==> k in n;
  }

  /** Whatever a grouping's rows are, its keys' costs add up to all of them. */
  lemma {:induction false} TallyAddsUp(m: map<string, real>, rows: seq<UsageRow>, g: Grouping, cost: Pricing)
    requires Tallies(m, rows, g, cost)
    ensures Sum(m) == Total(rows, g, cost)
  {
    if rows == [] {
      assert m.Keys == {};
    } else {
      var n := |rows| - 1;
      var r, rest := rows[n], rows[..n];
      assert rows == rest + [r];
      hide In, KeyIn, AddTo, Tallies, Sum, Part;
      var before := TallyOf(rest, g, cost);
      TallyAddsUp(before, rest, g, cost);
      TallyOneMore(before, rest, r, g, cost);
      var c := cost(r.model, r.tokens);
      var after := if In(g, r) then AddTo(before, KeyIn(g, r), c) else before;
      OneTally(m, after, rows, g, cost);
      PartOneMore(rest, r, g, KeyIn(g, r), cost);
      SumAddTo(before, KeyIn(g, r), c);
    }
  }

  ghost function TallyOf(rows: seq<UsageRow>, g: Grouping, cost: Pricing): (m: map<string, real>)
    ensures Tallies(m, rows, g, cost)
  {
    map k | k in Keys(rows, g) :: Part(rows, g, k, cost)
  }

  lemma {:induction false} PartNonNegative(rows: seq<UsageRow>, g: Grouping, k: string, cost: Pricing)
    requires NonNegative(cost)
    ensures Part(rows, g, k, cost) >= 0.0
  {
    if rows != [] {
      PartNonNegative(rows[..|rows| - 1], g, k, cost);
    }
  }

  /** A person's rows cost the same however they are told apart. */
  lemma {:induction false} SameRows(rows: seq<UsageRow>, person: string, cost: Pricing)
    ensures Part(rows, Persons, person, cost) == Total(rows, ModelsOf(person), cost)
        == Total(rows, DevicesOf(person), cost)
    ensures Total(rows, Persons, cost) == Total(rows, Models, cost)
  {
    if rows != [] {
      SameRows(rows[..|rows| - 1], person, cost);
    }
  }

  // ------------------------------------------------------------ bucketOverview

  datatype ModelUsage = ModelUsage(model: string, gateway: string, used: real)

  datatype MemberShare = MemberShare(weight: real, share: Share, models: map<string, real>, devices: map<string, real>)

  datatype Overview = Overview(
    reset: bool, used: real, models: map<string, ModelUsage>, unattributed: real, members: map<string, MemberShare>)

  function MemberGrouping(person: string, devices: bool): Grouping {
    if devices then DevicesOf(person) else ModelsOf(person)
  }

  /** Each person's costs by model, or by device. */
  ghost predicate Nested(nested: map<string, map<string, real>>, rows: seq<UsageRow>, devices: bool, cost: Pricing) {
    && nested.Keys == Keys(rows, Persons)
    && forall person :: person in nested ==> Tallies(nested[person], rows, MemberGrouping(person, devices), cost)
  }

  function AddNested(nested: map<string, map<string, real>>, person: string, k: string, c: real): map<string,
                     map<string, real>> {
    nested[person := AddTo(if person in nested then nested[person] else map[], k, c)]
  }

  lemma NothingOf(rows: seq<UsageRow>, person: string, devices: bool, cost: Pricing)
    requires person !in Keys(rows, Persons)
    ensures Tallies(map[], rows, MemberGrouping(person, devices), cost)
  {
    forall r | r in rows ensures !In(MemberGrouping(person, devices), r) {
      assert KeyIn(Persons, r) in Keys(rows, Persons);
    }
    assert Keys(rows, MemberGrouping(person, devices)) == {};
  }

  lemma NestedOneMore(nested: map<string, map<string, real>>, rows: seq<UsageRow>, r: UsageRow, devices: bool,
                      cost: Pricing)
    requires Nested(nested, rows, devices, cost)
    ensures Nested(AddNested(nested, r.personId, KeyIn(MemberGrouping(r.personId, devices), r),
        cost(r.model, r.tokens)),
                   rows + [r], devices, cost)
  {
    var after := AddNested(nested, r.personId, KeyIn(MemberGrouping(r.personId, devices), r), cost(r.model, r.tokens));
    KeysOneMore(rows, r, Persons);
    hide Tallies, AddTo, Keys;
    forall person | person in after ensures Tallies(after[person], rows + [r], MemberGrouping(person, devices), cost) {
      if person !in nested {
        NothingOf(rows, person, devices, cost);
      }
      var before := if person in nested then nested[person] else map[];
      TallyOneMore(before, rows, r, MemberGrouping(person, devices), cost);
    }
  }

  /** The model of some row with the key. */
  ghost predicate NamesRow(k: string, m: ModelUsage, rows: seq<UsageRow>) {
    exists r :: r in rows && ModelKey(r.model, r.gateway) == k && m.model == r.model && m.gateway == r.gateway
  }

  /** Every key of the rows has the model of a row. */
  ghost predicate Named(models: map<string, ModelUsage>, rows: seq<UsageRow>) {
    models.Keys == Keys(rows, Models) && forall k :: k in models ==> NamesRow(k, models[k], rows)
  }

  lemma NamedOneMore(models: map<string, ModelUsage>, rows: seq<UsageRow>, r: UsageRow)
    requires Named(models, rows)
    ensures var key := ModelKey(r.model, r.gateway);
            Named(if key in models then models else models[key := ModelUsage(r.model, r.gateway, 0.0)], rows + [r])
  {
    var key := ModelKey(r.model, r.gateway);
    var after := if key in models then models else models[key := ModelUsage(r.model, r.gateway, 0.0)];
    KeysOneMore(rows, r, Models);
    hide ModelKey, Keys;
    forall k | k in after ensures NamesRow(k, after[k], rows + [r]) {
      if k in models {
        var x :| x in rows && ModelKey(x.model, x.gateway) == k && models[k].model == x.model
          && models[k].gateway == x.gateway;
        assert x in rows + [r];
      } else {
        assert r in rows + [r];
      }
    }
  }

  /** What bucketOverview has added up. */
  datatype Costs = Costs(
    total: real, byPerson: map<string, real>, byModel: map<string, real>, models: map<string, ModelUsage>,
    personModels: map<string, map<string, real>>, personDevices: map<string, map<string, real>>)

  ghost predicate AddedUp(c: Costs, rows: seq<UsageRow>, cost: Pricing) {
    && c.total == Total(rows, Persons, cost) && Tallies(c.byPerson, rows, Persons, cost)
        && Tallies(c.byModel, rows, Models, cost)
    && Named(c.models, rows) && Nested(c.personModels, rows, false, cost)
        && Nested(c.personDevices, rows, true, cost)
  }

  function AddRow(c: Costs, r: UsageRow, cost: Pricing): Costs {
    var amount, key := cost(r.model, r.tokens), ModelKey(r.model, r.gateway);
    Costs(c.total + amount, AddTo(c.byPerson, r.personId, amount), AddTo(c.byModel, key, amount),
          if key in c.models then c.models else c.models[key := ModelUsage(r.model, r.gateway, 0.0)],
          AddNested(c.personModels, r.personId, key, amount),
              AddNested(c.personDevices, r.personId, r.deviceName, amount))
  }

  /** A row counts toward every person and every model. */
  lemma RowTallies(byPerson: map<string, real>, byModel: map<string, real>, rows: seq<UsageRow>, r: UsageRow,
                   cost: Pricing)
    requires Tallies(byPerson, rows, Persons, cost) && Tallies(byModel, rows, Models, cost)
    ensures Tallies(AddTo(byPerson, r.personId, cost(r.model, r.tokens)), rows + [r], Persons, cost)
    ensures Tallies(AddTo(byModel, ModelKey(r.model, r.gateway), cost(r.model, r.tokens)), rows + [r], Models, cost)
    ensures Total(rows + [r], Persons, cost) == Total(rows, Persons, cost) + cost(r.model, r.tokens)
  {
    hide Tallies, AddTo, ModelKey, Part, Total;
    TallyOneMore(byPerson, rows, r, Persons, cost);
    TallyOneMore(byModel, rows, r, Models, cost);
    PartOneMore(rows, r, Persons, "", cost);
  }

  lemma RowNests(c: Costs, rows: seq<UsageRow>, r: UsageRow, cost: Pricing)
    requires Nested(c.personModels, rows, false, cost) && Nested(c.personDevices, rows, true, cost)
    ensures Nested(AddRow(c, r, cost).personModels, rows + [r], false, cost)
    ensures Nested(AddRow(c, r, cost).personDevices, rows + [r], true, cost)
  {
    hide Nested, AddNested, AddTo, ModelKey;
    NestedOneMore(c.personModels, rows, r, false, cost);
    NestedOneMore(c.personDevices, rows, r, true, cost);
  }

  lemma RowAddsUp(c: Costs, rows: seq<UsageRow>, r: UsageRow, cost: Pricing)
    requires AddedUp(c, rows, cost)
    ensures AddedUp(AddRow(c, r, cost), rows + [r], cost)
  {
    hide Tallies, Nested, AddNested, ModelKey, Total, Named;
    NamedOneMore(c.models, rows, r);
    RowTallies(c.byPerson, c.byModel, rows, r, cost);
    RowNests(c, rows, r, cost);
  }

  /** bucketOverview's loop over the rows. */
  method AddUp(rows: seq<UsageRow>, cost: Pricing) returns (c: Costs)
    ensures AddedUp(c, rows, cost)
  {
    c := Costs(0.0, map[], map[], map[], map[], map[]);
    for i := 0 to |rows|
      invariant AddedUp(c, rows[..i], cost)
    {
      assert rows[..i + 1] == rows[..i] + [rows[i]];
      RowAddsUp(c, rows[..i], rows[i], cost);
      hide AddedUp;
      c := AddRow(c, rows[i], cost);
    }
    assert rows[..|rows|] == rows;
  }

  /** A breakdown leaves out what cost nothing. */
  ghost predicate IsBreakdown(m: map<string, real>, costs: map<string, real>, used: real, total: real) {
    && m.Keys == (set k | k in costs && costs[k] > 0.0 && total > 0.0)
    && forall k :: k in m ==> total > 0.0 && m[k] == Portion(used, costs[k], total)
  }

  /** The parts of a share that cost something, among the given keys. */
  method BreakDown(keys: set<string>, costs: map<string, real>, used: real, total: real) returns (m: map<string, real>)
    requires costs.Keys <= keys
    ensures IsBreakdown(m, costs, used, total)
  {
    hide Portion;
    m := map[];
    var todo := keys;
    while todo != {}
      invariant todo <= keys
      invariant m.Keys == set k | k in costs && k !in todo && costs[k] > 0.0 && total > 0.0
      invariant forall k :: k in m ==> total > 0.0 && m[k] == Portion(used, costs[k], total)
      decreases |todo|
    {
      var k :| k in todo;
      if k in costs && costs[k] > 0.0 && total > 0.0 {
        m := m[k := Portion(used, costs[k], total)];
      }
      todo := todo - {k};
    }
  }

  predicate HasReset(b: Observed, now: Time) {
    b.bucket.resetsAt.Some? && b.bucket.resetsAt.value <= now
  }

  function SharesOf(members: map<string, MemberShare>): (m: map<string, Share>)
    ensures m.Keys == members.Keys
  {
    map person | person in members :: members[person].share
  }

  function ModelsUsed(models: map<string, ModelUsage>): (m: map<string, real>)
    ensures m.Keys == models.Keys
  {
    map k | k in models :: models[k].used
  }

  ghost predicate IsMember(m: MemberShare, person: string, rows: seq<UsageRow>, used: real, weights: map<string,
                           real>, cost: Pricing) {
    && m.weight == (if person in weights then weights[person] else 0.0)
    && IsBreakdown(m.models, TallyOf(rows, ModelsOf(person), cost), used, Total(rows, Persons, cost))
    && IsBreakdown(m.devices, TallyOf(rows, DevicesOf(person), cost), used, Total(rows, Persons, cost))
  }

  /** What bucketOverview answers for the rows of a bucket that has not reset. */
  ghost predicate IsOverview(o: Overview, rows: seq<UsageRow>, weights: map<string, real>, cost: Pricing) {
    var total := Total(rows, Persons, cost);
    && Named(o.models, rows)
    && (forall k :: k in o.models ==>
          o.models[k].used == if total > 0.0 then Portion(o.used, Part(rows, Models, k, cost), total) else 0.0)
    && AreShares(SharesOf(o.members), o.unattributed, o.used, TallyOf(rows, Persons, cost), weights)
    && forall person :: person in o.members ==> IsMember(o.members[person], person, rows, o.used, weights, cost)
  }

  /** bucketOverview. Once a bucket has reset, its use is not known, and nothing is shared. */
  method BucketOverview(b: Observed, now: Time, weights: map<string, real>, rows: seq<UsageRow>,
                        cost: Pricing) returns (o: Overview)
    ensures o.reset <==> b.bucket.resetsAt.Some? && now >= b.bucket.resetsAt.value
    ensures o.used == if o.reset || b.bucket.usedPercent.None? then 0.0 else b.bucket.usedPercent.value
    ensures IsOverview(o, if o.reset then [] else rows, weights, cost)
  {
    var reset, used := HasReset(b, now), if b.bucket.usedPercent.Some? then b.bucket.usedPercent.value else 0.0;
    if reset {
      used := 0.0;
    }
    hide IsOverview;
    o := OverviewOf(if reset then [] else rows, reset, used, weights, cost);
  }

  /** The shares of the rows that count. */
  method OverviewOf(counted: seq<UsageRow>, reset: bool, used: real, weights: map<string, real>, cost: Pricing)
    returns (o: Overview)
    ensures o.reset == reset && o.used == used && IsOverview(o, counted, weights, cost)
  {
    var c := AddUp(counted, cost);
    hide Total, Portion, In, KeyIn, Keys, TallyOf, IsMember, AreShares, IsShare;
    OneTally(c.byPerson, TallyOf(counted, Persons, cost), counted, Persons, cost);
    OneTally(c.byModel, TallyOf(counted, Models, cost), counted, Models, cost);
    var models := ShareModels(c.models, c.byModel, used, c.total, counted);
    var shares, unattributed := Apportion(used, c.byPerson, weights);
    var members := ShareMembers(shares, c, counted, used, weights, cost);
    assert SharesOf(members) == shares;
    o := Overview(reset, used, models, unattributed, members);
  }

  method ShareModels(names: map<string, ModelUsage>, costs: map<string, real>, used: real, total: real,
                     ghost rows: seq<UsageRow>) returns (models: map<string, ModelUsage>)
    requires Named(names, rows) && names.Keys <= costs.Keys
    ensures Named(models, rows)
    ensures forall k :: k in models ==> models[k].used == if total > 0.0 then Portion(used, costs[k], total) else 0.0
  {
    hide Portion, ModelKey, Keys;
    models := map[];
    var todo := names.Keys;
    while todo != {}
      invariant todo <= names.Keys && models.Keys == names.Keys - todo
      invariant forall k :: k in models ==>
          models[k] == names[k].(used := if total > 0.0 then Portion(used, costs[k], total) else 0.0)
      decreases |todo|
    {
      var k :| k in todo;
      models := models[k := names[k].(used := if total > 0.0 then Portion(used, costs[k], total) else 0.0)];
      todo := todo - {k};
    }
  }

  function CostsOf(nested: map<string, map<string, real>>, person: string): map<string, real> {
    if person in nested then nested[person] else map[]
  }

  lemma CostsAre(nested: map<string, map<string, real>>, rows: seq<UsageRow>, person: string, devices: bool,
                 cost: Pricing)
    requires Nested(nested, rows, devices, cost)
    ensures CostsOf(nested, person) == TallyOf(rows, MemberGrouping(person, devices), cost)
  {
    hide Tallies, Keys;
    if person !in nested {
      NothingOf(rows, person, devices, cost);
    }
    OneTally(CostsOf(nested, person), TallyOf(rows, MemberGrouping(person, devices), cost), rows,
        MemberGrouping(person, devices), cost);
  }

  /** One member's share. */
  method ShareMember(person: string, s: Share, c: Costs, ghost rows: seq<UsageRow>, used: real, weights: map<string,
                     real>, cost: Pricing)
    returns (m: MemberShare)
    requires AddedUp(c, rows, cost)
    ensures m.share == s && IsMember(m, person, rows, used, weights, cost)
  {
    var modelCosts := CostsOf(c.personModels, person);
    var deviceCosts := CostsOf(c.personDevices, person);
    ModelsAreKnown(c, rows, person, cost);
    CostsAre(c.personModels, rows, person, false, cost);
    CostsAre(c.personDevices, rows, person, true, cost);
    hide IsBreakdown, CostsOf, Nested, Tallies, TallyOf;
    var models := BreakDown(c.models.Keys, modelCosts, used, c.total);
    var devices := BreakDown(deviceCosts.Keys, deviceCosts, used, c.total);
    m := MemberShare(if person in weights then weights[person] else 0.0, s, models, devices);
  }

  /** Every model of a member is one of the bucket's. */
  lemma ModelsAreKnown(c: Costs, rows: seq<UsageRow>, person: string, cost: Pricing)
    requires AddedUp(c, rows, cost)
    ensures CostsOf(c.personModels, person).Keys <= c.models.Keys
  {
    hide Part, Total, ModelKey;
    if person in c.personModels {
      assert Tallies(c.personModels[person], rows, ModelsOf(person), cost);
      assert Keys(rows, ModelsOf(person)) <= Keys(rows, Models);
    }
  }

  method ShareMembers(shares: map<string, Share>, c: Costs, ghost rows: seq<UsageRow>, used: real,
                      weights: map<string, real>, cost: Pricing)
    returns (members: map<string, MemberShare>)
    requires AddedUp(c, rows, cost)
    ensures members.Keys == shares.Keys
    ensures forall person :: person in members ==>
      members[person].share == shares[person] && IsMember(members[person], person, rows, used, weights, cost)
  {
    hide AddedUp, IsMember;
    members := map[];
    var todo := shares.Keys;
    while todo != {}
      invariant todo <= shares.Keys && members.Keys == shares.Keys - todo
      invariant forall person :: person in members ==>
        members[person].share == shares[person] && IsMember(members[person], person, rows, used, weights, cost)
      decreases |todo|
    {
      var person :| person in todo;
      var m := ShareMember(person, shares[person], c, rows, used, weights, cost);
      members := members[person := m];
      todo := todo - {person};
    }
  }

  // --------------------------------------------------------------- conservation

  /** A breakdown adds up to the whole it breaks down. */
  lemma BreakdownAddsUp(m: map<string, real>, rows: seq<UsageRow>, g: Grouping, used: real, total: real, cost: Pricing)
    requires NonNegative(cost) && total > 0.0 && IsBreakdown(m, TallyOf(rows, g, cost), used, total)
    ensures Sum(m) == Portion(used, Total(rows, g, cost), total)
  {
    var costs := TallyOf(rows, g, cost);
    hide SumOver, Portion, Part, Total, Keys;
    forall k | k in costs && k !in m.Keys ensures costs[k] == 0.0 {
      PartNonNegative(rows, g, k, cost);
    }
    SumOfNonZero(costs.Keys, m.Keys, costs);
    TallyAddsUp(costs, rows, g, cost);
    PortionsAddUp(m.Keys, costs, m, used, total);
  }

  /** The overview shares out what was used, no more and no less: members and
      what is unattributed make up the bucket's use; and when anything cost
      anything, the models make up the bucket's use, and each member's models,
      and each member's devices, make up that member's. */
  lemma OverviewConserves(o: Overview, rows: seq<UsageRow>, weights: map<string, real>, cost: Pricing, person: string)
    requires NonNegative(cost) && IsOverview(o, rows, weights, cost)
    ensures Sum(UsedOf(SharesOf(o.members))) + o.unattributed == o.used
    ensures Total(rows, Persons, cost) > 0.0 ==> Sum(ModelsUsed(o.models)) == o.used && o.unattributed == 0.0
    ensures Total(rows, Persons, cost) > 0.0 && person in o.members ==>
      Sum(o.members[person].models) == o.members[person].share.used == Sum(o.members[person].devices)
  {
    var total, costs := Total(rows, Persons, cost), TallyOf(rows, Persons, cost);
    hide Sum, Portion, Total, Part, UsedOf, Keys;
    UseIsConserved(SharesOf(o.members), o.unattributed, o.used, costs, weights);
    TallyAddsUp(costs, rows, Persons, cost);
    if total > 0.0 {
      ModelsAddUp(o, rows, weights, cost);
      if person in o.members {
        MemberAddsUp(o, rows, weights, cost, person);
      }
    }
  }

  lemma ModelsAddUp(o: Overview, rows: seq<UsageRow>, weights: map<string, real>, cost: Pricing)
    requires IsOverview(o, rows, weights, cost) && Total(rows, Persons, cost) > 0.0
    ensures Sum(ModelsUsed(o.models)) == o.used
  {
    var total, costs := Total(rows, Persons, cost), TallyOf(rows, Models, cost);
    hide SumOver, Portion, Part, Total, Keys, AreShares;
    PortionsAddUp(costs.Keys, costs, ModelsUsed(o.models), o.used, total);
    TallyAddsUp(costs, rows, Models, cost);
    SameRows(rows, "", cost);
    WholePortion(o.used, total);
  }

  lemma MemberAddsUp(o: Overview, rows: seq<UsageRow>, weights: map<string, real>, cost: Pricing, person: string)
    requires NonNegative(cost) && IsOverview(o, rows, weights, cost) && Total(rows, Persons, cost) > 0.0
        && person in o.members
    ensures Sum(o.members[person].models) == o.members[person].share.used == Sum(o.members[person].devices)
  {
    var total, m := Total(rows, Persons, cost), o.members[person];
    var costs := TallyOf(rows, Persons, cost);
    TallyAddsUp(costs, rows, Persons, cost);
    assert IsShare(SharesOf(o.members)[person], person, o.used, costs, weights);
    hide Sum, Part, Keys, IsBreakdown;
    BreakdownAddsUp(m.models, rows, ModelsOf(person), o.used, total, cost);
    BreakdownAddsUp(m.devices, rows, DevicesOf(person), o.used, total, cost);
    SameRows(rows, person, cost);
    if person !in costs {
      NoPart(rows, Persons, person, cost);
    }
    hide Total, Portion;
    NoPortion(o.used, total);
  }

  lemma NoPortion(whole: real, total: real)
    requires total != 0.0
    ensures Portion(whole, 0.0, total) == 0.0
  {
  }

  // ------------------------------------------------------- shares of the rows

  /** gateway, followed by NUL, begins other. */
  ghost predicate NulPrefix(gateway: string, other: string) {
    gateway + "\0" <= other
  }

  /** Of two gateways, the key tells every model of the one from every model of
      the other, and each one's models apart, exactly when neither followed by
      NUL begins the other. */
  lemma ModelKeyTells(g: string, h: string)
    ensures (forall a, b :: ModelKey(a, g) == ModelKey(b, h) ==> a == b && g == h)
      <==> !NulPrefix(g, h) && !NulPrefix(h, g)
  {
    if NulPrefix(g, h) {
      Confused(g, h);
    } else if NulPrefix(h, g) {
      Confused(h, g);
    } else {
      forall a, b | ModelKey(a, g) == ModelKey(b, h) ensures a == b && g == h {
        EitherPrefixed(a, g, b, h);
      }
    }
  }

  lemma Confused(g: string, h: string)
    requires NulPrefix(g, h)
    ensures g != h && exists a, b :: ModelKey(a, g) == ModelKey(b, h)
    ensures exists a, b :: ModelKey(a, h) == ModelKey(b, g)
  {
    var rest := h[|g| + 1..];
    assert h == g + "\0" + rest;
    assert ModelKey(rest + "\0", g) == ModelKey("", h);
  }

  lemma Prefixed(a: string, g: string, b: string, h: string)
    requires ModelKey(a, g) == ModelKey(b, h) && |g| < |h|
    ensures NulPrefix(g, h)
  {
    var key := ModelKey(a, g);
    assert key[..|g|] == g && key[..|h|] == h && key[|g|] == '\0';
    assert h[..|g| + 1] == g + "\0";
  }

  lemma Told(a: string, g: string, b: string, h: string)
    requires ModelKey(a, g) == ModelKey(b, h) && |g| == |h|
    ensures a == b && g == h
  {
    var key := ModelKey(a, g);
    assert key[..|g|] == g && key[..|h|] == h;
    assert key[|g| + 1..] == a && key[|h| + 1..] == b;
  }

  lemma EitherPrefixed(a: string, g: string, b: string, h: string)
    requires ModelKey(a, g) == ModelKey(b, h)
    ensures NulPrefix(g, h) || NulPrefix(h, g) || (a == b && g == h)
  {
    hide ModelKey;
    if |g| < |h| {
      Prefixed(a, g, b, h);
    } else if |h| < |g| {
      Prefixed(b, h, a, g);
    } else {
      Told(a, g, b, h);
    }
  }

  /** No gateway's name holds the character that sets it off from the model's. */
  ghost predicate PlainGateways(rows: seq<UsageRow>) {
    forall r :: r in rows ==> '\0' !in r.gateway
  }

  lemma PrefixHasNul(g: string, h: string)
    ensures NulPrefix(g, h) ==> '\0' in h
  {
    if NulPrefix(g, h) {
      assert h[|g|] == '\0';
    }
  }

  lemma PlainTold(a: string, g: string, b: string, h: string)
    requires '\0' !in g && '\0' !in h
    ensures ModelKey(a, g) == ModelKey(b, h) <==> a == b && g == h
  {
    PrefixHasNul(g, h);
    PrefixHasNul(h, g);
    hide NulPrefix, ModelKey;
    if ModelKey(a, g) == ModelKey(b, h) {
      EitherPrefixed(a, g, b, h);
    }
  }

  /** What the rows that have a property cost. */
  ghost function CostWhere(rows: seq<UsageRow>, p: UsageRow -> bool, cost: Pricing): real {
    if rows == [] then 0.0
    else CostWhere(rows[1..], p, cost) + if p(rows[0]) then cost(rows[0].model, rows[0].tokens) else 0.0
  }

  ghost function Every(): UsageRow -> bool { (r: UsageRow) => true }

  ghost function OfPerson(person: string): UsageRow -> bool { (r: UsageRow) => r.personId == person }

  ghost function OfModel(model: string, gateway: string): UsageRow -> bool {
    (r: UsageRow) => r.model == model && r.gateway == gateway
  }

  ghost function OnDevice(person: string, device: string): UsageRow -> bool {
    (r: UsageRow) => r.personId == person && r.deviceName == device
  }

  ghost function PersonsModel(person: string, model: string, gateway: string): UsageRow -> bool {
    (r: UsageRow) => r.personId == person && r.model == model && r.gateway == gateway
  }

  lemma {:induction false} CostOneMore(rows: seq<UsageRow>, r: UsageRow, p: UsageRow -> bool, cost: Pricing)
    ensures CostWhere(rows + [r], p, cost)
         == CostWhere(rows, p, cost) + if p(r) then cost(r.model, r.tokens) else 0.0
  {
    if rows != [] {
      assert (rows + [r])[1..] == rows[1..] + [r];
      CostOneMore(rows[1..], r, p, cost);
    }
  }

  lemma {:induction false} PartIs(rows: seq<UsageRow>, g: Grouping, k: string, p: UsageRow -> bool, cost: Pricing)
    requires forall r :: r in rows ==> (p(r) <==> In(g, r) && KeyIn(g, r) == k)
    ensures Part(rows, g, k, cost) == CostWhere(rows, p, cost)
  {
    if rows != [] {
      var n := |rows| - 1;
      hide In, KeyIn;
      assert rows == rows[..n] + [rows[n]];
      PartIs(rows[..n], g, k, p, cost);
      CostOneMore(rows[..n], rows[n], p, cost);
    }
  }

  lemma {:induction false} TotalIs(rows: seq<UsageRow>, g: Grouping, p: UsageRow -> bool, cost: Pricing)
    requires forall r :: r in rows ==> (p(r) <==> In(g, r))
    ensures Total(rows, g, cost) == CostWhere(rows, p, cost)
  {
    if rows != [] {
      var n := |rows| - 1;
      hide In;
      assert rows == rows[..n] + [rows[n]];
      TotalIs(rows[..n], g, p, cost);
      CostOneMore(rows[..n], rows[n], p, cost);
    }
  }

  /** part is to the use known as what the rows with a property cost is to all the cost. */
  ghost predicate InProportion(part: real, used: real, rows: seq<UsageRow>, p: UsageRow -> bool, cost: Pricing) {
    part * CostWhere(rows, Every(), cost) == used * CostWhere(rows, p, cost)
  }

  lemma PortionMeans(whole: real, part: real, total: real)
    requires total != 0.0
    ensures Portion(whole, part, total) * total == whole * part
  {
  }

  lemma AllCost(rows: seq<UsageRow>, cost: Pricing)
    ensures Total(rows, Persons, cost) == CostWhere(rows, Every(), cost)
  {
    TotalIs(rows, Persons, Every(), cost);
  }

  /** p holds of exactly the rows the grouping has under the key. */
  ghost predicate Selects(p: UsageRow -> bool, rows: seq<UsageRow>, g: Grouping, k: string) {
    forall r :: r in rows ==> (p(r) <==> In(g, r) && KeyIn(g, r) == k)
  }

  lemma PartInProportion(used: real, rows: seq<UsageRow>, g: Grouping, k: string, p: UsageRow -> bool, cost: Pricing)
    requires CostWhere(rows, Every(), cost) != 0.0 && Selects(p, rows, g, k)
    ensures InProportion(Portion(used, Part(rows, g, k, cost), CostWhere(rows, Every(), cost)), used, rows, p, cost)
  {
    hide Portion, Part, CostWhere, In, KeyIn, InProportion;
    PartIs(rows, g, k, p, cost);
    InProportionIs(used, rows, p, cost);
  }

  lemma InProportionIs(used: real, rows: seq<UsageRow>, p: UsageRow -> bool, cost: Pricing)
    requires CostWhere(rows, Every(), cost) != 0.0
    ensures InProportion(Portion(used, CostWhere(rows, p, cost), CostWhere(rows, Every(), cost)), used, rows, p, cost)
  {
    hide Portion, CostWhere;
    PortionMeans(used, CostWhere(rows, p, cost), CostWhere(rows, Every(), cost));
  }

  /** Every model the rows use is shown, and no other, each with the part of
      the use that its own rows cost: a gateway's model apart from the same
      model used directly. */
  lemma ModelsShown(o: Overview, rows: seq<UsageRow>, weights: map<string, real>, cost: Pricing, k: string)
    requires IsOverview(o, rows, weights, cost) && PlainGateways(rows) && CostWhere(rows, Every(), cost) > 0.0
    requires k in o.models
    ensures exists r :: r in rows && r.model == o.models[k].model && r.gateway == o.models[k].gateway
    ensures InProportion(o.models[k].used, o.used, rows, OfModel(o.models[k].model, o.models[k].gateway), cost)
    ensures forall j :: j in o.models && SameModel(o.models[j], o.models[k]) ==> j == k
  {
    var m := o.models[k];
    var x :| x in rows && ModelKey(x.model, x.gateway) == k && m.model == x.model && m.gateway == x.gateway;
    forall r | r in rows
      ensures OfModel(m.model, m.gateway)(r) <==> In(Models, r) && KeyIn(Models, r) == k {
      PlainTold(r.model, r.gateway, m.model, m.gateway);
    }
    AllCost(rows, cost);
    hide ModelKey, AreShares, CostWhere, Total;
    PartInProportion(o.used, rows, Models, k, OfModel(m.model, m.gateway), cost);
  }

  predicate SameModel(a: ModelUsage, b: ModelUsage) {
    a.model == b.model && a.gateway == b.gateway
  }

  lemma RowShown(o: Overview, rows: seq<UsageRow>, weights: map<string, real>, cost: Pricing, r: UsageRow)
    requires IsOverview(o, rows, weights, cost) && PlainGateways(rows) && r in rows
    ensures exists k :: k in o.models && o.models[k].model == r.model && o.models[k].gateway == r.gateway
  {
    var k := KeyIn(Models, r);
    assert In(Models, r) && k in Keys(rows, Models);
    assert NamesRow(k, o.models[k], rows);
    var x :| x in rows && ModelKey(x.model, x.gateway) == k && o.models[k].model == x.model
      && o.models[k].gateway == x.gateway;
    PlainTold(r.model, r.gateway, x.model, x.gateway);
  }

  lemma MemberUse(o: Overview, rows: seq<UsageRow>, weights: map<string, real>, cost: Pricing, person: string)
    requires IsOverview(o, rows, weights, cost) && Total(rows, Persons, cost) > 0.0 && person in o.members
    ensures o.members[person].share.used
         == Portion(o.used, Part(rows, Persons, person, cost), Total(rows, Persons, cost))
  {
    var costs := TallyOf(rows, Persons, cost);
    TallyAddsUp(costs, rows, Persons, cost);
    hide Portion, Part, Total, Sum, Keys, IsMember;
    assert IsShare(SharesOf(o.members)[person], person, o.used, costs, weights);
    if person !in costs {
      NoPart(rows, Persons, person, cost);
      NoPortion(o.used, Total(rows, Persons, cost));
    }
  }

  /** A member's use is the part of the bucket's that the member's own rows cost. */
  lemma MemberShown(o: Overview, rows: seq<UsageRow>, weights: map<string, real>, cost: Pricing, person: string)
    requires IsOverview(o, rows, weights, cost) && CostWhere(rows, Every(), cost) > 0.0 && person in o.members
    ensures InProportion(o.members[person].share.used, o.used, rows, OfPerson(person), cost)
  {
    hide IsOverview, Portion, InProportion, Part, Total, CostWhere, Selects;
    AllCost(rows, cost);
    OfPersonIs(rows, person);
    PartInProportion(o.used, rows, Persons, person, OfPerson(person), cost);
    MemberUse(o, rows, weights, cost, person);
  }

  /** A member's allotment is to the whole as its weight to all the weights. */
  lemma AllotmentShown(o: Overview, rows: seq<UsageRow>, weights: map<string, real>, cost: Pricing, person: string)
    requires IsOverview(o, rows, weights, cost)
    ensures person in weights ==> person in o.members && o.members[person].weight == weights[person]
    ensures person in weights && Sum(weights) > 0.0 ==>
      o.members[person].share.allotted * Sum(weights) == 100.0 * weights[person]
    ensures person in o.members && (person !in weights || Sum(weights) <= 0.0) ==>
      o.members[person].share.allotted == 0.0
  {
    hide Portion, Part, Total, Sum, Keys;
    assert SharesOf(o.members).Keys == o.members.Keys;
    if person in weights && Sum(weights) > 0.0 {
      AllotmentIsScale(weights[person], Sum(weights));
      PortionMeans(100.0, weights[person], Sum(weights));
    }
  }

  lemma MemberIs(o: Overview, rows: seq<UsageRow>, weights: map<string, real>, cost: Pricing, person: string)
    requires IsOverview(o, rows, weights, cost) && person in o.members
    ensures IsMember(o.members[person], person, rows, o.used, weights, cost)
  {
    hide IsMember, AreShares, Portion, Part, Total;
  }

  lemma OfPersonIs(rows: seq<UsageRow>, person: string)
    ensures Selects(OfPerson(person), rows, Persons, person)
  {
  }

  lemma OnDeviceIs(rows: seq<UsageRow>, person: string, device: string)
    ensures Selects(OnDevice(person, device), rows, DevicesOf(person), device)
  {
  }

  lemma PersonsModelIs(rows: seq<UsageRow>, person: string, model: string, gateway: string)
    requires PlainGateways(rows) && '\0' !in gateway
    ensures Selects(PersonsModel(person, model, gateway), rows, ModelsOf(person), ModelKey(model, gateway))
  {
    hide ModelKey;
    forall r | r in rows {
      PlainTold(r.model, r.gateway, model, gateway);
    }
  }

  lemma BreakdownShown(m: map<string, real>, rows: seq<UsageRow>, g: Grouping, k: string, p: UsageRow -> bool,
                       used: real, cost: Pricing)
    requires IsBreakdown(m, TallyOf(rows, g, cost), used, Total(rows, Persons, cost))
    requires CostWhere(rows, Every(), cost) > 0.0 && Selects(p, rows, g, k)
    ensures k in m <==> CostWhere(rows, p, cost) > 0.0
    ensures k in m ==> InProportion(m[k], used, rows, p, cost)
  {
    PartIs(rows, g, k, p, cost);
    AllCost(rows, cost);
    PartInProportion(used, rows, g, k, p, cost);
    hide Portion, InProportion, Part, Total, Keys, CostWhere;
    if k !in TallyOf(rows, g, cost) {
      NoPart(rows, g, k, cost);
    }
  }

  /** A member's device is shown exactly when its rows cost something, with
      the part of the use they cost. */
  lemma DeviceShown(o: Overview, rows: seq<UsageRow>, weights: map<string, real>, cost: Pricing, person: string,
                    device: string)
    requires IsOverview(o, rows, weights, cost) && CostWhere(rows, Every(), cost) > 0.0 && person in o.members
    ensures device in o.members[person].devices <==> CostWhere(rows, OnDevice(person, device), cost) > 0.0
    ensures device in o.members[person].devices ==>
      InProportion(o.members[person].devices[device], o.used, rows, OnDevice(person, device), cost)
  {
    hide InProportion, CostWhere, IsOverview, IsBreakdown, OnDevice, In, KeyIn;
    MemberIs(o, rows, weights, cost, person);
    OnDeviceIs(rows, person, device);
    BreakdownShown(o.members[person].devices, rows, DevicesOf(person), device, OnDevice(person, device), o.used, cost);
  }

  /** So is a member's model. */
  lemma MembersModelShown(o: Overview, rows: seq<UsageRow>, weights: map<string, real>, cost: Pricing, person: string,
                          model: string, gateway: string)
    requires IsOverview(o, rows, weights, cost) && CostWhere(rows, Every(), cost) > 0.0 && person in o.members
    requires PlainGateways(rows) && '\0' !in gateway
    ensures var k, p := ModelKey(model, gateway), PersonsModel(person, model, gateway);
      && (k in o.members[person].models <==> CostWhere(rows, p, cost) > 0.0)
      && (k in o.members[person].models ==> InProportion(o.members[person].models[k], o.used, rows, p, cost))
  {
    hide InProportion, CostWhere, IsOverview, IsBreakdown, PersonsModel, In, KeyIn, ModelKey, PlainGateways;
    MemberIs(o, rows, weights, cost, person);
    PersonsModelIs(rows, person, model, gateway);
    BreakdownShown(o.members[person].models, rows, ModelsOf(person), ModelKey(model, gateway),
      PersonsModel(person, model, gateway), o.used, cost);
  }
}
