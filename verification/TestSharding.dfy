/** Duration-weighted sharding of a test suite (tools/run_test_shard.py).

    Whole modules are placed, heaviest first, on the shard that currently carries the least
    estimated time; then every test is appended, in discovery order, to the shard of its module.
    The main results compare the heaviest shard with every other way to place the modules
    (Graham's 4/3 - 1/(3m) bound) and show that shards started separately agree. */
module TestSharding {

  datatype Case = Case(owner: string, testId: string)

  /** A module with its number of tests and its estimated weight in seconds. */
  datatype Item = Item(name: string, tests: nat, weight: real)

  /** The greedy state: estimated seconds and tests per shard, and the shard of every placed module. */
  datatype Shards = Shards(loads: seq<real>, tests: seq<int>, target: map<string, nat>)

  // ---------------------------------------------------------------- the placement order

  /** Code point order on names, as Python compares strings. */
  predicate NameBefore(a: string, b: string) {
    b != [] && (a == [] || a[0] < b[0] || (a[0] == b[0] && NameBefore(a[1..], b[1..])))
  }

  lemma {:induction false} NameOrderIsTotal(a: string, b: string)
    ensures !(NameBefore(a, b) && NameBefore(b, a))
    ensures NameBefore(a, b) || NameBefore(b, a) || a == b
  {
    if a != [] && b != [] && a[0] == b[0] {
      NameOrderIsTotal(a[1..], b[1..]);
      assert a == [a[0]] + a[1..] && b == [b[0]] + b[1..];
    }
  }

  /** The first position in which two names differ. */
  predicate DifferFirstAt(a: string, b: string, k: nat) {
    k <= |a| && k < |b| && a[..k] == b[..k] && (k == |a| || a[k] < b[k])
  }

  lemma FirstAgrees(a: string, b: string, k: nat)
    requires 0 < k <= |a| && k < |b| && a[..k] == b[..k]
    ensures a[0] == b[0]
  {
    assert a[0] == a[..k][0] && b[0] == b[..k][0];
  }

  /** A name comes before another if it is a proper prefix of it or smaller in the first character that differs. */
  lemma {:induction false} NameOrderIsLexicographic(a: string, b: string)
    ensures NameBefore(a, b) <==> exists k: nat :: DifferFirstAt(a, b, k)
  {
    if a == [] || b == [] || a[0] != b[0] {
      if NameBefore(a, b) { assert DifferFirstAt(a, b, 0); }
      if k: nat :| DifferFirstAt(a, b, k) {
        if k > 0 { FirstAgrees(a, b, k); }
      }
    } else {
      NameOrderIsLexicographic(a[1..], b[1..]);
      assert a == [a[0]] + a[1..] && b == [b[0]] + b[1..];
      if k: nat :| DifferFirstAt(a[1..], b[1..], k) {
        assert a[..k + 1] == [a[0]] + a[1..][..k] && b[..k + 1] == [b[0]] + b[1..][..k];
        assert DifferFirstAt(a, b, k + 1);
      }
      if k: nat :| DifferFirstAt(a, b, k) {
        assert a[1..][..k - 1] == a[..k][1..] && b[1..][..k - 1] == b[..k][1..];
        assert DifferFirstAt(a[1..], b[1..], k - 1);
      }
    }
  }

  lemma {:induction false} NameOrderIsTransitive(a: string, b: string, c: string)
    requires NameBefore(a, b) && NameBefore(b, c)
    ensures NameBefore(a, c)
  {
    if a != [] && b != [] && c != [] && a[0] == b[0] == c[0] {
      NameOrderIsTransitive(a[1..], b[1..], c[1..]);
    }
  }

  /** The sort key (-weight, name). */
  predicate PlacedBefore(x: Item, y: Item) {
    x.weight > y.weight || (x.weight == y.weight && NameBefore(x.name, y.name))
  }

  ghost predicate InOrder(order: seq<Item>) {
    forall i, j :: 0 <= i < j < |order| ==> PlacedBefore(order[i], order[j])
  }

  ghost predicate IsSchedule(order: seq<Item>, items: set<Item>) {
    InOrder(order) && forall x :: x in order <==> x in items
  }

  ghost predicate DistinctNames(items: set<Item>) {
    forall x, y :: x in items && y in items && x.name == y.name ==> x == y
  }

  function Insert(x: Item, order: seq<Item>): (r: seq<Item>)
    ensures multiset(r) == multiset(order) + multiset{x}
  {
    if order == [] || PlacedBefore(x, order[0]) then
      assert [x] + order == [x] + order; [x] + order
    else
      assert order == [order[0]] + order[1..];
      [order[0]] + Insert(x, order[1..])
  }

  lemma MultisetMembers(s: seq<Item>)
    ensures forall y :: y in s <==> y in multiset(s)
  {
  }

  lemma InsertMembers(x: Item, order: seq<Item>)
    ensures forall y :: y in Insert(x, order) <==> y in order || y == x
  {
    MultisetMembers(Insert(x, order));
    MultisetMembers(order);
    assert forall y :: y in multiset(Insert(x, order)) <==> y in multiset(order) || y == x;
  }

  lemma Prepend(x: Item, order: seq<Item>)
    requires InOrder(order) && forall y :: y in order ==> PlacedBefore(x, y)
    ensures InOrder([x] + order)
  {
  }

  lemma FirstIsLeast(order: seq<Item>, y: Item)
    requires InOrder(order) && y in order
    ensures y == order[0] || PlacedBefore(order[0], y)
  {
  }

  lemma {:induction false} InsertKeepsOrder(x: Item, order: seq<Item>)
    requires InOrder(order)
    requires forall y :: y in order ==> y.name != x.name
    ensures InOrder(Insert(x, order))
  {
    if order == [] {
    } else if PlacedBefore(x, order[0]) {
      forall y | y in order ensures PlacedBefore(x, y) {
        FirstIsLeast(order, y);
        if y != order[0] { PlacedBeforeTransitive(x, order[0], y); }
      }
      Prepend(x, order);
    } else {
      assert forall y :: y in order[1..] ==> y in order;
      InsertKeepsOrder(x, order[1..]);
      InsertMembers(x, order[1..]);
      assert order[0] in order;
      NameOrderIsTotal(x.name, order[0].name);
      Prepend(order[0], Insert(x, order[1..]));
    }
  }

  lemma PlacedBeforeTransitive(x: Item, y: Item, z: Item)
    requires PlacedBefore(x, y) && PlacedBefore(y, z)
    ensures PlacedBefore(x, z)
  {
    if x.weight == y.weight == z.weight { NameOrderIsTransitive(x.name, y.name, z.name); }
  }

  lemma {:induction false} ScheduleExists(items: set<Item>) returns (order: seq<Item>)
    requires DistinctNames(items)
    ensures IsSchedule(order, items)
  {
    if items == {} {
      order := [];
    } else {
      var x :| x in items;
      var rest := ScheduleExists(items - {x});
      InsertKeepsOrder(x, rest);
      InsertMembers(x, rest);
      order := Insert(x, rest);
    }
  }

  /** The sort key leaves no tie, so the placement order is determined by the set of modules. */
  lemma {:induction false} ScheduleIsUnique(s: seq<Item>, t: seq<Item>)
    requires InOrder(s) && InOrder(t)
    requires forall x :: x in s <==> x in t
    ensures s == t
  {
    assert |s| > 0 ==> s[0] in s;
    assert |t| > 0 ==> t[0] in t;
    if |s| > 0 {
      FirstIsLeast(s, t[0]);
      FirstIsLeast(t, s[0]);
      NameOrderIsTotal(s[0].name, t[0].name);
      forall x ensures x in s[1..] <==> x in t[1..] {
        NotRepeated(s, x);
        NotRepeated(t, x);
      }
      ScheduleIsUnique(s[1..], t[1..]);
      assert s == [s[0]] + s[1..] && t == [t[0]] + t[1..];
    }
  }

  lemma NotRepeated(s: seq<Item>, x: Item)
    requires s != [] && InOrder(s)
    ensures x in s[1..] <==> x in s && x != s[0]
  {
    if x in s[1..] {
      var k :| 0 <= k < |s[1..]| && s[1..][k] == x;
      assert PlacedBefore(s[0], s[k + 1]);
      NameOrderIsTotal(s[0].name, s[0].name);
    }
    if x in s && x != s[0] {
      var k :| 0 <= k < |s| && s[k] == x;
      assert s[1..][k - 1] == x;
    }
  }

  ghost function Schedule(items: set<Item>): (order: seq<Item>)
    requires DistinctNames(items)
    ensures IsSchedule(order, items)
  {
    assert exists order :: IsSchedule(order, items) by { var o := ScheduleExists(items); }
    var order :| IsSchedule(order, items);
    order
  }

  // ---------------------------------------------------------------- greedy placement

  /** min(range(n), key = (load, tests, index)). */
  function LightestShard(loads: seq<real>, tests: seq<int>, n: nat): (r: nat)
    requires 0 < n <= |loads| == |tests|
    ensures r < n
    ensures forall k :: 0 <= k < n ==>
              loads[r] < loads[k] || (loads[r] == loads[k] && (tests[r] < tests[k] || (tests[r] == tests[k] && r <= k)))
  {
    if n == 1 then 0
    else
      var r := LightestShard(loads, tests, n - 1);
      var last := n - 1;
      if loads[last] < loads[r] || (loads[last] == loads[r] && tests[last] < tests[r]) then last else r
  }

  function Place(st: Shards, x: Item): Shards
    requires 0 < |st.loads| == |st.tests|
  {
    var t := LightestShard(st.loads, st.tests, |st.loads|);
    Shards(st.loads[t := st.loads[t] + x.weight], st.tests[t := st.tests[t] + x.tests], st.target[x.name := t])
  }

  function Greedy(order: seq<Item>, m: nat): (st: Shards)
    requires m > 0
    ensures |st.loads| == |st.tests| == m
    ensures forall n :: n in st.target ==> st.target[n] < m
    decreases |order|
  {
    if order == [] then Shards(seq(m, _ => 0.0), seq(m, _ => 0), map[])
    else Place(Greedy(order[..|order| - 1], m), order[|order| - 1])
  }

  // ---------------------------------------------------------------- sums over one shard

  /** What is summed: seconds, tests, or two credits for a module above a threshold and one for any other. */
  datatype Measure = Weight | Tests | CreditAbove(threshold: real)

  function Value(f: Measure, x: Item): real {
    match f
    case Weight => x.weight
    case Tests => x.tests as real
    case CreditAbove(t) => if x.weight > t then 2.0 else 1.0
  }

  /** The sum of f over the modules that a placement puts on one shard. */
  ghost function ShardSum(items: seq<Item>, a: map<string, nat>, shard: nat, f: Measure): real
  {
    if items == [] then 0.0
    else
      var x := items[|items| - 1];
      ShardSum(items[..|items| - 1], a, shard, f) + (if x.name in a && a[x.name] == shard then Value(f, x) else 0.0)
  }

  ghost function Total(items: seq<Item>, f: Measure): real {
    if items == [] then 0.0 else Total(items[..|items| - 1], f) + Value(f, items[|items| - 1])
  }

  ghost function SumUpTo(items: seq<Item>, a: map<string, nat>, m: nat, f: Measure): real {
    if m == 0 then 0.0 else SumUpTo(items, a, m - 1, f) + ShardSum(items, a, m - 1, f)
  }

  ghost predicate Places(a: map<string, nat>, items: seq<Item>, m: nat) {
    forall x :: x in items ==> x.name in a && a[x.name] < m
  }

  lemma {:induction false} SumUpToEmpty(a: map<string, nat>, m: nat, f: Measure)
    ensures SumUpTo([], a, m, f) == 0.0
  {
    if m > 0 { SumUpToEmpty(a, m - 1, f); }
  }

  /** Adding one module adds its value exactly once, on the shard it is placed on. */
  lemma {:induction false} SumUpToStep(items: seq<Item>, a: map<string, nat>, m: nat, f: Measure)
    requires items != [] && items[|items| - 1].name in a
    ensures var x := items[|items| - 1];
            SumUpTo(items, a, m, f) ==
            SumUpTo(items[..|items| - 1], a, m, f) + (if a[x.name] < m then Value(f, x) else 0.0)
  {
    if m > 0 { SumUpToStep(items, a, m - 1, f); }
  }

  lemma {:induction false} ShardsAddUp(items: seq<Item>, a: map<string, nat>, m: nat, f: Measure)
    requires Places(a, items, m)
    ensures SumUpTo(items, a, m, f) == Total(items, f)
  {
    if items == [] {
      SumUpToEmpty(a, m, f);
    } else {
      ShardsAddUp(items[..|items| - 1], a, m, f);
      assert items[|items| - 1] in items;
      SumUpToStep(items, a, m, f);
    }
  }

  /** m * x by repeated addition, which keeps the sums below linear. */
  ghost function Times(m: nat, x: real): real {
    if m == 0 then 0.0 else Times(m - 1, x) + x
  }

  lemma {:induction false} TimesIsProduct(m: nat, x: real)
    ensures Times(m, x) == m as real * x
  {
    if m > 0 {
      TimesIsProduct(m - 1, x);
      assert (m - 1) as real == m as real - 1.0;
      assert (m as real - 1.0) * x + x == m as real * x;
    }
  }

  lemma {:induction false} AtMostEach(items: seq<Item>, a: map<string, nat>, m: nat, f: Measure, bound: real)
    requires forall j :: 0 <= j < m ==> ShardSum(items, a, j, f) <= bound
    ensures SumUpTo(items, a, m, f) <= Times(m, bound)
  {
    if m > 0 { AtMostEach(items, a, m - 1, f, bound); }
  }

  lemma {:induction false} AtLeastEach(items: seq<Item>, a: map<string, nat>, m: nat, f: Measure, bound: real)
    requires forall j :: 0 <= j < m ==> ShardSum(items, a, j, f) >= bound
    ensures SumUpTo(items, a, m, f) >= Times(m, bound)
  {
    if m > 0 { AtLeastEach(items, a, m - 1, f, bound); }
  }

  lemma {:induction false} PlacementOfOthersIsIrrelevant(items: seq<Item>, a: map<string, nat>, n: string, t: nat,
      shard: nat, f: Measure)
    requires forall x :: x in items ==> x.name != n
    ensures ShardSum(items, a[n := t], shard, f) == ShardSum(items, a, shard, f)
  {
    if items != [] {
      PlacementOfOthersIsIrrelevant(items[..|items| - 1], a, n, t, shard, f);
      assert items[|items| - 1] in items;
    }
  }

  ghost predicate DistinctSeqNames(items: seq<Item>) {
    forall i, j :: 0 <= i < j < |items| ==> items[i].name != items[j].name
  }

  lemma Split(items: seq<Item>)
    requires items != [] && DistinctSeqNames(items)
    ensures var prefix, x := items[..|items| - 1], items[|items| - 1];
            && DistinctSeqNames(prefix)
            && (forall y :: y in prefix ==> y.name != x.name)
            && (forall y :: y in items <==> y in prefix || y == x)
  {
    assert items == items[..|items| - 1] + [items[|items| - 1]];
  }

  lemma {:induction false} EveryModuleIsPlaced(order: seq<Item>, m: nat)
    requires m > 0 && DistinctSeqNames(order)
    ensures Places(Greedy(order, m).target, order, m)
    ensures forall n :: n in Greedy(order, m).target <==> exists x :: x in order && x.name == n
    decreases |order|
  {
    if order != [] {
      Split(order);
      EveryModuleIsPlaced(order[..|order| - 1], m);
    }
  }

  /** The running totals are the sums over what was placed on each shard. */
  lemma {:induction false} GreedyLoadIsSum(order: seq<Item>, m: nat, j: nat)
    requires j < m && DistinctSeqNames(order)
    ensures Greedy(order, m).loads[j] == ShardSum(order, Greedy(order, m).target, j, Weight)
    ensures Greedy(order, m).tests[j] as real == ShardSum(order, Greedy(order, m).target, j, Tests)
    decreases |order|
  {
    if order != [] {
      var prefix, x := order[..|order| - 1], order[|order| - 1];
      Split(order);
      GreedyLoadIsSum(prefix, m, j);
      var st := Greedy(prefix, m);
      var t := LightestShard(st.loads, st.tests, m);
      PlacementOfOthersIsIrrelevant(prefix, st.target, x.name, t, j, Weight);
      PlacementOfOthersIsIrrelevant(prefix, st.target, x.name, t, j, Tests);
    }
  }

  lemma {:induction false} SumsAreMonotone(items: seq<Item>, a: map<string, nat>, shard: nat)
    requires forall x :: x in items ==> x.weight >= 0.0
    ensures ShardSum(items, a, shard, Weight) >= 0.0
    ensures items != [] ==> ShardSum(items[..|items| - 1], a, shard, Weight) <= ShardSum(items, a, shard, Weight)
    ensures forall x :: x in items && x.name in a && a[x.name] == shard ==>
            x.weight <= ShardSum(items, a, shard, Weight)
  {
    if items != [] {
      var prefix := items[..|items| - 1];
      SumsAreMonotone(prefix, a, shard);
      assert items[|items| - 1] in items;
      assert items == prefix + [items[|items| - 1]];
    }
  }

  // ---------------------------------------------------------------- the approximation bound

  /** In a placement of makespan T whose modules all weigh more than T/3, a shard has at most two
      modules, and only one if that module leaves no room for another. */
  lemma {:induction false} OtherShardsHaveLittleCredit(items: seq<Item>, a: map<string, nat>, shard: nat, w: real,
      T: real)
    requires forall x :: x in items ==> x.weight >= w
    requires 3.0 * w > T >= w >= 0.0
    ensures var c := ShardSum(items, a, shard, CreditAbove(T - w));
            var load := ShardSum(items, a, shard, Weight);
            && (c == 0.0 || c == 1.0 || c == 2.0 || c >= 3.0)
            && (c == 0.0 ==> load >= 0.0)
            && (c == 1.0 ==> load >= w)
            && (c == 2.0 ==> load > T - w || load >= 2.0 * w)
            && (c >= 2.0 ==> load >= w)
            && (c >= 3.0 ==> load > T)
  {
    if items != [] {
      OtherShardsHaveLittleCredit(items[..|items| - 1], a, shard, w, T);
      assert items[|items| - 1] in items;
    }
  }

  lemma {:induction false} LoadedShardsHaveCredit(items: seq<Item>, a: map<string, nat>, shard: nat, threshold: real)
    requires threshold >= 0.0
    ensures var c := ShardSum(items, a, shard, CreditAbove(threshold));
            var load := ShardSum(items, a, shard, Weight);
            && (c == 0.0 || c == 1.0 || c >= 2.0)
            && (c == 0.0 ==> load == 0.0)
            && (c == 1.0 ==> load <= threshold)
  {
    if items != [] {
      LoadedShardsHaveCredit(items[..|items| - 1], a, shard, threshold);
    }
  }

  /** The credit of the placed modules plus one more cannot fit where every shard holds at most two. */
  lemma CreditOverflows(prefix: seq<Item>, x: Item, m: nat, a: map<string, nat>, alt: map<string, nat>, f: Measure)
    requires Places(a, prefix, m) && Places(alt, prefix + [x], m)
    requires Value(f, x) >= 1.0
    requires forall j :: 0 <= j < m ==> ShardSum(prefix, a, j, f) >= 2.0
    ensures exists j :: 0 <= j < m && ShardSum(prefix + [x], alt, j, f) > 2.0
  {
    var order := prefix + [x];
    AtLeastEach(prefix, a, m, f, 2.0);
    ShardsAddUp(prefix, a, m, f);
    ShardsAddUp(order, alt, m, f);
    assert order[..|order| - 1] == prefix;
    if forall j :: 0 <= j < m ==> ShardSum(order, alt, j, f) <= 2.0 {
      AtMostEach(order, alt, m, f, 2.0);
    }
  }

  lemma LastIsLightest(order: seq<Item>, y: Item)
    requires InOrder(order) && y in order
    ensures y.weight >= order[|order| - 1].weight
  {
    var k :| 0 <= k < |order| && order[k] == y;
    assert k < |order| - 1 ==> PlacedBefore(order[k], order[|order| - 1]);
  }

  lemma GreedyHasCredit(order: seq<Item>, m: nat, j: nat, threshold: real)
    requires j < m && DistinctSeqNames(order)
    requires Greedy(order, m).loads[j] > threshold >= 0.0
    ensures ShardSum(order, Greedy(order, m).target, j, CreditAbove(threshold)) >= 2.0
  {
    GreedyLoadIsSum(order, m, j);
    LoadedShardsHaveCredit(order, Greedy(order, m).target, j, threshold);
  }

  lemma NoShardExceedsTwoCredits(order: seq<Item>, m: nat, alt: map<string, nat>, T: real, j: nat)
    requires order != [] && InOrder(order) && j < m
    requires ShardSum(order, alt, j, Weight) <= T
    requires 3.0 * order[|order| - 1].weight > T >= order[|order| - 1].weight >= 0.0
    ensures ShardSum(order, alt, j, CreditAbove(T - order[|order| - 1].weight)) <= 2.0
  {
    forall y | y in order ensures y.weight >= order[|order| - 1].weight { LastIsLightest(order, y); }
    OtherShardsHaveLittleCredit(order, alt, j, order[|order| - 1].weight, T);
  }

  /** The placement of a heavy module: were every shard above T - w, the modules would carry more
      credit than the m shards of a placement of makespan T can hold. */
  lemma HeavyModuleFits(prefix: seq<Item>, x: Item, m: nat, alt: map<string, nat>, T: real, L: real)
    requires m > 0 && InOrder(prefix + [x]) && DistinctSeqNames(prefix + [x])
    requires Places(alt, prefix + [x], m)
    requires forall j :: 0 <= j < m ==> ShardSum(prefix + [x], alt, j, Weight) <= T
    requires 3.0 * x.weight > T >= x.weight >= 0.0
    requires forall j :: 0 <= j < m ==> Greedy(prefix, m).loads[j] >= L
    ensures L + x.weight <= T
  {
    var order, a := prefix + [x], Greedy(prefix, m).target;
    assert order[|order| - 1] == x && order[..|order| - 1] == prefix;
    if L + x.weight > T {
      var f := CreditAbove(T - x.weight);
      Split(order);
      EveryModuleIsPlaced(prefix, m);
      forall j | 0 <= j < m ensures ShardSum(prefix, a, j, f) >= 2.0 { GreedyHasCredit(prefix, m, j, T - x.weight); }
      CreditOverflows(prefix, x, m, a, alt, f);
      var j :| 0 <= j < m && ShardSum(order, alt, j, f) > 2.0;
      NoShardExceedsTwoCredits(order, m, alt, T, j);
    }
  }

  /** When a module is placed, the lightest shard is no heavier than the average. */
  lemma LightestIsBelowAverage(order: seq<Item>, m: nat, L: real)
    requires m > 0 && DistinctSeqNames(order)
    requires forall j :: 0 <= j < m ==> Greedy(order, m).loads[j] >= L
    ensures Times(m, L) <= Total(order, Weight)
  {
    var a := Greedy(order, m).target;
    EveryModuleIsPlaced(order, m);
    forall j | 0 <= j < m ensures ShardSum(order, a, j, Weight) >= L { GreedyLoadIsSum(order, m, j); }
    AtLeastEach(order, a, m, Weight, L);
    ShardsAddUp(order, a, m, Weight);
  }

  ghost predicate WithinGraham(load: real, m: nat, T: real) {
    3.0 * m as real * load <= (4.0 * m as real - 1.0) * T
  }

  lemma LightModuleArithmetic(m: nat, L: real, w: real, T: real, total: real)
    requires m > 0 && Times(m, L) <= total && total + w <= Times(m, T) && 3.0 * w <= T
    ensures WithinGraham(L + w, m, T)
  {
    TimesIsProduct(m, L);
    TimesIsProduct(m, T);
    var M := m as real;
    Distribute(M, L, w, T);
    Monotone(M - 1.0, 3.0 * w, T);
  }

  lemma Monotone(a: real, x: real, y: real)
    requires a >= 0.0 && x <= y
    ensures a * x <= a * y
  {
    assert a * (y - x) >= 0.0;
  }

  lemma Distribute(M: real, L: real, w: real, T: real)
    ensures 3.0 * M * (L + w) == 3.0 * (M * L) + 3.0 * w + (M - 1.0) * (3.0 * w)
    ensures (4.0 * M - 1.0) * T == 3.0 * (M * T) + (M - 1.0) * T
  {
  }

  lemma HeavyModuleArithmetic(m: nat, load: real, T: real)
    requires m > 0 && 0.0 <= load <= T
    ensures WithinGraham(load, m, T)
  {
    var M := m as real;
    Monotone(M, load, T);
    Monotone(M - 1.0, 0.0, T);
    Distribute(M, load, 0.0, T);
  }

  lemma PlacementStep(prefix: seq<Item>, x: Item, m: nat, alt: map<string, nat>, T: real, L: real)
    requires m > 0 && InOrder(prefix + [x]) && DistinctSeqNames(prefix + [x])
    requires forall y :: y in prefix + [x] ==> y.weight >= 0.0
    requires Places(alt, prefix + [x], m)
    requires forall j :: 0 <= j < m ==> ShardSum(prefix + [x], alt, j, Weight) <= T
    requires L >= 0.0 && forall j :: 0 <= j < m ==> Greedy(prefix, m).loads[j] >= L
    ensures WithinGraham(L + x.weight, m, T)
  {
    var order := prefix + [x];
    assert order[|order| - 1] == x && order[..|order| - 1] == prefix;
    assert x in order;
    if 3.0 * x.weight > T {
      SumsAreMonotone(order, alt, alt[x.name]);
      HeavyModuleFits(prefix, x, m, alt, T, L);
      HeavyModuleArithmetic(m, L + x.weight, T);
    } else {
      Split(order);
      LightestIsBelowAverage(prefix, m, L);
      ShardsAddUp(order, alt, m, Weight);
      AtMostEach(order, alt, m, Weight, T);
      LightModuleArithmetic(m, L, x.weight, T, Total(prefix, Weight));
    }
  }

  lemma PrefixWithin(prefix: seq<Item>, x: Item, m: nat, alt: map<string, nat>, T: real)
    requires m > 0 && DistinctSeqNames(prefix + [x])
    requires forall y :: y in prefix + [x] ==> y.weight >= 0.0
    requires Places(alt, prefix + [x], m)
    requires forall k :: 0 <= k < m ==> ShardSum(prefix + [x], alt, k, Weight) <= T
    ensures forall k :: 0 <= k < m ==> ShardSum(prefix, alt, k, Weight) <= T
    ensures Places(alt, prefix, m)
  {
    assert (prefix + [x])[..|prefix|] == prefix;
    forall k | 0 <= k < m ensures ShardSum(prefix, alt, k, Weight) <= T { SumsAreMonotone(prefix + [x], alt, k); }
  }

  lemma LoadsAreNonNegative(order: seq<Item>, m: nat, j: nat)
    requires j < m && DistinctSeqNames(order)
    requires forall y :: y in order ==> y.weight >= 0.0
    ensures Greedy(order, m).loads[j] >= 0.0
  {
    GreedyLoadIsSum(order, m, j);
    SumsAreMonotone(order, Greedy(order, m).target, j);
  }

  /** Graham's bound, for the placement order: if any placement keeps every shard within T, the greedy
      one keeps every shard within (4/3 - 1/(3m)) * T. */
  lemma {:induction false} GreedyIsNearOptimal(order: seq<Item>, m: nat, alt: map<string, nat>, T: real, j: nat)
    requires j < m && InOrder(order) && DistinctSeqNames(order)
    requires forall x :: x in order ==> x.weight >= 0.0
    requires Places(alt, order, m)
    requires forall k :: 0 <= k < m ==> ShardSum(order, alt, k, Weight) <= T
    ensures WithinGraham(Greedy(order, m).loads[j], m, T)
    decreases |order|
  {
    if order == [] {
      assert ShardSum(order, alt, 0, Weight) <= T;
      HeavyModuleArithmetic(m, 0.0, T);
    } else {
      var prefix, x := order[..|order| - 1], order[|order| - 1];
      assert order == prefix + [x];
      Split(order);
      var st := Greedy(prefix, m);
      var t := LightestShard(st.loads, st.tests, m);
      if j == t {
        LoadsAreNonNegative(prefix, m, t);
        PlacementStep(prefix, x, m, alt, T, st.loads[t]);
      } else {
        PrefixWithin(prefix, x, m, alt, T);
        GreedyIsNearOptimal(prefix, m, alt, T, j);
      }
    }
  }

  /** No single module can be moved to a shard that would then be lighter than the shard it left. */
  lemma {:induction false} NoSingleMoveHelps(order: seq<Item>, m: nat, i: nat, j: nat)
    requires j < m && InOrder(order) && DistinctSeqNames(order)
    requires forall x :: x in order ==> x.weight >= 0.0
    requires i < |order|
    ensures order[i].name in Greedy(order, m).target
    ensures Greedy(order, m).loads[Greedy(order, m).target[order[i].name]] <= Greedy(order, m).loads[j] +
            order[i].weight
    decreases |order|
  {
    var prefix, x := order[..|order| - 1], order[|order| - 1];
    Split(order);
    assert order[i] in order && x in order;
    LastIsLightest(order, order[i]);
    var st := Greedy(prefix, m);
    assert Greedy(order, m) == Place(st, x);
    if i < |prefix| {
      assert prefix[i] == order[i] && prefix[i] in prefix;
      NoSingleMoveHelps(prefix, m, i, j);
    }
  }

  lemma {:induction false} AllButOneAtLeast(order: seq<Item>, a: map<string, nat>, m: nat, t: nat, heavy: real, w: real)
    requires ShardSum(order, a, t, Weight) >= heavy
    requires forall j :: 0 <= j < m && j != t ==> ShardSum(order, a, j, Weight) >= heavy - w
    ensures SumUpTo(order, a, m, Weight) >= Times(m, heavy - w) + (if t < m then w else 0.0)
  {
    if m > 0 { AllButOneAtLeast(order, a, m - 1, t, heavy, w); }
  }

  lemma LoadIsCloseToOthers(order: seq<Item>, m: nat, i: nat, j: nat)
    requires j < m && InOrder(order) && DistinctSeqNames(order)
    requires forall x :: x in order ==> x.weight >= 0.0
    requires i < |order|
    ensures order[i].name in Greedy(order, m).target
    ensures var t := Greedy(order, m).target[order[i].name];
            ShardSum(order, Greedy(order, m).target, j, Weight) >= Greedy(order, m).loads[t] - order[i].weight
  {
    GreedyLoadIsSum(order, m, j);
    NoSingleMoveHelps(order, m, i, j);
  }

  lemma LoadsCloseToHeavy(order: seq<Item>, m: nat, i: nat, heavy: real, w: real)
    requires m > 0 && InOrder(order) && DistinctSeqNames(order)
    requires forall x :: x in order ==> x.weight >= 0.0
    requires i < |order| && w == order[i].weight
    requires order[i].name in Greedy(order, m).target
    requires heavy == Greedy(order, m).loads[Greedy(order, m).target[order[i].name]]
    ensures Times(m, heavy - w) + w <= Total(order, Weight)
  {
    var a := Greedy(order, m).target;
    var t := a[order[i].name];
    forall j | 0 <= j < m ensures ShardSum(order, a, j, Weight) >= heavy - w { LoadIsCloseToOthers(order, m, i, j); }
    GreedyLoadIsSum(order, m, t);
    AllButOneAtLeast(order, a, m, t, heavy, w);
    EveryModuleIsPlaced(order, m);
    ShardsAddUp(order, a, m, Weight);
  }

  ghost predicate WithinListBound(load: real, m: nat, total: real, w: real) {
    m as real * load <= total + (m as real - 1.0) * w
  }

  lemma ListBoundArithmetic(load: real, m: nat, total: real, w: real)
    requires Times(m, load - w) + w <= total
    ensures WithinListBound(load, m, total, w)
  {
    TimesIsProduct(m, load - w);
    assert m as real * (load - w) + w == m as real * load - (m as real - 1.0) * w;
  }

  /** List-scheduling bound: m * load <= total + (m - 1) * w for the load of a shard and any module on it. */
  lemma ListSchedulingBound(order: seq<Item>, m: nat, i: nat)
    requires m > 0 && InOrder(order) && DistinctSeqNames(order)
    requires forall x :: x in order ==> x.weight >= 0.0
    requires i < |order|
    ensures order[i].name in Greedy(order, m).target
    ensures WithinListBound(Greedy(order, m).loads[Greedy(order, m).target[order[i].name]], m, Total(order, Weight),
            order[i].weight)
  {
    LoadIsCloseToOthers(order, m, i, 0);
    var heavy := Greedy(order, m).loads[Greedy(order, m).target[order[i].name]];
    LoadsCloseToHeavy(order, m, i, heavy, order[i].weight);
    ListBoundArithmetic(heavy, m, Total(order, Weight), order[i].weight);
  }

  // ---------------------------------------------------------------- from test cases to modules

  datatype Selection = OwnedBy(name: string) | OnShard(target: map<string, nat>, shard: nat)

  predicate Keeps(keep: Selection, c: Case) {
    match keep
    case OwnedBy(name) => c.owner == name
    case OnShard(target, shard) => c.owner in target && target[c.owner] == shard
  }

  function Filter(cases: seq<Case>, keep: Selection): seq<Case> {
    if cases == [] then []
    else
      var c := cases[|cases| - 1];
      Filter(cases[..|cases| - 1], keep) + (if Keeps(keep, c) then [c] else [])
  }

  ghost function Owners(cases: seq<Case>): set<string> {
    set c | c in cases :: c.owner
  }

  ghost function Grouped(cases: seq<Case>): map<string, seq<Case>> {
    map n | n in Owners(cases) :: Filter(cases, OwnedBy(n))
  }

  /** The number of tests of every module that has at least one. */
  ghost function Counts(cases: seq<Case>): map<string, nat> {
    map n | n in Owners(cases) :: |Filter(cases, OwnedBy(n))|
  }

  ghost function SumOver(names: set<string>, value: map<string, real>): real
    requires names <= value.Keys
  {
    if names == {} then 0.0
    else
      var n :| n in names;
      value[n] + SumOver(names - {n}, value)
  }

  lemma {:induction false} SumOverWithout(names: set<string>, value: map<string, real>, n: string)
    requires names <= value.Keys && n in names
    ensures SumOver(names, value) == value[n] + SumOver(names - {n}, value)
  {
    var p :| p in names && SumOver(names, value) == value[p] + SumOver(names - {p}, value);
    if p != n {
      SumOverWithout(names - {p}, value, n);
      SumOverWithout(names - {n}, value, p);
      assert names - {p} - {n} == names - {n} - {p};
    }
  }

  ghost function TestCounts(counts: map<string, nat>): map<string, real> {
    map n | n in counts :: counts[n] as real
  }

  /** Seconds per test of the modules whose duration is known; 1.0 when nothing is known. */
  ghost function Fallback(counts: map<string, nat>, weights: map<string, real>): real {
    var known := counts.Keys * weights.Keys;
    var tests, seconds := SumOver(known, TestCounts(counts)), SumOver(known, weights);
    if tests != 0.0 && seconds > 0.0 then seconds / tests else 1.0
  }

  ghost function Estimated(n: string, counts: map<string, nat>, weights: map<string, real>): real
    requires n in counts
  {
    if n in weights then weights[n] else counts[n] as real * Fallback(counts, weights)
  }

  ghost function ModuleItems(counts: map<string, nat>, weights: map<string, real>): set<Item> {
    set n | n in counts :: Item(n, counts[n], Estimated(n, counts, weights))
  }

  ghost function PlacementOrder(counts: map<string, nat>, weights: map<string, real>): seq<Item> {
    assert DistinctNames(ModuleItems(counts, weights));
    Schedule(ModuleItems(counts, weights))
  }

  /** The shard of every module and the reported shard weights: a function of the modules' names,
      test counts and weights alone. */
  ghost function Plan(counts: map<string, nat>, weights: map<string, real>, m: nat): Shards
    requires m > 0
  {
    Greedy(PlacementOrder(counts, weights), m)
  }

  lemma OrderedNamesAreDistinct(counts: map<string, nat>, weights: map<string, real>)
    ensures DistinctSeqNames(PlacementOrder(counts, weights)) && InOrder(PlacementOrder(counts, weights))
    ensures forall n :: n in counts <==> exists x :: x in PlacementOrder(counts, weights) && x.name == n
  {
    var order := PlacementOrder(counts, weights);
    forall i, j | 0 <= i < j < |order| ensures order[i].name != order[j].name {
      assert order[i] in order && order[j] in order;
      assert PlacedBefore(order[i], order[j]);
      NameOrderIsTotal(order[i].name, order[j].name);
    }
    forall n | n in counts ensures exists x :: x in order && x.name == n {
      assert Item(n, counts[n], Estimated(n, counts, weights)) in order;
    }
  }

  lemma {:induction false} SumOverIsNonNegative(names: set<string>, value: map<string, real>)
    requires names <= value.Keys && forall n :: n in value ==> value[n] >= 0.0
    ensures SumOver(names, value) >= 0.0
  {
    if names != {} {
      var n :| n in names && SumOver(names, value) == value[n] + SumOver(names - {n}, value);
      SumOverIsNonNegative(names - {n}, value);
    }
  }

  lemma EstimatesAreNonNegative(counts: map<string, nat>, weights: map<string, real>)
    requires forall n :: n in weights ==> weights[n] >= 0.0
    ensures forall x :: x in PlacementOrder(counts, weights) ==> x.weight >= 0.0
  {
    var known := counts.Keys * weights.Keys;
    SumOverIsNonNegative(known, TestCounts(counts));
    SumOverIsNonNegative(known, weights);
    var tests, seconds := SumOver(known, TestCounts(counts)), SumOver(known, weights);
    if tests != 0.0 && seconds > 0.0 { assert seconds / tests >= 0.0; }
    forall n | n in counts ensures Estimated(n, counts, weights) >= 0.0 {
      Monotone(counts[n] as real, 0.0, Fallback(counts, weights));
    }
  }

  // ---------------------------------------------------------------- main results

  /** Whatever the placement of whole modules, if it keeps every shard within T seconds, the reported
      weight of each shard is at most (4/3 - 1/(3m)) * T. */
  lemma ShardsAreNearOptimal(counts: map<string, nat>, weights: map<string, real>, m: nat, alt: map<string, nat>,
      T: real)
    requires m > 0 && forall n :: n in weights ==> weights[n] >= 0.0
    requires forall n :: n in counts ==> n in alt && alt[n] < m
    requires forall k :: 0 <= k < m ==> ShardSum(PlacementOrder(counts, weights), alt, k, Weight) <= T
    ensures forall j :: 0 <= j < m ==>
            3.0 * m as real * Plan(counts, weights, m).loads[j] <= (4.0 * m as real - 1.0) * T
  {
    var order := PlacementOrder(counts, weights);
    OrderedNamesAreDistinct(counts, weights);
    EstimatesAreNonNegative(counts, weights);
    forall j | 0 <= j < m ensures WithinGraham(Plan(counts, weights, m).loads[j], m, T) {
      GreedyIsNearOptimal(order, m, alt, T, j);
    }
  }

  /** Moving one module from its shard to shard j gives shard j at least the weight the old shard had;
      hence m times a shard's weight is at most the total plus (m - 1) times any module on it. */
  lemma MovingOneModuleNeverHelps(counts: map<string, nat>, weights: map<string, real>, m: nat, n: string, j: nat)
    requires j < m && n in counts && forall k :: k in weights ==> weights[k] >= 0.0
    ensures n in Plan(counts, weights, m).target
    ensures var plan, w := Plan(counts, weights, m), Estimated(n, counts, weights);
            && plan.loads[plan.target[n]] <= plan.loads[j] + w
            && WithinListBound(plan.loads[plan.target[n]], m, Total(PlacementOrder(counts, weights), Weight), w)
  {
    var order := PlacementOrder(counts, weights);
    OrderedNamesAreDistinct(counts, weights);
    EstimatesAreNonNegative(counts, weights);
    var i :| 0 <= i < |order| && order[i].name == n;
    assert order[i] in ModuleItems(counts, weights) by { assert order[i] in order; }
    NoSingleMoveHelps(order, m, i, j);
    ListSchedulingBound(order, m, i);
  }

  /** The reported weights are the sums of the assigned modules' weights, and every module is assigned. */
  lemma ReportedWeightsAreSums(counts: map<string, nat>, weights: map<string, real>, m: nat)
    requires m > 0
    ensures var plan := Plan(counts, weights, m);
            var order := PlacementOrder(counts, weights);
            && plan.target.Keys == counts.Keys
            && (forall n :: n in plan.target ==> plan.target[n] < m)
            && (forall j :: 0 <= j < m ==> plan.loads[j] == ShardSum(order, plan.target, j, Weight))
            && SumUpTo(order, plan.target, m, Weight) == Total(order, Weight)
  {
    var order := PlacementOrder(counts, weights);
    OrderedNamesAreDistinct(counts, weights);
    EveryModuleIsPlaced(order, m);
    forall j | 0 <= j < m { GreedyLoadIsSum(order, m, j); }
    ShardsAddUp(order, Plan(counts, weights, m).target, m, Weight);
  }

  ghost function Gather(buckets: seq<seq<Case>>): multiset<Case> {
    if buckets == [] then multiset{}
    else Gather(buckets[..|buckets| - 1]) + multiset(buckets[|buckets| - 1])
  }

  lemma {:induction false} FilterMultiplicity(cases: seq<Case>, keep: Selection, c: Case)
    ensures multiset(Filter(cases, keep))[c] == (if Keeps(keep, c) then multiset(cases)[c] else 0)
  {
    if cases != [] {
      var prefix, x := cases[..|cases| - 1], cases[|cases| - 1];
      FilterMultiplicity(prefix, keep, c);
      assert cases == prefix + [x];
    }
  }

  ghost function ShardOf(suite: seq<Case>, weights: map<string, real>, m: nat, shard: nat): seq<Case>
    requires m > 0
  {
    Filter(suite, OnShard(Plan(Counts(suite), weights, m).target, shard))
  }

  lemma SameSuiteSameCounts(a: seq<Case>, b: seq<Case>)
    requires multiset(a) == multiset(b)
    ensures Counts(a) == Counts(b)
  {
    assert forall c :: c in a <==> c in multiset(a);
    assert forall c :: c in b <==> c in multiset(b);
    assert Owners(a) == Owners(b);
    forall n | n in Counts(a) ensures Counts(a)[n] == Counts(b)[n] {
      var fa, fb := Filter(a, OwnedBy(n)), Filter(b, OwnedBy(n));
      forall c ensures multiset(fa)[c] == multiset(fb)[c] {
        FilterMultiplicity(a, OwnedBy(n), c);
        FilterMultiplicity(b, OwnedBy(n), c);
      }
      assert multiset(fa) == multiset(fb);
      assert |fa| == |multiset(fa)| && |fb| == |multiset(fb)|;
    }
  }

  lemma {:induction false} GatherMultiplicity(runs: seq<seq<Case>>, target: map<string, nat>, buckets: seq<seq<Case>>,
      k: nat, suite: seq<Case>, c: Case)
    requires k <= |runs| == |buckets|
    requires forall s :: 0 <= s < |runs| ==> multiset(runs[s]) == multiset(suite)
    requires forall s :: 0 <= s < |runs| ==> buckets[s] == Filter(runs[s], OnShard(target, s))
    requires c.owner in target
    ensures Gather(buckets[..k])[c] == if target[c.owner] < k then multiset(suite)[c] else 0
  {
    if k > 0 {
      assert buckets[..k][..k - 1] == buckets[..k - 1];
      GatherMultiplicity(runs, target, buckets, k - 1, suite, c);
      FilterMultiplicity(runs[k - 1], OnShard(target, k - 1), c);
    }
  }

  lemma {:induction false} GatherMembers(buckets: seq<seq<Case>>, c: Case)
    requires c in Gather(buckets)
    ensures exists s :: 0 <= s < |buckets| && c in buckets[s]
  {
    if c in Gather(buckets[..|buckets| - 1]) {
      GatherMembers(buckets[..|buckets| - 1], c);
    } else {
      assert c in multiset(buckets[|buckets| - 1]);
    }
  }

  lemma FilterMembers(cases: seq<Case>, keep: Selection, c: Case)
    ensures c in Filter(cases, keep) <==> c in cases && Keeps(keep, c)
  {
    FilterMultiplicity(cases, keep, c);
    assert c in cases <==> c in multiset(cases);
    assert c in Filter(cases, keep) <==> c in multiset(Filter(cases, keep));
  }

  lemma {:induction false} NothingElseGathered(runs: seq<seq<Case>>, target: map<string, nat>, buckets: seq<seq<Case>>,
      c: Case)
    requires |runs| == |buckets|
    requires forall s :: 0 <= s < |runs| ==> buckets[s] == Filter(runs[s], OnShard(target, s))
    requires c.owner !in target
    ensures c !in Gather(buckets)
  {
    if c in Gather(buckets) {
      GatherMembers(buckets, c);
      var s :| 0 <= s < |buckets| && c in buckets[s];
      FilterMembers(runs[s], OnShard(target, s), c);
    }
  }

  /** Shards started separately, each having discovered the suite in its own order, together run every
      test exactly as often as the suite holds it, and a module runs on one shard only. */
  lemma IndependentShardsCoverTheSuite(runs: seq<seq<Case>>, suite: seq<Case>, weights: map<string, real>,
      buckets: seq<seq<Case>>)
    requires |runs| == |buckets| > 0
    requires forall s :: 0 <= s < |runs| ==> multiset(runs[s]) == multiset(suite)
    requires forall s :: 0 <= s < |runs| ==> buckets[s] == ShardOf(runs[s], weights, |runs|, s)
    ensures Gather(buckets) == multiset(suite)
    ensures forall s, r, c, d ::
            0 <= s < |runs| && 0 <= r < |runs| && c in buckets[s] && d in buckets[r] && c.owner == d.owner ==> s == r
  {
    var target := RunsArePlannedAlike(runs, suite, weights, buckets);
    PlannedBucketsPartition(runs, suite, target, buckets);
  }

  lemma RunsArePlannedAlike(runs: seq<seq<Case>>, suite: seq<Case>, weights: map<string, real>,
      buckets: seq<seq<Case>>) returns (target: map<string, nat>)
    requires |runs| == |buckets| > 0
    requires forall s :: 0 <= s < |runs| ==> multiset(runs[s]) == multiset(suite)
    requires forall s :: 0 <= s < |runs| ==> buckets[s] == ShardOf(runs[s], weights, |runs|, s)
    ensures target.Keys == Owners(suite) && forall n :: n in target ==> target[n] < |runs|
    ensures forall s :: 0 <= s < |runs| ==> buckets[s] == Filter(runs[s], OnShard(target, s))
  {
    target := Plan(Counts(suite), weights, |runs|).target;
    ReportedWeightsAreSums(Counts(suite), weights, |runs|);
    assert target.Keys == Owners(suite);
    forall s | 0 <= s < |runs| ensures buckets[s] == Filter(runs[s], OnShard(target, s)) {
      SameSuiteSameCounts(runs[s], suite);
    }
  }

  lemma PlannedBucketsPartition(runs: seq<seq<Case>>, suite: seq<Case>, target: map<string, nat>,
      buckets: seq<seq<Case>>)
    requires |runs| == |buckets|
    requires forall s :: 0 <= s < |runs| ==> multiset(runs[s]) == multiset(suite)
    requires forall s :: 0 <= s < |runs| ==> buckets[s] == Filter(runs[s], OnShard(target, s))
    requires target.Keys == Owners(suite) && forall n :: n in target ==> target[n] < |runs|
    ensures Gather(buckets) == multiset(suite)
    ensures forall s, r, c, d ::
            0 <= s < |runs| && 0 <= r < |runs| && c in buckets[s] && d in buckets[r] && c.owner == d.owner ==> s == r
  {
    forall c ensures Gather(buckets)[c] == multiset(suite)[c] {
      if c.owner in target {
        assert buckets[..|runs|] == buckets;
        GatherMultiplicity(runs, target, buckets, |runs|, suite, c);
      } else {
        NothingElseGathered(runs, target, buckets, c);
        assert c in multiset(suite) ==> c in suite && c.owner in Owners(suite);
      }
    }
    forall s, c | 0 <= s < |runs| && c in buckets[s] ensures Keeps(OnShard(target, s), c) {
      FilterMembers(runs[s], OnShard(target, s), c);
    }
  }

  ghost predicate Increasing(positions: seq<nat>, n: nat) {
    && (forall i, j :: 0 <= i < j < |positions| ==> positions[i] < positions[j])
    && (forall i :: 0 <= i < |positions| ==> positions[i] < n)
  }

  /** A shard keeps the discovery order: its tests sit at increasing positions of the suite. */
  lemma {:induction false} ShardKeepsDiscoveryOrder(cases: seq<Case>, keep: Selection) returns (positions: seq<nat>)
    ensures Increasing(positions, |cases|) && |positions| == |Filter(cases, keep)|
    ensures forall i :: 0 <= i < |positions| ==> cases[positions[i]] == Filter(cases, keep)[i]
  {
    if cases == [] {
      positions := [];
    } else {
      positions := ShardKeepsDiscoveryOrder(cases[..|cases| - 1], keep);
      if Keeps(keep, cases[|cases| - 1]) { positions := positions + [|cases| - 1]; }
    }
  }

  // ---------------------------------------------------------------- the plan in terms of the suite

  /** The recorded modules of a suite, their tests and their seconds. */
  ghost function KnownTests(counts: map<string, nat>, weights: map<string, real>): real {
    SumOver(counts.Keys * weights.Keys, TestCounts(counts))
  }

  ghost function KnownSeconds(counts: map<string, nat>, weights: map<string, real>): real {
    SumOver(counts.Keys * weights.Keys, weights)
  }

  /** What a module of a suite weighs: its recorded seconds, or else its tests at the rate of the recorded modules; one
      second per test when they give no rate. */
  ghost predicate Weighs(n: string, weight: real, counts: map<string, nat>, weights: map<string, real>)
    requires n in counts
  {
    if n in weights then weight == weights[n]
    else if KnownTests(counts, weights) > 0.0 && KnownSeconds(counts, weights) > 0.0
    then weight * KnownTests(counts, weights) == counts[n] as real * KnownSeconds(counts, weights)
    else weight == counts[n] as real
  }

  lemma {:induction false} SomeTests(names: set<string>, counts: map<string, nat>)
    requires names <= counts.Keys
    ensures SumOver(names, TestCounts(counts)) >= 0.0
  {
    if names != {} {
      var n :| n in names &&
          SumOver(names, TestCounts(counts)) == TestCounts(counts)[n] + SumOver(names - {n}, TestCounts(counts));
      SomeTests(names - {n}, counts);
    }
  }

  lemma RateTimesTests(tests: real, seconds: real, n: real)
    requires tests != 0.0
    ensures n * (seconds / tests) * tests == n * seconds
  {
    assert seconds / tests * tests == seconds;
    assert n * (seconds / tests) * tests == n * (seconds / tests * tests);
  }

  /** The placement order lists every module of the suite with the number of its tests and what it weighs. */
  lemma EstimatesAreExact(counts: map<string, nat>, weights: map<string, real>, x: Item)
    requires x in PlacementOrder(counts, weights)
    ensures x.name in counts && x.tests == counts[x.name] && Weighs(x.name, x.weight, counts, weights)
  {
    assert x in ModuleItems(counts, weights);
    SomeTests(counts.Keys * weights.Keys, counts);
    if x.name !in weights && KnownTests(counts, weights) > 0.0 && KnownSeconds(counts, weights) > 0.0 {
      RateTimesTests(KnownTests(counts, weights), KnownSeconds(counts, weights), counts[x.name] as real);
    }
  }

  lemma SameProduct(x: real, y: real, t: real)
    requires t > 0.0 && x * t == y * t
    ensures x == y
  {
    assert x == x * t / t && y == y * t / t;
  }

  /** A weight for every module of the suite. */
  ghost predicate Estimate(cases: seq<Case>, weights: map<string, real>, w: map<string, real>) {
    Owners(cases) <= w.Keys && forall n :: n in Owners(cases) ==> Weighs(n, w[n], Counts(cases), weights)
  }

  lemma WeighsOnce(n: string, x: real, y: real, counts: map<string, nat>, weights: map<string, real>)
    requires n in counts && Weighs(n, x, counts, weights) && Weighs(n, y, counts, weights)
    ensures x == y
  {
    if n !in weights && KnownTests(counts, weights) > 0.0 && KnownSeconds(counts, weights) > 0.0 {
      SameProduct(x, y, KnownTests(counts, weights));
    }
  }

  lemma OrderWeighs(cases: seq<Case>, weights: map<string, real>, w: map<string, real>, x: Item)
    requires Estimate(cases, weights, w) && x in PlacementOrder(Counts(cases), weights)
    ensures x.name in Owners(cases) && x.weight == w[x.name] && x.tests == Counts(cases)[x.name]
  {
    EstimatesAreExact(Counts(cases), weights, x);
    WeighsOnce(x.name, x.weight, w[x.name], Counts(cases), weights);
  }

  /** Each bucket has the tests of the modules assigned to it, in discovery order. */
  ghost predicate WholeModules(cases: seq<Case>, target: map<string, nat>, buckets: seq<seq<Case>>) {
    && (forall c :: c in cases ==> c.owner in target && target[c.owner] < |buckets|)
    && (forall s :: 0 <= s < |buckets| ==> buckets[s] == Filter(cases, OnShard(target, s)))
  }

  /** The modules that a placement puts on one shard. */
  ghost function NamesOn(items: seq<Item>, a: map<string, nat>, shard: nat): set<string> {
    set x | x in items && x.name in a && a[x.name] == shard :: x.name
  }

  lemma {:induction false} ShardSumIsSum(items: seq<Item>, a: map<string, nat>, shard: nat, f: Measure,
      value: map<string, real>)
    requires DistinctSeqNames(items) && forall x :: x in items ==> x.name in value && value[x.name] == Value(f, x)
    ensures NamesOn(items, a, shard) <= value.Keys
    ensures ShardSum(items, a, shard, f) == SumOver(NamesOn(items, a, shard), value)
  {
    if items != [] {
      var prefix, x := items[..|items| - 1], items[|items| - 1];
      Split(items);
      ShardSumIsSum(prefix, a, shard, f, value);
      if x.name in a && a[x.name] == shard {
        assert x.name in NamesOn(items, a, shard);
        assert NamesOn(items, a, shard) - {x.name} == NamesOn(prefix, a, shard);
        SumOverWithout(NamesOn(items, a, shard), value, x.name);
      } else {
        assert NamesOn(items, a, shard) == NamesOn(prefix, a, shard);
      }
    }
  }

  /** The modules placed before another: the heavier ones, and of the equally heavy ones those with a smaller name. */
  ghost function Earlier(cases: seq<Case>, w: map<string, real>, n: string): set<string>
    requires Owners(cases) <= w.Keys && n in w
  {
    set p | p in Owners(cases) && (w[p] > w[n] || (w[p] == w[n] && NameBefore(p, n)))
  }

  /** When a module came to its turn, shard s carried no more than shard j: in seconds, in tests, then by number. */
  ghost predicate LighterAtTurn(cases: seq<Case>, w: map<string, real>, buckets: seq<seq<Case>>, n: string, s: nat,
      j: nat)
    requires Owners(cases) <= w.Keys && n in w && s < |buckets| && j < |buckets|
  {
    var before, tests := Earlier(cases, w, n), TestCounts(Counts(cases));
    var here, there := before * Owners(buckets[s]), before * Owners(buckets[j]);
    || SumOver(here, w) < SumOver(there, w)
    || (&& SumOver(here, w) == SumOver(there, w)
        && (SumOver(here, tests) < SumOver(there, tests) || (SumOver(here, tests) == SumOver(there, tests) && s <= j)))
  }

  /** Every module sits on the shard that was lightest when it came to its turn. */
  ghost predicate LightestFirst(cases: seq<Case>, w: map<string, real>, buckets: seq<seq<Case>>)
    requires Owners(cases) <= w.Keys
  {
    forall n, s, j :: 0 <= s < |buckets| && 0 <= j < |buckets| && n in Owners(buckets[s]) && n in Owners(cases) ==>
        LighterAtTurn(cases, w, buckets, n, s, j)
  }

  ghost function AssignedTo(cases: seq<Case>, alt: map<string, nat>, k: nat): set<string> {
    set n | n in Owners(cases) && n in alt && alt[n] == k
  }

  /** Another assignment of whole modules, which keeps every shard within T. */
  ghost predicate KeepsWithin(cases: seq<Case>, w: map<string, real>, m: nat, alt: map<string, nat>, T: real)
    requires Owners(cases) <= w.Keys
  {
    && (forall n :: n in Owners(cases) ==> n in alt && alt[n] < m)
    && (forall k :: 0 <= k < m ==> SumOver(AssignedTo(cases, alt, k), w) <= T)
  }

  ghost predicate NearOptimal(cases: seq<Case>, w: map<string, real>, loads: seq<real>)
    requires Owners(cases) <= w.Keys
  {
    forall alt, T, s :: KeepsWithin(cases, w, |loads|, alt, T) && 0 <= s < |loads| ==>
      WithinGraham(loads[s], |loads|, T)
  }

  /** What is promised of buckets and reported weights for the given weights of the modules: the reported weights are
      the sums over the modules in the bucket, every module came to the lightest shard, and if no weight is negative no
      assignment of whole modules has a heaviest shard below 3m/(4m - 1) of the reported one. */
  ghost predicate AsPromised(cases: seq<Case>, w: map<string, real>, buckets: seq<seq<Case>>, loads: seq<real>)
    requires Owners(cases) <= w.Keys && |buckets| == |loads|
  {
    && (forall s :: 0 <= s < |buckets| ==>
          Owners(buckets[s]) <= Owners(cases) && loads[s] == SumOver(Owners(buckets[s]), w))
    && LightestFirst(cases, w, buckets)
    && ((forall n :: n in Owners(cases) ==> w[n] >= 0.0) ==> NearOptimal(cases, w, loads))
  }

  lemma OwnersOfShard(cases: seq<Case>, target: map<string, nat>, s: nat)
    ensures Owners(Filter(cases, OnShard(target, s))) == set n | n in Owners(cases) && n in target && target[n] == s
  {
    var bucket := Filter(cases, OnShard(target, s));
    forall n ensures n in Owners(bucket) <==> n in Owners(cases) && n in target && target[n] == s {
      if n in Owners(bucket) {
        var c :| c in bucket && c.owner == n;
        FilterMembers(cases, OnShard(target, s), c);
      }
      if n in Owners(cases) && n in target && target[n] == s {
        var c :| c in cases && c.owner == n;
        FilterMembers(cases, OnShard(target, s), c);
      }
    }
  }

  /** Later placements move nothing. */
  lemma {:induction false} TargetStays(order: seq<Item>, m: nat, i: nat, y: Item)
    requires m > 0 && DistinctSeqNames(order) && i <= |order| && y in order[..i]
    ensures y.name in Greedy(order[..i], m).target && y.name in Greedy(order, m).target
    ensures Greedy(order, m).target[y.name] == Greedy(order[..i], m).target[y.name]
    decreases |order|
  {
    if i == |order| {
      assert order[..i] == order;
      EveryModuleIsPlaced(order, m);
    } else {
      var prefix := order[..|order| - 1];
      Split(order);
      assert prefix[..i] == order[..i];
      TargetStays(prefix, m, i, y);
      assert y in prefix;
    }
  }

  /** So a module stays on the shard that was lightest after those before it. */
  lemma TurnDecides(order: seq<Item>, m: nat, i: nat)
    requires m > 0 && DistinctSeqNames(order) && i < |order|
    ensures order[i].name in Greedy(order, m).target
    ensures Greedy(order, m).target[order[i].name] ==
            LightestShard(Greedy(order[..i], m).loads, Greedy(order[..i], m).tests, m)
  {
    assert order[..i + 1][..i] == order[..i] && order[..i + 1][i] == order[i];
    TargetStays(order, m, i + 1, order[i]);
  }

  lemma OrderIsEstimated(cases: seq<Case>, weights: map<string, real>, w: map<string, real>) returns (order: seq<Item>)
    requires Estimate(cases, weights, w)
    ensures order == PlacementOrder(Counts(cases), weights) && InOrder(order) && DistinctSeqNames(order)
    ensures forall x :: x in order ==>
            x.name in Owners(cases) && x.weight == w[x.name] && x.tests == Counts(cases)[x.name]
    ensures forall n :: n in Owners(cases) ==> exists x :: x in order && x.name == n
  {
    order := PlacementOrder(Counts(cases), weights);
    OrderedNamesAreDistinct(Counts(cases), weights);
    forall x | x in order
      ensures x.name in Owners(cases) && x.weight == w[x.name] && x.tests == Counts(cases)[x.name]
    {
      OrderWeighs(cases, weights, w, x);
    }
    assert Counts(cases).Keys == Owners(cases);
  }

  /** The placement order of a suite, for given weights. */
  ghost predicate Orders(order: seq<Item>, cases: seq<Case>, w: map<string, real>) {
    && Owners(cases) <= w.Keys && InOrder(order) && DistinctSeqNames(order)
    && (forall x :: x in order ==> x.name in Owners(cases) && x.weight == w[x.name] && x.tests == Counts(cases)[x.name])
    && (forall n :: n in Owners(cases) ==> exists x :: x in order && x.name == n)
  }

  lemma NamesOnAll(order: seq<Item>, cases: seq<Case>, w: map<string, real>, a: map<string, nat>, k: nat)
    requires Orders(order, cases, w)
    ensures NamesOn(order, a, k) == AssignedTo(cases, a, k)
  {
    forall n | n in AssignedTo(cases, a, k) ensures n in NamesOn(order, a, k) {
      var x :| x in order && x.name == n;
    }
  }

  lemma SumsArePromised(order: seq<Item>, cases: seq<Case>, w: map<string, real>, m: nat, s: nat)
    requires Orders(order, cases, w) && s < m
    ensures var target := Greedy(order, m).target;
            && Owners(Filter(cases, OnShard(target, s))) == AssignedTo(cases, target, s)
            && Greedy(order, m).loads[s] == SumOver(Owners(Filter(cases, OnShard(target, s))), w)
  {
    var target := Greedy(order, m).target;
    GreedyLoadIsSum(order, m, s);
    ShardSumIsSum(order, target, s, Weight, w);
    NamesOnAll(order, cases, w, target, s);
    OwnersOfShard(cases, target, s);
  }

  lemma BoundIsPromised(order: seq<Item>, cases: seq<Case>, w: map<string, real>, m: nat, alt: map<string, nat>,
      T: real, s: nat)
    requires Orders(order, cases, w) && s < m && KeepsWithin(cases, w, m, alt, T)
    requires forall n :: n in Owners(cases) ==> w[n] >= 0.0
    ensures WithinGraham(Greedy(order, m).loads[s], m, T)
  {
    forall k | 0 <= k < m ensures ShardSum(order, alt, k, Weight) <= T {
      ShardSumIsSum(order, alt, k, Weight, w);
      NamesOnAll(order, cases, w, alt, k);
    }
    GreedyIsNearOptimal(order, m, alt, T, s);
  }

  lemma EarlierIsPrefix(order: seq<Item>, cases: seq<Case>, w: map<string, real>, i: nat)
    requires Orders(order, cases, w) && i < |order|
    ensures forall p :: p in Earlier(cases, w, order[i].name) <==> exists x :: x in order[..i] && x.name == p
  {
    var n := order[i].name;
    assert order[i] in order;
    forall p | p in Earlier(cases, w, n) ensures exists x :: x in order[..i] && x.name == p {
      var x :| x in order && x.name == p;
      var k :| 0 <= k < |order| && order[k] == x;
      assert PlacedBefore(x, order[i]);
      if k >= i { BeforeIsStrict(order, i, k); }
      assert x in order[..i];
    }
    forall x | x in order[..i] ensures x.name in Earlier(cases, w, n) {
      var k :| 0 <= k < i && order[k] == x;
      assert PlacedBefore(order[k], order[i]) && order[k] in order;
    }
  }

  lemma BeforeIsStrict(order: seq<Item>, i: nat, k: nat)
    requires InOrder(order) && i <= k < |order|
    ensures !PlacedBefore(order[k], order[i])
  {
    NameOrderIsTotal(order[i].name, order[k].name);
    if i < k { assert PlacedBefore(order[i], order[k]); }
  }

  lemma EarlierTargetsStay(order: seq<Item>, cases: seq<Case>, w: map<string, real>, m: nat, i: nat, j: nat)
    requires Orders(order, cases, w) && j < m && i < |order|
    ensures var target, prefix := Greedy(order, m).target, order[..i];
            && (forall y :: y in prefix ==> y in order && y.name in Greedy(prefix, m).target)
            && order[i].name in w
            && NamesOn(prefix, Greedy(prefix, m).target, j) ==
                 Earlier(cases, w, order[i].name) * AssignedTo(cases, target, j)
  {
    var target, prefix := Greedy(order, m).target, order[..i];
    forall x | x in prefix ensures x in order { }
    forall y | y in prefix ensures y.name in Greedy(prefix, m).target && y.name in target &&
        target[y.name] == Greedy(prefix, m).target[y.name] {
      TargetStays(order, m, i, y);
    }
    EarlierIsPrefix(order, cases, w, i);
  }

  /** What shard j carried when module i came to its turn. */
  lemma CarriedBefore(order: seq<Item>, cases: seq<Case>, w: map<string, real>, m: nat, i: nat, j: nat)
    requires Orders(order, cases, w) && j < m && i < |order|
    ensures order[i].name in w
    ensures var target, before := Greedy(order, m).target, Greedy(order[..i], m);
            var there := Earlier(cases, w, order[i].name) * AssignedTo(cases, target, j);
            before.loads[j] == SumOver(there, w) && before.tests[j] as real == SumOver(there, TestCounts(Counts(cases)))
  {
    var target, prefix := Greedy(order, m).target, order[..i];
    EarlierTargetsStay(order, cases, w, m, i, j);
    GreedyLoadIsSum(prefix, m, j);
    ShardSumIsSum(prefix, Greedy(prefix, m).target, j, Weight, w);
    ShardSumIsSum(prefix, Greedy(prefix, m).target, j, Tests, TestCounts(Counts(cases)));
  }

  lemma TurnIsPromised(order: seq<Item>, cases: seq<Case>, w: map<string, real>, buckets: seq<seq<Case>>, n: string,
      s: nat, j: nat)
    requires Orders(order, cases, w) && s < |buckets| && j < |buckets| && n in Owners(buckets[s])
    requires forall k :: 0 <= k < |buckets| ==>
             buckets[k] == Filter(cases, OnShard(Greedy(order, |buckets|).target, k))
    ensures n in Owners(cases) && LighterAtTurn(cases, w, buckets, n, s, j)
  {
    var m, target := |buckets|, Greedy(order, |buckets|).target;
    OwnersOfShard(cases, target, s);
    OwnersOfShard(cases, target, j);
    var x :| x in order && x.name == n;
    var i :| 0 <= i < |order| && order[i] == x;
    TurnDecides(order, m, i);
    CarriedBefore(order, cases, w, m, i, s);
    CarriedBefore(order, cases, w, m, i, j);
    assert Owners(buckets[s]) == AssignedTo(cases, target, s) && Owners(buckets[j]) == AssignedTo(cases, target, j);
  }

  /** The plan keeps what is promised, for the weights of the modules. */
  lemma PlanIsAsPromised(cases: seq<Case>, weights: map<string, real>, w: map<string, real>, buckets: seq<seq<Case>>)
    requires Estimate(cases, weights, w) && |buckets| > 0
    requires forall s :: 0 <= s < |buckets| ==> buckets[s] == ShardOf(cases, weights, |buckets|, s)
    ensures AsPromised(cases, w, buckets, Plan(Counts(cases), weights, |buckets|).loads)
  {
    var order := OrderIsEstimated(cases, weights, w);
    var m, loads := |buckets|, Plan(Counts(cases), weights, |buckets|).loads;
    assert Orders(order, cases, w);
    forall s | 0 <= s < m ensures Owners(buckets[s]) <= Owners(cases) && loads[s] == SumOver(Owners(buckets[s]), w) {
      SumsArePromised(order, cases, w, m, s);
    }
    forall n, s, j | 0 <= s < m && 0 <= j < m && n in Owners(buckets[s]) && n in Owners(cases)
      ensures LighterAtTurn(cases, w, buckets, n, s, j)
    {
      TurnIsPromised(order, cases, w, buckets, n, s, j);
    }
    if forall n :: n in Owners(cases) ==> w[n] >= 0.0 {
      forall alt, T, s | KeepsWithin(cases, w, m, alt, T) && 0 <= s < m ensures WithinGraham(loads[s], m, T) {
        BoundIsPromised(order, cases, w, m, alt, T, s);
      }
    }
  }

  /** Every suite has weights for its modules, and those of a suite whose modules are all recorded are the recorded
      ones. */
  lemma EstimateExists(cases: seq<Case>, weights: map<string, real>) returns (w: map<string, real>)
    ensures Estimate(cases, weights, w)
    ensures Owners(cases) <= weights.Keys ==> Estimate(cases, weights, weights)
  {
    var counts := Counts(cases);
    w := map n | n in Owners(cases) :: Estimated(n, counts, weights);
    forall n | n in Owners(cases) ensures Weighs(n, w[n], counts, weights) {
      assert Item(n, counts[n], w[n]) in PlacementOrder(counts, weights);
      EstimatesAreExact(counts, weights, Item(n, counts[n], w[n]));
    }
  }

  // ---------------------------------------------------------------- the program

  method SumOfValues(names: set<string>, value: map<string, real>) returns (total: real)
    requires names <= value.Keys
    ensures total == SumOver(names, value)
  {
    total := 0.0;
    var rest := names;
    while rest != {}
      invariant rest <= names
      invariant SumOver(names, value) == total + SumOver(rest, value)
      decreases rest
    {
      var n :| n in rest;
      SumOverWithout(rest, value, n);
      total := total + value[n];
      rest := rest - {n};
    }
  }

  lemma FilterSnoc(cases: seq<Case>, i: nat, keep: Selection)
    requires i < |cases|
    ensures Filter(cases[..i + 1], keep) ==
            Filter(cases[..i], keep) + (if Keeps(keep, cases[i]) then [cases[i]] else [])
  {
    assert cases[..i + 1][..i] == cases[..i];
  }

  lemma {:induction false} NoOwnedCases(cases: seq<Case>, n: string)
    requires n !in Owners(cases)
    ensures Filter(cases, OwnedBy(n)) == []
  {
    if cases != [] {
      assert cases[|cases| - 1] in cases;
      assert Owners(cases[..|cases| - 1]) <= Owners(cases);
      NoOwnedCases(cases[..|cases| - 1], n);
    }
  }

  lemma GroupedSnoc(cases: seq<Case>, i: nat)
    requires i < |cases|
    ensures var c, before := cases[i], Grouped(cases[..i]);
            Grouped(cases[..i + 1]) == before[c.owner := (if c.owner in before then before[c.owner] else []) + [c]]
  {
    var n := cases[i].owner;
    assert cases[..i + 1] == cases[..i] + [cases[i]];
    assert Owners(cases[..i + 1]) == Owners(cases[..i]) + {n};
    assert Filter(cases[..i + 1], OwnedBy(n)) ==
        (if n in Owners(cases[..i]) then Filter(cases[..i], OwnedBy(n)) else []) + [cases[i]] by {
      FilterSnoc(cases, i, OwnedBy(n));
      if n !in Owners(cases[..i]) { NoOwnedCases(cases[..i], n); }
    }
    forall k | k in Owners(cases[..i]) && k != n
        ensures Filter(cases[..i + 1], OwnedBy(k)) == Filter(cases[..i], OwnedBy(k)) {
      FilterSnoc(cases, i, OwnedBy(k));
    }
  }

  method GroupByModule(cases: seq<Case>) returns (modules: map<string, seq<Case>>)
    ensures modules == Grouped(cases)
  {
    modules := map[];
    for i := 0 to |cases|
      invariant modules == Grouped(cases[..i])
    {
      GroupedSnoc(cases, i);
      var c := cases[i];
      modules := modules[c.owner := (if c.owner in modules then modules[c.owner] else []) + [c]];
    }
    assert cases[..|cases|] == cases;
  }

  /** sorted(modules.items(), key = (-weight, name)). */
  method SortedModules(items: set<Item>) returns (order: seq<Item>)
    requires DistinctNames(items)
    ensures order == Schedule(items)
  {
    order := [];
    var rest := items;
    while rest != {}
      invariant rest <= items && InOrder(order)
      invariant forall x :: x in order <==> x in items - rest
      decreases rest
    {
      var x :| x in rest;
      InsertKeepsOrder(x, order);
      InsertMembers(x, order);
      order := Insert(x, order);
      rest := rest - {x};
    }
    ScheduleIsUnique(order, Schedule(items));
  }

  lemma GreedySnoc(order: seq<Item>, i: nat, m: nat)
    requires m > 0 && i < |order|
    ensures Greedy(order[..i + 1], m) == Place(Greedy(order[..i], m), order[i])
  {
    assert order[..i + 1][..i] == order[..i];
  }

  method PlaceOne(bucketWeights: array<real>, bucketTests: array<int>, x: Item, placed: map<string, nat>)
    returns (target: map<string, nat>)
    requires bucketWeights.Length == bucketTests.Length > 0
    modifies bucketWeights, bucketTests
    ensures Shards(bucketWeights[..], bucketTests[..], target) ==
            Place(Shards(old(bucketWeights[..]), old(bucketTests[..]), placed), x)
  {
    var t := LightestShard(bucketWeights[..], bucketTests[..], bucketWeights.Length);
    target := placed[x.name := t];
    bucketWeights[t] := bucketWeights[t] + x.weight;
    bucketTests[t] := bucketTests[t] + x.tests;
  }

  method PlaceModules(order: seq<Item>, shardCount: nat) returns (loads: seq<real>, target: map<string, nat>)
    requires shardCount > 0
    ensures loads == Greedy(order, shardCount).loads && target == Greedy(order, shardCount).target
  {
    var bucketWeights := new real[shardCount](_ => 0.0);
    var bucketTests := new int[shardCount](_ => 0);
    target := map[];
    assert Greedy([], shardCount) == Shards(bucketWeights[..], bucketTests[..], target);
    for i := 0 to |order|
      invariant Shards(bucketWeights[..], bucketTests[..], target) == Greedy(order[..i], shardCount)
    {
      GreedySnoc(order, i, shardCount);
      target := PlaceOne(bucketWeights, bucketTests, order[i], target);
    }
    assert order[..|order|] == order;
    loads := bucketWeights[..];
  }

  method EstimateModules(modules: map<string, seq<Case>>, weights: map<string, real>, ghost counts: map<string, nat>)
    returns (items: set<Item>)
    requires modules.Keys == counts.Keys && forall n :: n in modules ==> |modules[n]| == counts[n]
    ensures items == ModuleItems(counts, weights)
  {
    var known := modules.Keys * weights.Keys;
    var testCounts := map n | n in modules :: |modules[n]| as real;
    assert testCounts == TestCounts(counts);
    var knownTests := SumOfValues(known, testCounts);
    var knownSeconds := SumOfValues(known, weights);
    var fallback := if knownTests != 0.0 && knownSeconds > 0.0 then knownSeconds / knownTests else 1.0;
    assert fallback == Fallback(counts, weights);
    items := {};
    var rest := modules.Keys;
    while rest != {}
      invariant rest <= modules.Keys
      invariant forall x :: x in items <==>
                x.name in modules.Keys - rest && x == Item(x.name, counts[x.name], Estimated(x.name, counts, weights))
      decreases rest
    {
      var n :| n in rest;
      var weight := if n in weights then weights[n] else |modules[n]| as real * fallback;
      assert weight == Estimated(n, counts, weights);
      items := items + {Item(n, |modules[n]|, weight)};
      rest := rest - {n};
    }
  }

  method SplitCases(cases: seq<Case>, target: map<string, nat>, shardCount: nat) returns (buckets: seq<seq<Case>>)
    requires forall c :: c in cases ==> c.owner in target && target[c.owner] < shardCount
    ensures |buckets| == shardCount
    ensures forall s :: 0 <= s < shardCount ==> buckets[s] == Filter(cases, OnShard(target, s))
  {
    buckets := seq(shardCount, _ => []);
    for i := 0 to |cases|
      invariant |buckets| == shardCount
      invariant forall s :: 0 <= s < shardCount ==> buckets[s] == Filter(cases[..i], OnShard(target, s))
    {
      var t := target[cases[i].owner];
      forall s | 0 <= s < shardCount { FilterSnoc(cases, i, OnShard(target, s)); }
      buckets := buckets[t := buckets[t] + [cases[i]]];
    }
    assert cases[..|cases|] == cases;
  }

  method PartitionByModule(cases: seq<Case>, shardCount: nat, weights: map<string, real>)
    returns (buckets: seq<seq<Case>>, bucketWeights: seq<real>)
    requires shardCount > 0
    ensures |buckets| == |bucketWeights| == shardCount
    ensures exists target :: WholeModules(cases, target, buckets)
    ensures forall w :: Estimate(cases, weights, w) ==> AsPromised(cases, w, buckets, bucketWeights)
    ensures (forall c :: c in cases ==> c.owner in weights) ==>
              Owners(cases) <= weights.Keys && AsPromised(cases, weights, buckets, bucketWeights)
    ensures bucketWeights == Plan(Counts(cases), weights, shardCount).loads
    ensures forall s :: 0 <= s < shardCount ==> buckets[s] == ShardOf(cases, weights, shardCount, s)
  {
    var modules := GroupByModule(cases);
    var items := EstimateModules(modules, weights, Counts(cases));
    var order := SortedModules(items);
    var target: map<string, nat>;
    bucketWeights, target := PlaceModules(order, shardCount);
    ReportedWeightsAreSums(Counts(cases), weights, shardCount);
    assert forall c :: c in cases ==> c.owner in Counts(cases);
    buckets := SplitCases(cases, target, shardCount);
    assert WholeModules(cases, target, buckets);
    forall w | Estimate(cases, weights, w) ensures AsPromised(cases, w, buckets, bucketWeights) {
      PlanIsAsPromised(cases, weights, w, buckets);
    }
    ghost var w := EstimateExists(cases, weights);
  }
}
