/** Worst-case hours of a workforce demand whose lines have alternative periods
    (app/application/medium_term_budget.py).

    Hours are integers in a common unit. A plan picks one option in every alternative group of every line;
    the requested hours are those of the most expensive plan. */
module RequestedHours {
  import opened Options

  datatype Kind = Base | Detailed | Alternative

  datatype Period = Period(
    id: string, demand: string, line: string, workforce: bool, kind: Kind, group: Option<string>, selected: bool,
        hours: Option<int>)

  datatype Line = Line(demand: string, line: string)

  /** An alternative group of one line. */
  datatype Slot = Slot(line: Line, key: string)

  datatype Diagnostic = HoursUnavailable | AlternativeUnresolved

  function LineOf(p: Period): Line {
    Line(p.demand, p.line)
  }

  /** Without a group, an option is a group of its own, under its period identifier. */
  function SlotOf(p: Period): Slot {
    Slot(LineOf(p), if p.group.Some? && p.group.value != "" then p.group.value else p.id)
  }

  function HoursOf(p: Period): int {
    if p.hours.Some? then p.hours.value else 0
  }

  // ---------------------------------------------------------------- which periods count

  ghost predicate HasDetail(rows: seq<Period>, line: Line) {
    exists p :: p in rows && LineOf(p) == line && p.kind != Base
  }

  /** BASE periods are ignored on a line that has others; alternatives count through their slot. */
  ghost predicate Fixed(rows: seq<Period>, p: Period) {
    p.kind == Detailed || (p.kind == Base && !HasDetail(rows, LineOf(p)))
  }

  ghost predicate Resolved(rows: seq<Period>, s: Slot) {
    exists p :: p in rows && p.kind == Alternative && SlotOf(p) == s && p.selected
  }

  /** The options of a slot a plan may pick: the selected ones, or all if none is. */
  ghost predicate Candidate(rows: seq<Period>, s: Slot, p: Period) {
    p in rows && p.kind == Alternative && SlotOf(p) == s && (Resolved(rows, s) ==> p.selected)
  }

  ghost function Slots(rows: seq<Period>): set<Slot> {
    set p | p in rows && p.kind == Alternative :: SlotOf(p)
  }

  /** Some hours that a plan could count are missing. */
  ghost predicate Missing(rows: seq<Period>) {
    exists p :: p in rows && p.hours.None? && (Fixed(rows, p) || Candidate(rows, SlotOf(p), p))
  }

  // ---------------------------------------------------------------- plans

  type Plan = map<Slot, Period>

  ghost predicate IsPlan(rows: seq<Period>, plan: Plan) {
    plan.Keys == Slots(rows) && forall s :: s in plan ==> Candidate(rows, s, plan[s])
  }

  ghost function FixedShare(rows: seq<Period>, p: Period): int {
    if Fixed(rows, p) then HoursOf(p) else 0
  }

  /** The hours of the periods of `some` that count whatever the plan. */
  ghost function FixedHours(rows: seq<Period>, some: multiset<Period>): int {
    if some == multiset{} then 0
    else var p :| p in some; FixedShare(rows, p) + FixedHours(rows, some - multiset{p})
  }

  ghost function ChosenHours(plan: Plan, slots: set<Slot>): int
    requires slots <= plan.Keys
  {
    if slots == {} then 0
    else var s :| s in slots; HoursOf(plan[s]) + ChosenHours(plan, slots - {s})
  }

  /** What a plan asks for. */
  ghost function PlanHours(rows: seq<Period>, plan: Plan): int
    requires IsPlan(rows, plan)
  {
    FixedHours(rows, multiset(rows)) + ChosenHours(plan, plan.Keys)
  }

  /** A plan that no other plan exceeds. */
  ghost predicate Dearest(rows: seq<Period>, plan: Plan) {
    && IsPlan(rows, plan)
    && forall other :: IsPlan(rows, other) ==> PlanHours(rows, other) <= PlanHours(rows, plan)
  }

  lemma {:induction false} ChosenSplit(plan: Plan, slots: set<Slot>, s: Slot)
    requires slots <= plan.Keys && s in slots
    ensures ChosenHours(plan, slots) == HoursOf(plan[s]) + ChosenHours(plan, slots - {s})
    decreases slots
  {
    var t :| t in slots && ChosenHours(plan, slots) == HoursOf(plan[t]) + ChosenHours(plan, slots - {t});
    if s != t {
      ChosenSplit(plan, slots - {t}, s);
      ChosenSplit(plan, slots - {s}, t);
      assert slots - {t} - {s} == slots - {s} - {t};
    }
  }

  lemma {:induction false} ChosenMonotone(a: Plan, b: Plan, slots: set<Slot>)
    requires slots <= a.Keys && slots <= b.Keys && forall s :: s in slots ==> HoursOf(a[s]) <= HoursOf(b[s])
    ensures ChosenHours(a, slots) <= ChosenHours(b, slots)
    decreases slots
  {
    if slots != {} {
      var s :| s in slots;
      ChosenSplit(a, slots, s);
      ChosenSplit(b, slots, s);
      ChosenMonotone(a, b, slots - {s});
    }
  }

  /** A plan that is dearest in every slot is dearest. */
  lemma DearestInEverySlot(rows: seq<Period>, plan: Plan)
    requires IsPlan(rows, plan)
    requires forall s, p :: s in plan && Candidate(rows, s, p) ==> HoursOf(p) <= HoursOf(plan[s])
    ensures Dearest(rows, plan)
  {
    forall other | IsPlan(rows, other) ensures PlanHours(rows, other) <= PlanHours(rows, plan) {
      ChosenMonotone(other, plan, plan.Keys);
    }
  }

  // ---------------------------------------------------------------- the order of the periods is irrelevant

  lemma SameRows(a: seq<Period>, b: seq<Period>)
    requires multiset(a) == multiset(b)
    ensures forall p :: p in a <==> p in b
  {
    assert forall p :: p in a <==> p in multiset(a);
    assert forall p :: p in b <==> p in multiset(b);
  }

  lemma {:induction false} FixedSplit(rows: seq<Period>, some: multiset<Period>, p: Period)
    requires p in some
    ensures FixedHours(rows, some) == FixedShare(rows, p) + FixedHours(rows, some - multiset{p})
    decreases some
  {
    var q :| q in some && FixedHours(rows, some) == FixedShare(rows, q) + FixedHours(rows, some - multiset{q});
    if p != q {
      assert p in some - multiset{q} && q in some - multiset{p};
      FixedSplit(rows, some - multiset{q}, p);
      FixedSplit(rows, some - multiset{p}, q);
      RemovedTwice(some, p, q);
    }
  }

  lemma RemovedTwice(some: multiset<Period>, p: Period, q: Period)
    ensures some - multiset{q} - multiset{p} == some - multiset{p} - multiset{q}
  {
  }

  lemma {:induction false} FixedSame(rows: seq<Period>, other: seq<Period>, some: multiset<Period>)
    requires forall p :: p in some ==> FixedShare(rows, p) == FixedShare(other, p)
    ensures FixedHours(rows, some) == FixedHours(other, some)
    decreases some
  {
    if some != multiset{} {
      var p :| p in some;
      FixedSplit(rows, some, p);
      FixedSplit(other, some, p);
      FixedSame(rows, other, some - multiset{p});
    }
  }

  /** Permuting the periods changes neither whether hours are missing, nor the plans, nor what they ask for. */
  lemma OrderIsIrrelevant(a: seq<Period>, b: seq<Period>, plan: Plan)
    requires multiset(a) == multiset(b)
    ensures Missing(a) == Missing(b) && IsPlan(a, plan) == IsPlan(b, plan)
    ensures IsPlan(a, plan) ==> PlanHours(a, plan) == PlanHours(b, plan)
  {
    SameRows(a, b);
    forall s ensures Resolved(a, s) == Resolved(b, s) {}
    forall s, p ensures Candidate(a, s, p) == Candidate(b, s, p) {}
    forall p ensures Fixed(a, p) == Fixed(b, p) { assert HasDetail(a, LineOf(p)) == HasDetail(b, LineOf(p)); }
    assert Slots(a) == Slots(b);
    FixedSame(a, b, multiset(a));
  }

  // ---------------------------------------------------------------- evaluating blocks of periods

  ghost predicate Unresolved(rows: seq<Period>) {
    exists s :: s in Slots(rows) && !Resolved(rows, s)
  }

  ghost predicate Best(rows: seq<Period>, plan: Plan) {
    IsPlan(rows, plan) && forall s, p :: s in plan && Candidate(rows, s, p) ==> HoursOf(p) <= HoursOf(plan[s])
  }

  /** A running total over `rows`: the hours of a best plan, unless hours are missing. */
  ghost predicate Evaluates(rows: seq<Period>, plan: Plan, total: int, missing: bool, unresolved: bool) {
    && missing == Missing(rows) && unresolved == Unresolved(rows)
    && (!missing ==> Best(rows, plan) && total == PlanHours(rows, plan))
  }

  /** Neither block changes what counts in the other. */
  ghost predicate Independent(a: seq<Period>, b: seq<Period>) {
    && Slots(a) !! Slots(b)
    && (forall p :: p in a ==> (Fixed(a + b, p) <==> Fixed(a, p)))
    && (forall p :: p in b ==> (Fixed(a + b, p) <==> Fixed(b, p)))
  }

  lemma CandidatesOfBoth(a: seq<Period>, b: seq<Period>)
    requires Independent(a, b)
    ensures Slots(a + b) == Slots(a) + Slots(b)
    ensures forall s :: s in Slots(a) ==> (Resolved(a + b, s) <==> Resolved(a, s))
    ensures forall s :: s in Slots(b) ==> (Resolved(a + b, s) <==> Resolved(b, s))
    ensures forall s, p :: s in Slots(a) ==> (Candidate(a + b, s, p) <==> Candidate(a, s, p))
    ensures forall s, p :: s in Slots(b) ==> (Candidate(a + b, s, p) <==> Candidate(b, s, p))
  {
    forall s, p | s in Slots(a) && p in b && p.kind == Alternative
        ensures SlotOf(p) != s { assert SlotOf(p) in Slots(b); }
    forall s, p | s in Slots(b) && p in a && p.kind == Alternative
        ensures SlotOf(p) != s { assert SlotOf(p) in Slots(a); }
    assert forall p :: p in a + b <==> p in a || p in b;
    forall s | s in Slots(a) ensures Resolved(a + b, s) <==> Resolved(a, s) {}
    forall s | s in Slots(b) ensures Resolved(a + b, s) <==> Resolved(b, s) {}
  }

  lemma MissingInEither(a: seq<Period>, b: seq<Period>)
    requires Independent(a, b)
    ensures Missing(a + b) <==> Missing(a) || Missing(b)
  {
    CandidatesOfBoth(a, b);
    forall p | p in a ensures Fixed(a + b, p) || Candidate(a + b, SlotOf(p), p) <==>
        Fixed(a, p) || Candidate(a, SlotOf(p), p) {
      assert p.kind == Alternative ==> SlotOf(p) in Slots(a);
    }
    forall p | p in b ensures Fixed(a + b, p) || Candidate(a + b, SlotOf(p), p) <==>
        Fixed(b, p) || Candidate(b, SlotOf(p), p) {
      assert p.kind == Alternative ==> SlotOf(p) in Slots(b);
    }
    assert forall p :: p in a + b <==> p in a || p in b;
  }

  lemma {:induction false} FixedAdds(rows: seq<Period>, a: multiset<Period>, b: multiset<Period>)
    ensures FixedHours(rows, a + b) == FixedHours(rows, a) + FixedHours(rows, b)
    decreases a
  {
    if a == multiset{} {
      assert a + b == b;
    } else {
      var p :| p in a;
      FixedSplit(rows, a, p);
      FixedSplit(rows, a + b, p);
      assert a + b - multiset{p} == (a - multiset{p}) + b;
      FixedAdds(rows, a - multiset{p}, b);
    }
  }

  lemma {:induction false} ChosenAdds(plan: Plan, a: Plan, b: Plan)
    requires a.Keys !! b.Keys && plan == a + b
    ensures ChosenHours(plan, plan.Keys) == ChosenHours(a, a.Keys) + ChosenHours(b, b.Keys)
  {
    ChosenOfPart(plan, a, a.Keys);
    ChosenOfPart(plan, b, b.Keys);
    ChosenUnion(plan, a.Keys, b.Keys);
    assert plan.Keys == a.Keys + b.Keys;
  }

  lemma {:induction false} ChosenOfPart(plan: Plan, part: Plan, slots: set<Slot>)
    requires slots <= part.Keys <= plan.Keys && forall s :: s in slots ==> plan[s] == part[s]
    ensures ChosenHours(plan, slots) == ChosenHours(part, slots)
    decreases slots
  {
    ChosenMonotone(plan, part, slots);
    ChosenMonotone(part, plan, slots);
  }

  lemma {:induction false} ChosenUnion(plan: Plan, a: set<Slot>, b: set<Slot>)
    requires a !! b && a <= plan.Keys && b <= plan.Keys
    ensures ChosenHours(plan, a + b) == ChosenHours(plan, a) + ChosenHours(plan, b)
    decreases a
  {
    if a == {} {
      assert a + b == b;
    } else {
      var s :| s in a;
      ChosenSplit(plan, a, s);
      ChosenSplit(plan, a + b, s);
      assert a + b - {s} == (a - {s}) + b;
      ChosenUnion(plan, a - {s}, b);
    }
  }

  lemma FixedOfBoth(a: seq<Period>, b: seq<Period>)
    requires Independent(a, b)
    ensures FixedHours(a + b, multiset(a + b)) == FixedHours(a, multiset(a)) + FixedHours(b, multiset(b))
  {
    assert multiset(a + b) == multiset(a) + multiset(b);
    FixedAdds(a + b, multiset(a), multiset(b));
    FixedSame(a + b, a, multiset(a));
    FixedSame(a + b, b, multiset(b));
  }

  lemma UnresolvedInEither(a: seq<Period>, b: seq<Period>)
    requires Independent(a, b)
    ensures Unresolved(a + b) <==> Unresolved(a) || Unresolved(b)
  {
    CandidatesOfBoth(a, b);
  }

  lemma PlanOfBoth(a: seq<Period>, pa: Plan, b: seq<Period>, pb: Plan)
    requires Independent(a, b) && Best(a, pa) && Best(b, pb)
    ensures Best(a + b, pa + pb)
  {
    CandidatesOfBoth(a, b);
    var plan := pa + pb;
    assert plan.Keys == pa.Keys + pb.Keys;
    forall s | s in plan ensures Candidate(a + b, s, plan[s]) {
      if s in pb { assert plan[s] == pb[s]; } else { assert plan[s] == pa[s]; }
    }
    forall s, p | s in plan && Candidate(a + b, s, p) ensures HoursOf(p) <= HoursOf(plan[s]) {
      if s in pb { assert Candidate(b, s, p); } else { assert Candidate(a, s, p); }
    }
  }

  lemma HoursOfBoth(a: seq<Period>, pa: Plan, b: seq<Period>, pb: Plan)
    requires Independent(a, b) && IsPlan(a, pa) && IsPlan(b, pb) && IsPlan(a + b, pa + pb)
    ensures PlanHours(a + b, pa + pb) == PlanHours(a, pa) + PlanHours(b, pb)
  {
    FixedOfBoth(a, b);
    ChosenAdds(pa + pb, pa, pb);
  }

  lemma Combine(a: seq<Period>, pa: Plan, ta: int, ma: bool, ua: bool, b: seq<Period>, pb: Plan, tb: int, mb: bool,
      ub: bool)
    requires Independent(a, b) && Evaluates(a, pa, ta, ma, ua) && Evaluates(b, pb, tb, mb, ub)
    ensures Evaluates(a + b, pa + pb, ta + tb, ma || mb, ua || ub)
  {
    MissingInEither(a, b);
    UnresolvedInEither(a, b);
    if !ma && !mb {
      PlanOfBoth(a, pa, b, pb);
      HoursOfBoth(a, pa, b, pb);
    }
  }

  lemma Rearrange(a: seq<Period>, b: seq<Period>, plan: Plan, total: int, missing: bool, unresolved: bool)
    requires multiset(a) == multiset(b) && Evaluates(a, plan, total, missing, unresolved)
    ensures Evaluates(b, plan, total, missing, unresolved)
  {
    OrderIsIrrelevant(a, b, plan);
    SameRows(a, b);
    assert Slots(a) == Slots(b);
    forall s ensures Resolved(a, s) == Resolved(b, s) {}
    forall s, p ensures Candidate(a, s, p) == Candidate(b, s, p) {}
  }

  // ---------------------------------------------------------------- grouping

  /** A dictionary of lists, its keys in the order of their first row. */
  datatype Groups<!K(==)> = Groups(keys: seq<K>, rows: map<K, seq<Period>>)

  ghost predicate Grouped<K(!new)>(g: Groups<K>) {
    && (forall i, j :: 0 <= i < j < |g.keys| ==> g.keys[i] != g.keys[j])
    && (forall k :: k in g.keys <==> k in g.rows)
    && (forall k :: k in g.rows ==> g.rows[k] != [])
  }

  /** setdefault(key, []).append(row). */
  function Append<K(==)>(g: Groups<K>, key: K, row: Period): Groups<K> {
    if key in g.rows then g.(rows := g.rows[key := g.rows[key] + [row]])
    else Groups(g.keys + [key], g.rows[key := [row]])
  }

  /** The rows of the first n groups. */
  ghost function Flat<K>(g: Groups<K>, n: nat): seq<Period>
    requires n <= |g.keys| && forall k :: k in g.keys ==> k in g.rows
  {
    if n == 0 then [] else Flat(g, n - 1) + g.rows[g.keys[n - 1]]
  }

  lemma {:induction false} FlatSame<K>(a: Groups<K>, b: Groups<K>, n: nat)
    requires n <= |a.keys| && n <= |b.keys| && (forall k :: k in a.keys ==> k in a.rows) &&
             (forall k :: k in b.keys ==> k in b.rows)
    requires forall i :: 0 <= i < n ==> a.keys[i] == b.keys[i] && a.rows[a.keys[i]] == b.rows[b.keys[i]]
    ensures Flat(a, n) == Flat(b, n)
  {
    if n > 0 { FlatSame(a, b, n - 1); }
  }

  lemma Snoc(rows: seq<Period>, row: Period)
    ensures multiset(rows + [row]) == multiset(rows) + multiset{row}
  {
  }

  lemma PrefixGrows(rows: seq<Period>, i: nat)
    requires i < |rows|
    ensures multiset(rows[..i + 1]) == multiset(rows[..i]) + multiset{rows[i]}
  {
    assert rows[..i + 1] == rows[..i] + [rows[i]];
    Snoc(rows[..i], rows[i]);
  }

  lemma FlatStep<K(!new)>(g: Groups<K>, n: nat)
    requires Grouped(g) && n < |g.keys|
    ensures multiset(Flat(g, n + 1)) == multiset(Flat(g, n)) + multiset(g.rows[g.keys[n]])
  {
  }

  lemma AppendKnown<K(!new)>(g: Groups<K>, key: K, row: Period)
    requires Grouped(g) && key in g.rows
    ensures Grouped(Append(g, key, row)) && Append(g, key, row).keys == g.keys
  {
  }

  /** `after` is g with one more row in its i-th group. */
  ghost predicate OneMore<K(!new)>(g: Groups<K>, after: Groups<K>, i: nat, row: Period) {
    && Grouped(g) && Grouped(after) && after.keys == g.keys && i < |g.keys|
    && forall j :: 0 <= j < |g.keys| ==> after.rows[g.keys[j]] == if j == i then g.rows[g.keys[j]] + [row]
         else g.rows[g.keys[j]]
  }

  lemma FlatAtRow<K(!new)>(g: Groups<K>, after: Groups<K>, i: nat, row: Period)
    requires OneMore(g, after, i, row)
    ensures multiset(Flat(after, i + 1)) == multiset(Flat(g, i + 1)) + multiset{row}
  {
    FlatStep(g, i);
    FlatStep(after, i);
    FlatSame(g, after, i);
    Snoc(g.rows[g.keys[i]], row);
  }

  lemma FlatPastRow<K(!new)>(g: Groups<K>, after: Groups<K>, i: nat, row: Period, n: nat)
    requires OneMore(g, after, i, row) && i < n < |g.keys|
    requires multiset(Flat(after, n)) == multiset(Flat(g, n)) + multiset{row}
    ensures multiset(Flat(after, n + 1)) == multiset(Flat(g, n + 1)) + multiset{row}
  {
    FlatStep(g, n);
    FlatStep(after, n);
  }

  lemma FlatWithRow<K(!new)>(g: Groups<K>, after: Groups<K>, i: nat, row: Period, n: nat)
    requires OneMore(g, after, i, row) && i < n <= |g.keys|
    ensures multiset(Flat(after, n)) == multiset(Flat(g, n)) + multiset{row}
  {
    FlatAtRow(g, after, i, row);
    for m := i + 1 to n
      invariant multiset(Flat(after, m)) == multiset(Flat(g, m)) + multiset{row}
    {
      FlatPastRow(g, after, i, row, m);
    }
  }

  lemma AppendNew<K(!new)>(g: Groups<K>, key: K, row: Period)
    requires Grouped(g) && key !in g.rows
    ensures Grouped(Append(g, key, row)) && |Append(g, key, row).keys| == |g.keys| + 1
    ensures multiset(Flat(Append(g, key, row), |g.keys| + 1)) == multiset(Flat(g, |g.keys|)) + multiset{row}
  {
    var after := Append(g, key, row);
    FlatSame(g, after, |g.keys|);
    FlatStep(after, |g.keys|);
    assert after.rows[key] == [row];
  }

  lemma AppendGroups<K(!new)>(g: Groups<K>, key: K, row: Period)
    requires Grouped(g)
    ensures Grouped(Append(g, key, row))
    ensures multiset(Flat(Append(g, key, row), |Append(g, key, row).keys|)) ==
            multiset(Flat(g, |g.keys|)) + multiset{row}
  {
    if key in g.rows {
      AppendKnown(g, key, row);
      var i :| 0 <= i < |g.keys| && g.keys[i] == key;
      FlatWithRow(g, Append(g, key, row), i, row, |g.keys|);
    } else {
      AppendNew(g, key, row);
    }
  }

  // ---------------------------------------------------------------- one group, one line, all lines

  lemma {:induction false} NoFixedHours(rows: seq<Period>, some: multiset<Period>)
    requires forall p :: p in some ==> !Fixed(rows, p)
    ensures FixedHours(rows, some) == 0
    decreases some
  {
    if some != multiset{} {
      var p :| p in some;
      FixedSplit(rows, some, p);
      NoFixedHours(rows, some - multiset{p});
    }
  }

  lemma OneSlot(options: seq<Period>, s: Slot, best: Period)
    requires options != [] && forall p :: p in options ==> p.kind == Alternative && SlotOf(p) == s
    requires Candidate(options, s, best) && forall p :: Candidate(options, s, p) ==> HoursOf(p) <= HoursOf(best)
    ensures Best(options, map[s := best]) && PlanHours(options, map[s := best]) == HoursOf(best)
  {
    var plan := map[s := best];
    assert Slots(options) == {s} by { assert options[0] in options; }
    NoFixedHours(options, multiset(options));
    ChosenSplit(plan, {s}, s);
    assert {s} - {s} == {};
    assert plan.Keys == {s};
  }

  lemma OneSlotFlags(options: seq<Period>, s: Slot, candidates: seq<Period>)
    requires options != [] && forall p :: p in options ==> p.kind == Alternative && SlotOf(p) == s
    requires forall p :: p in candidates <==> Candidate(options, s, p)
    ensures Missing(options) <==> exists p :: p in candidates && p.hours.None?
    ensures Unresolved(options) <==> !Resolved(options, s)
  {
    assert Slots(options) == {s} by { assert options[0] in options; }
  }

  /** The selected options of a group, or all of them, and the largest of their hours. */
  method GroupHours(options: seq<Period>, ghost s: Slot)
    returns (hours: Option<int>, unresolved: bool, ghost plan: Plan)
    requires options != [] && forall p :: p in options ==> p.kind == Alternative && SlotOf(p) == s
    ensures Evaluates(options, plan, if hours.Some? then hours.value else 0, hours.None?, unresolved)
  {
    var selected: seq<Period> := [];
    for i := 0 to |options|
      invariant forall p :: p in selected <==> p in options[..i] && p.selected
    {
      if options[i].selected { selected := selected + [options[i]]; }
    }
    var candidates := if selected != [] then selected else options;
    unresolved := selected == [];
    assert selected != [] <==> Resolved(options, s) by {
      if selected != [] { assert selected[0] in selected; }
    }
    assert forall p :: p in candidates <==> Candidate(options, s, p);
    OneSlotFlags(options, s, candidates);
    hours := None;
    plan := map[];
    var best := candidates[0];
    for i := 0 to |candidates|
      invariant best in candidates
      invariant forall p :: p in candidates[..i] ==> p.hours.Some? && HoursOf(p) <= HoursOf(best)
    {
      if candidates[i].hours.None? { return; }
      if HoursOf(candidates[i]) > HoursOf(best) { best := candidates[i]; }
    }
    OneSlot(options, s, best);
    hours, plan := Some(HoursOf(best)), map[s := best];
  }

  /** Only BASE periods, or none. */
  ghost predicate Pure(rows: seq<Period>) {
    (forall p :: p in rows ==> p.kind == Base) || (forall p :: p in rows ==> p.kind != Base)
  }

  lemma PureIsFixed(rows: seq<Period>, p: Period)
    requires Pure(rows) && p in rows
    ensures Fixed(rows, p) <==> p.kind != Alternative
  {
  }

  lemma PureIndependent(a: seq<Period>, b: seq<Period>)
    requires Pure(a + b) && Slots(a) !! Slots(b)
    ensures Independent(a, b)
  {
    assert forall p :: p in a + b <==> p in a || p in b;
    forall p | p in a ensures Fixed(a + b, p) <==> Fixed(a, p) { PureIsFixed(a + b, p); PureIsFixed(a, p); }
    forall p | p in b ensures Fixed(a + b, p) <==> Fixed(b, p) { PureIsFixed(a + b, p); PureIsFixed(b, p); }
  }

  /** Two lines never share anything. */
  lemma LinesIndependent(a: seq<Period>, b: seq<Period>)
    requires forall p, q :: p in a && q in b ==> LineOf(p) != LineOf(q)
    ensures Independent(a, b)
  {
    assert forall p :: p in a + b <==> p in a || p in b;
    forall p | p in a ensures HasDetail(a + b, LineOf(p)) <==> HasDetail(a, LineOf(p)) {}
    forall p | p in b ensures HasDetail(a + b, LineOf(p)) <==> HasDetail(b, LineOf(p)) {}
  }

  lemma NothingEvaluates()
    ensures Evaluates([], map[], 0, false, false)
  {
  }

  /** A period that is not an alternative, alone. */
  lemma OneFixed(row: Period)
    requires row.kind != Alternative
    ensures Evaluates([row], map[], HoursOf(row), row.hours.None?, false)
  {
    assert row in [row] && Fixed([row], row);
    FixedSplit([row], multiset([row]), row);
    assert multiset([row]) - multiset{row} == multiset{};
  }

  lemma AddFixed(done: seq<Period>, total: int, missing: bool, row: Period)
    requires row.kind != Alternative && (forall p :: p in done ==> p.kind != Alternative) && Pure(done + [row])
    requires Evaluates(done, map[], total, missing, false)
    ensures Evaluates(done + [row], map[], total + HoursOf(row), missing || row.hours.None?, false)
  {
    OneFixed(row);
    PureIndependent(done, [row]);
    Combine(done, map[], total, missing, false, [row], map[], HoursOf(row), row.hours.None?, false);
    var none: Plan := map[];
    assert none + none == none;
  }

  ghost predicate AllOptions(rows: seq<Period>, s: Slot) {
    forall p :: p in rows ==> p.kind == Alternative && SlotOf(p) == s
  }

  /** The groups of the options of one line. */
  ghost predicate OptionsOf(g: Groups<string>, line: Line) {
    Grouped(g) && forall k :: k in g.rows ==> AllOptions(g.rows[k], Slot(line, k))
  }

  lemma {:induction false} FlatSlots(g: Groups<string>, line: Line, n: nat)
    requires OptionsOf(g, line) && n <= |g.keys|
    ensures forall p :: p in Flat(g, n) ==>
            p.kind == Alternative && SlotOf(p).line == line && SlotOf(p).key in g.keys[..n]
  {
    if n > 0 {
      FlatSlots(g, line, n - 1);
      assert g.keys[..n] == g.keys[..n - 1] + [g.keys[n - 1]];
    }
  }

  lemma GroupIsIndependent(fixed: seq<Period>, g: Groups<string>, line: Line, n: nat)
    requires OptionsOf(g, line) && n < |g.keys| && (forall p :: p in fixed ==> p.kind != Alternative)
    requires Pure(fixed + Flat(g, n + 1))
    ensures Independent(fixed + Flat(g, n), g.rows[g.keys[n]])
    ensures (fixed + Flat(g, n)) + g.rows[g.keys[n]] == fixed + Flat(g, n + 1)
  {
    var done, options := fixed + Flat(g, n), g.rows[g.keys[n]];
    assert done + options == fixed + Flat(g, n + 1);
    FlatSlots(g, line, n);
    assert g.keys[n] !in g.keys[..n];
    forall s | s in Slots(done) ensures s !in Slots(options) {
      assert s.key in g.keys[..n];
    }
    PureIndependent(done, options);
  }

  function NonBase(rows: seq<Period>): seq<Period> {
    if rows == [] then []
    else NonBase(rows[..|rows| - 1]) + (if rows[|rows| - 1].kind != Base then [rows[|rows| - 1]] else [])
  }

  ghost function OnlyBase(rows: seq<Period>): seq<Period> {
    if rows == [] then []
    else OnlyBase(rows[..|rows| - 1]) + (if rows[|rows| - 1].kind == Base then [rows[|rows| - 1]] else [])
  }

  lemma {:induction false} BaseSplit(rows: seq<Period>)
    ensures multiset(rows) == multiset(NonBase(rows)) + multiset(OnlyBase(rows))
    ensures forall p :: p in NonBase(rows) <==> p in rows && p.kind != Base
    ensures forall p :: p in OnlyBase(rows) <==> p in rows && p.kind == Base
  {
    if rows != [] {
      BaseSplit(rows[..|rows| - 1]);
      assert rows == rows[..|rows| - 1] + [rows[|rows| - 1]];
    }
  }

  ghost predicate SameOptions(a: seq<Period>, b: seq<Period>) {
    Slots(a) == Slots(b) && forall s, p :: Candidate(a, s, p) <==> Candidate(b, s, p)
  }

  lemma BaseIsIgnored(rows: seq<Period>, line: Line)
    requires (forall p :: p in rows ==> LineOf(p) == line) && NonBase(rows) != []
    ensures SameOptions(rows, NonBase(rows)) && Unresolved(rows) == Unresolved(NonBase(rows))
    ensures forall p :: p in NonBase(rows) ==> (Fixed(rows, p) <==> Fixed(NonBase(rows), p))
    ensures forall p :: p in OnlyBase(rows) ==> !Fixed(rows, p)
  {
    var effective := NonBase(rows);
    BaseSplit(rows);
    assert effective[0] in effective && HasDetail(rows, line);
    assert Slots(rows) == Slots(effective);
    forall s ensures Resolved(rows, s) <==> Resolved(effective, s) {}
  }

  lemma MissingIgnoresBase(rows: seq<Period>, line: Line)
    requires (forall p :: p in rows ==> LineOf(p) == line) && NonBase(rows) != []
    ensures Missing(rows) == Missing(NonBase(rows))
  {
    BaseSplit(rows);
    BaseIsIgnored(rows, line);
  }

  lemma FixedIgnoresBase(rows: seq<Period>, line: Line)
    requires (forall p :: p in rows ==> LineOf(p) == line) && NonBase(rows) != []
    ensures FixedHours(rows, multiset(rows)) == FixedHours(NonBase(rows), multiset(NonBase(rows)))
  {
    BaseSplit(rows);
    BaseIsIgnored(rows, line);
    FixedAdds(rows, multiset(NonBase(rows)), multiset(OnlyBase(rows)));
    FixedSame(rows, NonBase(rows), multiset(NonBase(rows)));
    NoFixedHours(rows, multiset(OnlyBase(rows)));
  }

  /** On a line with other periods the BASE ones change nothing. */
  lemma IgnoringBase(rows: seq<Period>, line: Line, plan: Plan, total: int, missing: bool, unresolved: bool)
    requires (forall p :: p in rows ==> LineOf(p) == line) && NonBase(rows) != []
    requires Evaluates(NonBase(rows), plan, total, missing, unresolved)
    ensures Evaluates(rows, plan, total, missing, unresolved)
  {
    MissingIgnoresBase(rows, line);
    BaseIsIgnored(rows, line);
    FixedIgnoresBase(rows, line);
  }

  lemma AddOption(g: Groups<string>, line: Line, row: Period)
    requires OptionsOf(g, line) && row.kind == Alternative && LineOf(row) == line
    ensures OptionsOf(Append(g, SlotOf(row).key, row), line)
  {
    var key := SlotOf(row).key;
    AppendGroups(g, key, row);
    var after := Append(g, key, row);
    assert AllOptions(after.rows[key], Slot(line, key));
    forall k | k in after.rows && k != key ensures AllOptions(after.rows[k], Slot(line, k)) {
      assert after.rows[k] == g.rows[k];
    }
  }

  lemma PartIsPure(rows: seq<Period>, part: seq<Period>)
    requires Pure(rows) && forall p :: p in part ==> p in rows
    ensures Pure(part)
  {
  }

  /** The state of the first pass over the effective periods of a line. */
  ghost predicate Sorted(effective: seq<Period>, i: nat, line: Line, g: Groups<string>, fixed: seq<Period>, total: int,
      missing: bool)
    requires i <= |effective|
  {
    && OptionsOf(g, line) && Evaluates(fixed, map[], total, missing, false)
    && (forall p :: p in fixed ==> p.kind != Alternative && p in effective)
    && multiset(effective[..i]) == multiset(fixed) + multiset(Flat(g, |g.keys|))
  }

  lemma SortOption(effective: seq<Period>, i: nat, line: Line, g: Groups<string>, fixed: seq<Period>, total: int,
      missing: bool)
    requires i < |effective| && Sorted(effective, i, line, g, fixed, total, missing)
    requires effective[i].kind == Alternative && LineOf(effective[i]) == line
    ensures Sorted(effective, i + 1, line, Append(g, SlotOf(effective[i]).key, effective[i]), fixed, total, missing)
  {
    PrefixGrows(effective, i);
    AddOption(g, line, effective[i]);
    AppendGroups(g, SlotOf(effective[i]).key, effective[i]);
  }

  lemma SortFixed(effective: seq<Period>, i: nat, line: Line, g: Groups<string>, fixed: seq<Period>, total: int,
      missing: bool)
    requires i < |effective| && Sorted(effective, i, line, g, fixed, total, missing) && Pure(effective)
    requires effective[i].kind != Alternative
    ensures Sorted(effective, i + 1, line, g, fixed + [effective[i]], total + HoursOf(effective[i]), missing ||
            effective[i].hours.None?)
  {
    PrefixGrows(effective, i);
    Snoc(fixed, effective[i]);
    PartIsPure(effective, fixed + [effective[i]]);
    AddFixed(fixed, total, missing, effective[i]);
  }

  /** The first pass: sums the fixed periods, groups the alternatives. */
  method SortLine(effective: seq<Period>, ghost line: Line)
    returns (g: Groups<string>, total: int, missing: bool, ghost fixed: seq<Period>)
    requires Pure(effective) && forall p :: p in effective ==> LineOf(p) == line
    ensures Sorted(effective, |effective|, line, g, fixed, total, missing)
  {
    g, total, missing, fixed := Groups([], map[]), 0, false, [];
    NothingEvaluates();
    for i := 0 to |effective|
      invariant Sorted(effective, i, line, g, fixed, total, missing)
    {
      var row := effective[i];
      if row.kind == Alternative {
        SortOption(effective, i, line, g, fixed, total, missing);
        g := Append(g, SlotOf(row).key, row);
      } else {
        SortFixed(effective, i, line, g, fixed, total, missing);
        fixed := fixed + [row];
        if row.hours.None? { missing := true; } else { total := total + row.hours.value; }
      }
    }
  }

  lemma SortedAll(effective: seq<Period>, line: Line, g: Groups<string>, fixed: seq<Period>, total: int, missing: bool)
    requires Pure(effective) && Sorted(effective, |effective|, line, g, fixed, total, missing)
    ensures multiset(fixed + Flat(g, |g.keys|)) == multiset(effective) && Pure(fixed + Flat(g, |g.keys|))
  {
    assert effective[..|effective|] == effective;
    assert multiset(fixed + Flat(g, |g.keys|)) == multiset(fixed) + multiset(Flat(g, |g.keys|));
    SameRows(effective, fixed + Flat(g, |g.keys|));
    PartIsPure(effective, fixed + Flat(g, |g.keys|));
  }

  /** One more group. */
  method AddGroup(g: Groups<string>, j: nat, total0: int, missing0: bool, unresolved0: bool,
                  ghost line: Line, ghost fixed: seq<Period>, ghost done: seq<Period>, ghost plan0: Plan)
    returns (total: int, missing: bool, unresolved: bool, ghost plan: Plan, ghost more: seq<Period>)
    requires OptionsOf(g, line) && j < |g.keys| && Pure(fixed + Flat(g, |g.keys|)) && forall p :: p in fixed ==>
             p.kind != Alternative
    requires done == fixed + Flat(g, j) && Evaluates(done, plan0, total0, missing0, unresolved0)
    ensures more == fixed + Flat(g, j + 1) && Evaluates(more, plan, total, missing, unresolved)
  {
    var hours, open;
    ghost var pg;
    hours, open, pg := GroupHours(g.rows[g.keys[j]], Slot(line, g.keys[j]));
    FlatPrefix(g, j + 1);
    PartIsPure(fixed + Flat(g, |g.keys|), fixed + Flat(g, j + 1));
    GroupIsIndependent(fixed, g, line, j);
    Combine(done, plan0, total0, missing0, unresolved0, g.rows[g.keys[j]], pg, if hours.Some? then hours.value
        else 0, hours.None?, open);
    plan, unresolved, more := plan0 + pg, unresolved0 || open, done + g.rows[g.keys[j]];
    if hours.None? { total, missing := total0, true; } else { total, missing := total0 + hours.value, missing0; }
  }

  /** The pass over the alternative groups of a line. */
  method AddGroups(g: Groups<string>, total0: int, missing0: bool, ghost line: Line, ghost fixed: seq<Period>)
    returns (total: int, missing: bool, unresolved: bool, ghost plan: Plan, ghost done: seq<Period>)
    requires OptionsOf(g, line) && Evaluates(fixed, map[], total0, missing0, false) && Pure(fixed + Flat(g, |g.keys|))
    requires forall p :: p in fixed ==> p.kind != Alternative
    ensures done == fixed + Flat(g, |g.keys|) && Evaluates(done, plan, total, missing, unresolved)
  {
    total, missing, unresolved, plan, done := total0, missing0, false, map[], fixed;
    for j := 0 to |g.keys|
      invariant done == fixed + Flat(g, j) && Evaluates(done, plan, total, missing, unresolved)
    {
      total, missing, unresolved, plan, done := AddGroup(g, j, total, missing, unresolved, line, fixed, done, plan);
    }
  }

  /** One line: its detailed periods or, without any, its base ones. */
  method LineHours(rows: seq<Period>, ghost line: Line)
    returns (total: int, missing: bool, unresolved: bool, ghost plan: Plan)
    requires forall p :: p in rows ==> LineOf(p) == line
    ensures Evaluates(rows, plan, total, missing, unresolved)
  {
    var detailed := NonBase(rows);
    BaseSplit(rows);
    var effective := if detailed != [] then detailed else rows;
    var g;
    ghost var fixed, done;
    g, total, missing, fixed := SortLine(effective, line);
    SortedAll(effective, line, g, fixed, total, missing);
    total, missing, unresolved, plan, done := AddGroups(g, total, missing, line, fixed);
    Rearrange(done, effective, plan, total, missing, unresolved);
    if detailed != [] { IgnoringBase(rows, line, plan, total, missing, unresolved); }
  }

  lemma {:induction false} FlatPrefix<K(!new)>(g: Groups<K>, n: nat)
    requires Grouped(g) && n <= |g.keys|
    ensures forall p :: p in Flat(g, n) ==> p in Flat(g, |g.keys|)
    decreases |g.keys| - n
  {
    if n < |g.keys| { FlatPrefix(g, n + 1); }
  }

  function Workforce(periods: seq<Period>): seq<Period> {
    if periods == [] then []
    else
      Workforce(periods[..|periods| - 1]) + (if periods[|periods| - 1].workforce then [periods[|periods| - 1]] else [])
  }

  ghost predicate LinesOf(g: Groups<Line>) {
    Grouped(g) && forall k, p :: k in g.rows && p in g.rows[k] ==> LineOf(p) == k
  }

  lemma {:induction false} FlatLines(g: Groups<Line>, n: nat)
    requires LinesOf(g) && n <= |g.keys|
    ensures forall p :: p in Flat(g, n) ==> LineOf(p) in g.keys[..n]
  {
    if n > 0 {
      FlatLines(g, n - 1);
      assert g.keys[..n] == g.keys[..n - 1] + [g.keys[n - 1]];
    }
  }

  /** Grouping the rows by line. */
  method GroupByLine(rows: seq<Period>) returns (g: Groups<Line>)
    ensures LinesOf(g) && multiset(rows) == multiset(Flat(g, |g.keys|))
  {
    g := Groups([], map[]);
    for i := 0 to |rows|
      invariant LinesOf(g) && multiset(rows[..i]) == multiset(Flat(g, |g.keys|))
    {
      assert rows[..i + 1] == rows[..i] + [rows[i]];
      AppendGroups(g, LineOf(rows[i]), rows[i]);
      g := Append(g, LineOf(rows[i]), rows[i]);
    }
    assert rows[..|rows|] == rows;
  }

  lemma NextLineIsIndependent(g: Groups<Line>, n: nat)
    requires LinesOf(g) && n < |g.keys|
    ensures Independent(Flat(g, n), g.rows[g.keys[n]])
  {
    FlatLines(g, n);
    assert g.keys[n] !in g.keys[..n];
    LinesIndependent(Flat(g, n), g.rows[g.keys[n]]);
  }

  /** What the diagnostics say: each flag at most once. */
  ghost predicate Diagnoses(diagnostics: seq<Diagnostic>, missing: bool, unresolved: bool) {
    && |diagnostics| == (if missing then 1 else 0) + (if unresolved then 1 else 0)
    && (HoursUnavailable in diagnostics <==> missing) && (AlternativeUnresolved in diagnostics <==> unresolved)
  }

  /** One more line. */
  method AddLine(g: Groups<Line>, j: nat, total0: int, missing0: bool, unresolved0: bool, ghost plan0: Plan)
    returns (total: int, missing: bool, unresolved: bool, ghost plan: Plan)
    requires LinesOf(g) && j < |g.keys| && Evaluates(Flat(g, j), plan0, total0, missing0, unresolved0)
    ensures Evaluates(Flat(g, j + 1), plan, total, missing, unresolved)
    ensures (missing0 ==> missing) && (unresolved0 ==> unresolved)
  {
    total, missing, unresolved, plan := LineHours(g.rows[g.keys[j]], g.keys[j]);
    NextLineIsIndependent(g, j);
    Combine(Flat(g, j), plan0, total0, missing0, unresolved0, g.rows[g.keys[j]], plan, total, missing, unresolved);
    total, missing, unresolved, plan := total0 + total, missing0 || missing, unresolved0 || unresolved, plan0 + plan;
  }

  /** `hours` are those of a plan that no plan exceeds. */
  ghost predicate Requested(periods: seq<Period>, hours: int) {
    exists plan: Plan :: Dearest(Workforce(periods), plan) && PlanHours(Workforce(periods), plan) == hours
  }

  lemma {:induction false} WorkforceCounts(periods: seq<Period>, p: Period)
    ensures multiset(Workforce(periods))[p] == if p.workforce then multiset(periods)[p] else 0
  {
    if periods != [] {
      var before, last := periods[..|periods| - 1], periods[|periods| - 1];
      WorkforceCounts(before, p);
      assert periods == before + [last];
    }
  }

  /** The result is a function of the periods as a collection: their order is irrelevant, and there is one
      maximum only. */
  lemma RequestedHoursAreOrderFree(a: seq<Period>, b: seq<Period>, x: int, y: int)
    requires multiset(a) == multiset(b)
    ensures Missing(Workforce(a)) == Missing(Workforce(b))
    ensures Requested(a, x) <==> Requested(b, x)
    ensures Requested(a, x) && Requested(b, y) ==> x == y
  {
    forall p ensures multiset(Workforce(a))[p] == multiset(Workforce(b))[p] {
      WorkforceCounts(a, p);
      WorkforceCounts(b, p);
    }
    assert multiset(Workforce(a)) == multiset(Workforce(b));
    forall plan: Plan
      ensures IsPlan(Workforce(a), plan) <==> IsPlan(Workforce(b), plan)
      ensures Missing(Workforce(a)) == Missing(Workforce(b))
      ensures IsPlan(Workforce(a), plan) ==> PlanHours(Workforce(a), plan) == PlanHours(Workforce(b), plan)
    {
      OrderIsIrrelevant(Workforce(a), Workforce(b), plan);
    }
    OrderIsIrrelevant(Workforce(a), Workforce(b), map[]);
  }

  // ---------------------------------------------------------------- the same, period by period

  predicate SameLine(p: Period, q: Period) {
    p.demand == q.demand && p.line == q.line
  }

  predicate Ungrouped(p: Period) {
    p.group == None || p.group == Some("")
  }

  /** Two options of one alternative group: of one line, and of the same group, the identifier of an option standing
      for the group it does not have. */
  predicate SameGroup(p: Period, q: Period) {
    && SameLine(p, q)
    && if Ungrouped(p) then p.id == (if Ungrouped(q) then q.id else q.group.value)
       else p.group.value == (if Ungrouped(q) then q.id else q.group.value)
  }

  predicate IsOption(periods: seq<Period>, i: nat) {
    i < |periods| && periods[i].workforce && periods[i].kind == Alternative
  }

  /** An option of the group of another one that somebody selected. */
  predicate Preferred(periods: seq<Period>, i: nat, j: nat)
    requires i < |periods|
  {
    IsOption(periods, j) && SameGroup(periods[i], periods[j]) && periods[j].selected
  }

  /** A period that is not a base one, on the line of another. */
  predicate Details(periods: seq<Period>, i: nat, j: nat)
    requires i < |periods|
  {
    j < |periods| && periods[j].workforce && periods[j].kind != Base && SameLine(periods[i], periods[j])
  }

  /** A period that may count: a base one on a line without others, a detailed one, and of a group of options the
      selected ones or, if there is none, any. */
  ghost predicate MayCount(periods: seq<Period>, i: nat) {
    && i < |periods| && periods[i].workforce
    && match periods[i].kind
       case Base => forall j: nat :: !Details(periods, i, j)
       case Detailed => true
       case Alternative => periods[i].selected || forall j: nat :: !Preferred(periods, i, j)
  }

  ghost predicate LacksHours(periods: seq<Period>, i: nat) {
    MayCount(periods, i) && periods[i].hours.None?
  }

  ghost predicate Undecided(periods: seq<Period>, i: nat) {
    IsOption(periods, i) && forall j: nat :: !Preferred(periods, i, j)
  }

  ghost predicate Stands(periods: seq<Period>, picked: seq<bool>, i: nat, j: nat)
    requires i < |periods| == |picked|
  {
    IsOption(periods, j) && picked[j] && SameGroup(periods[i], periods[j])
  }

  /** A choice picks periods that may count: all that are not options, and one option of every group. */
  ghost predicate IsChoice(periods: seq<Period>, picked: seq<bool>) {
    && |picked| == |periods|
    && (forall i: nat :: i < |periods| && picked[i] ==> MayCount(periods, i))
    && (forall i: nat :: MayCount(periods, i) && periods[i].kind != Alternative ==> picked[i])
    && (forall i: nat :: IsOption(periods, i) ==> exists j: nat :: Stands(periods, picked, i, j))
    && (forall i: nat, j: nat :: IsOption(periods, i) && picked[i] && Stands(periods, picked, i, j) ==> i == j)
  }

  /** The hours of what a choice picks among the first n periods. */
  ghost function HoursPicked(periods: seq<Period>, picked: seq<bool>, n: nat): int
    requires n <= |periods| == |picked|
  {
    if n == 0 then 0
    else
      HoursPicked(periods, picked, n - 1) +
      (if picked[n - 1] && periods[n - 1].hours.Some? then periods[n - 1].hours.value else 0)
  }

  ghost predicate Asks(periods: seq<Period>, picked: seq<bool>, hours: int) {
    IsChoice(periods, picked) && HoursPicked(periods, picked, |periods|) == hours
  }

  /** The hours of a choice that no choice exceeds. */
  ghost predicate AsksAtMost(periods: seq<Period>, hours: int) {
    && (exists picked: seq<bool> :: Asks(periods, picked, hours))
    && forall picked: seq<bool> :: IsChoice(periods, picked) ==> HoursPicked(periods, picked, |periods|) <= hours
  }

  lemma SameSlotExactly(p: Period, q: Period)
    ensures LineOf(p) == LineOf(q) <==> SameLine(p, q)
    ensures SlotOf(p) == SlotOf(q) <==> SameGroup(p, q)
  {
  }

  lemma {:induction false} WorkforceMembers(periods: seq<Period>)
    ensures forall i: nat :: i < |periods| && periods[i].workforce ==> periods[i] in Workforce(periods)
    ensures forall p :: p in Workforce(periods) ==> exists i: nat :: i < |periods| && periods[i] == p && p.workforce
  {
    forall i: nat | i < |periods| && periods[i].workforce ensures periods[i] in Workforce(periods) {
      WorkforceCounts(periods, periods[i]);
    }
    forall p | p in Workforce(periods) ensures exists i: nat :: i < |periods| && periods[i] == p && p.workforce {
      WorkforceCounts(periods, p);
      assert p in multiset(periods);
    }
  }

  lemma DetailExactly(periods: seq<Period>, i: nat)
    requires i < |periods|
    ensures HasDetail(Workforce(periods), LineOf(periods[i])) <==> exists j: nat :: Details(periods, i, j)
  {
    WorkforceMembers(periods);
    var rows := Workforce(periods);
    if p :| p in rows && LineOf(p) == LineOf(periods[i]) && p.kind != Base {
      var j: nat :| j < |periods| && periods[j] == p && p.workforce;
      assert Details(periods, i, j);
    }
    if j: nat :| Details(periods, i, j) { assert periods[j] in rows && LineOf(periods[j]) == LineOf(periods[i]); }
  }

  lemma ResolvedExactly(periods: seq<Period>, i: nat)
    requires i < |periods|
    ensures Resolved(Workforce(periods), SlotOf(periods[i])) <==> exists j: nat :: Preferred(periods, i, j)
  {
    WorkforceMembers(periods);
    var rows := Workforce(periods);
    if p :| p in rows && p.kind == Alternative && SlotOf(p) == SlotOf(periods[i]) && p.selected {
      var j: nat :| j < |periods| && periods[j] == p && p.workforce;
      SameSlotExactly(periods[i], p);
      assert Preferred(periods, i, j);
    }
    if j: nat :| Preferred(periods, i, j) {
      SameSlotExactly(periods[i], periods[j]);
      assert periods[j] in rows;
    }
  }

  /** What may count in one form is what counts in the other. */
  lemma CountsExactly(periods: seq<Period>, i: nat)
    requires i < |periods| && periods[i].workforce
    ensures var rows, p := Workforce(periods), periods[i];
            && p in rows
            && (p.kind != Alternative ==> (MayCount(periods, i) <==> Fixed(rows, p)))
            && (p.kind == Alternative ==> (MayCount(periods, i) <==> Candidate(rows, SlotOf(p), p)))
  {
    WorkforceMembers(periods);
    DetailExactly(periods, i);
    ResolvedExactly(periods, i);
  }

  lemma FlagsExactly(periods: seq<Period>)
    ensures Missing(Workforce(periods)) <==> exists i: nat :: LacksHours(periods, i)
    ensures Unresolved(Workforce(periods)) <==> exists i: nat :: Undecided(periods, i)
  {
    var rows := Workforce(periods);
    WorkforceMembers(periods);
    if p :| p in rows && p.hours.None? && (Fixed(rows, p) || Candidate(rows, SlotOf(p), p)) {
      var i: nat :| i < |periods| && periods[i] == p && p.workforce;
      CountsExactly(periods, i);
      assert LacksHours(periods, i);
    }
    if i: nat :| LacksHours(periods, i) { CountsExactly(periods, i); }
    if s :| s in Slots(rows) && !Resolved(rows, s) {
      var p :| p in rows && p.kind == Alternative && SlotOf(p) == s;
      var i: nat :| i < |periods| && periods[i] == p && p.workforce;
      ResolvedExactly(periods, i);
      assert Undecided(periods, i);
    }
    if i: nat :| Undecided(periods, i) {
      ResolvedExactly(periods, i);
      assert SlotOf(periods[i]) in Slots(rows);
    }
  }

  /** A plan and a choice that pick the same options. */
  ghost predicate SamePicks(periods: seq<Period>, picked: seq<bool>, plan: Plan) {
    && IsChoice(periods, picked) && IsPlan(Workforce(periods), plan)
    && forall i: nat :: IsOption(periods, i) && picked[i] ==>
         SlotOf(periods[i]) in plan && plan[SlotOf(periods[i])] == periods[i]
  }

  ghost function SlotsPicked(periods: seq<Period>, picked: seq<bool>, n: nat): set<Slot>
    requires n <= |periods| == |picked|
  {
    set i: nat | i < n && IsOption(periods, i) && picked[i] :: SlotOf(periods[i])
  }

  lemma NextSlot(periods: seq<Period>, picked: seq<bool>, n: nat)
    requires IsChoice(periods, picked) && n < |periods|
    ensures var s := SlotOf(periods[n]);
            if IsOption(periods, n) && picked[n]
            then && SlotsPicked(periods, picked, n + 1) == SlotsPicked(periods, picked, n) + {s}
                 && s !in SlotsPicked(periods, picked, n)
            else SlotsPicked(periods, picked, n + 1) == SlotsPicked(periods, picked, n)
  {
    if IsOption(periods, n) && picked[n] {
      forall i: nat | i < n && IsOption(periods, i) && picked[i] ensures SlotOf(periods[i]) != SlotOf(periods[n]) {
        SameSlotExactly(periods[n], periods[i]);
        assert !Stands(periods, picked, n, i);
      }
    }
  }

  lemma WorkforceNext(periods: seq<Period>, n: nat)
    requires n < |periods|
    ensures Workforce(periods[..n + 1]) == Workforce(periods[..n]) + if periods[n].workforce then [periods[n]] else []
  {
    assert periods[..n + 1][..n] == periods[..n];
  }

  lemma OneMoreShare(rows: seq<Period>, some: seq<Period>, p: Period)
    ensures FixedHours(rows, multiset(some + [p])) == FixedHours(rows, multiset(some)) + FixedShare(rows, p)
  {
    Snoc(some, p);
    FixedSplit(rows, multiset(some + [p]), p);
    assert multiset(some + [p]) - multiset{p} == multiset(some);
  }

  /** What the first n periods ask for, whatever the choice. */
  ghost function FixedUpTo(rows: seq<Period>, periods: seq<Period>, n: nat): int
    requires n <= |periods|
  {
    if n == 0 then 0
    else FixedUpTo(rows, periods, n - 1) + if periods[n - 1].workforce then FixedShare(rows, periods[n - 1]) else 0
  }

  lemma {:induction false} FixedIsUpTo(rows: seq<Period>, periods: seq<Period>, n: nat, some: seq<Period>)
    requires n <= |periods| && some == Workforce(periods[..n])
    ensures FixedUpTo(rows, periods, n) == FixedHours(rows, multiset(some))
  {
    if n > 0 {
      var before := Workforce(periods[..n - 1]);
      FixedIsUpTo(rows, periods, n - 1, before);
      WorkforceNext(periods, n - 1);
      assert some == if periods[n - 1].workforce then before + [periods[n - 1]] else before;
      if periods[n - 1].workforce { OneMoreShare(rows, before, periods[n - 1]); }
    } else {
      assert multiset(some) == multiset{};
    }
  }

  /** What the next period adds to a choice. */
  ghost function NextPicked(periods: seq<Period>, picked: seq<bool>, n: nat): int
    requires n < |periods| == |picked|
  {
    if picked[n] then HoursOf(periods[n]) else 0
  }

  /** What its options add. */
  ghost function ChosenUpTo(periods: seq<Period>, picked: seq<bool>, n: nat): int
    requires n <= |periods| == |picked|
  {
    if n == 0 then 0
    else
      ChosenUpTo(periods, picked, n - 1) +
      if IsOption(periods, n - 1) && picked[n - 1] then HoursOf(periods[n - 1]) else 0
  }

  lemma NextIsFixedOrChosen(periods: seq<Period>, picked: seq<bool>, n: nat)
    requires IsChoice(periods, picked) && n < |periods|
    ensures NextPicked(periods, picked, n) ==
            (if periods[n].workforce then FixedShare(Workforce(periods), periods[n]) else 0) +
            (if IsOption(periods, n) && picked[n] then HoursOf(periods[n]) else 0)
  {
    if periods[n].workforce { CountsExactly(periods, n); }
  }

  lemma NextChosen(periods: seq<Period>, picked: seq<bool>, plan: Plan, n: nat, slots: set<Slot>, more: set<Slot>)
    requires SamePicks(periods, picked, plan) && n < |periods| && slots == SlotsPicked(periods, picked, n) <= plan.Keys
    requires more == SlotsPicked(periods, picked, n + 1)
    ensures more <= plan.Keys
    ensures ChosenHours(plan, more) ==
            ChosenHours(plan, slots) + if IsOption(periods, n) && picked[n] then HoursOf(periods[n]) else 0
  {
    NextSlot(periods, picked, n);
    if IsOption(periods, n) && picked[n] {
      var s := SlotOf(periods[n]);
      ChosenSplit(plan, more, s);
      assert more - {s} == slots;
    }
  }

  lemma {:induction false} ChosenIsUpTo(periods: seq<Period>, picked: seq<bool>, plan: Plan, n: nat, slots: set<Slot>)
    requires SamePicks(periods, picked, plan) && n <= |periods| && slots == SlotsPicked(periods, picked, n)
    ensures slots <= plan.Keys && ChosenUpTo(periods, picked, n) == ChosenHours(plan, slots)
  {
    if n > 0 {
      var before := SlotsPicked(periods, picked, n - 1);
      ChosenIsUpTo(periods, picked, plan, n - 1, before);
      NextChosen(periods, picked, plan, n - 1, before, slots);
    } else {
      assert slots == {};
    }
  }

  lemma {:induction false} PickedHours(periods: seq<Period>, picked: seq<bool>, n: nat)
    requires IsChoice(periods, picked) && n <= |periods|
    ensures HoursPicked(periods, picked, n) ==
            FixedUpTo(Workforce(periods), periods, n) + ChosenUpTo(periods, picked, n)
  {
    if n > 0 {
      PickedHours(periods, picked, n - 1);
      NextIsFixedOrChosen(periods, picked, n - 1);
    }
  }

  lemma AllSlotsPicked(periods: seq<Period>, picked: seq<bool>, plan: Plan)
    requires SamePicks(periods, picked, plan)
    ensures SlotsPicked(periods, picked, |periods|) == plan.Keys
  {
    forall s | s in plan ensures s in SlotsPicked(periods, picked, |periods|) {
      EverySlotStands(periods, picked, s);
      var i: nat :| StandsFor(periods, picked, s, i);
    }
  }

  lemma SameHours(periods: seq<Period>, picked: seq<bool>, plan: Plan)
    requires SamePicks(periods, picked, plan)
    ensures HoursPicked(periods, picked, |periods|) == PlanHours(Workforce(periods), plan)
  {
    PickedHours(periods, picked, |periods|);
    ChosenIsUpTo(periods, picked, plan, |periods|, SlotsPicked(periods, picked, |periods|));
    assert periods[..|periods|] == periods;
    FixedIsUpTo(Workforce(periods), periods, |periods|, Workforce(periods));
    AllSlotsPicked(periods, picked, plan);
  }

  // Every choice is a plan, and every plan a choice.

  ghost predicate StandsFor(periods: seq<Period>, picked: seq<bool>, s: Slot, i: nat) {
    |picked| == |periods| && IsOption(periods, i) && picked[i] && SlotOf(periods[i]) == s
  }

  ghost function Standing(periods: seq<Period>, picked: seq<bool>, s: Slot): (i: nat)
    requires exists i: nat :: StandsFor(periods, picked, s, i)
    ensures StandsFor(periods, picked, s, i)
  {
    var i: nat :| StandsFor(periods, picked, s, i);
    i
  }

  lemma EverySlotStands(periods: seq<Period>, picked: seq<bool>, s: Slot)
    requires IsChoice(periods, picked) && s in Slots(Workforce(periods))
    ensures exists i: nat :: StandsFor(periods, picked, s, i)
  {
    WorkforceMembers(periods);
    var p :| p in Workforce(periods) && p.kind == Alternative && SlotOf(p) == s;
    var i: nat :| i < |periods| && periods[i] == p && p.workforce;
    assert IsOption(periods, i);
    var j: nat :| Stands(periods, picked, i, j);
    SameSlotExactly(p, periods[j]);
    assert StandsFor(periods, picked, s, j);
  }

  ghost function Pick(periods: seq<Period>, picked: seq<bool>, s: Slot): Period
    requires IsChoice(periods, picked) && s in Slots(Workforce(periods))
  {
    EverySlotStands(periods, picked, s);
    periods[Standing(periods, picked, s)]
  }

  lemma PlanOfChoice(periods: seq<Period>, picked: seq<bool>) returns (plan: Plan)
    requires IsChoice(periods, picked)
    ensures SamePicks(periods, picked, plan)
  {
    var rows := Workforce(periods);
    plan := map s | s in Slots(rows) :: Pick(periods, picked, s);
    forall s | s in plan ensures Candidate(rows, s, plan[s]) {
      EverySlotStands(periods, picked, s);
      CountsExactly(periods, Standing(periods, picked, s));
    }
    forall i: nat | IsOption(periods, i) && picked[i]
      ensures SlotOf(periods[i]) in plan && plan[SlotOf(periods[i])] == periods[i]
    {
      CountsExactly(periods, i);
      EverySlotStands(periods, picked, SlotOf(periods[i]));
      var j := Standing(periods, picked, SlotOf(periods[i]));
      SameSlotExactly(periods[i], periods[j]);
      assert Stands(periods, picked, i, j);
    }
  }

  /** The first option that a plan takes. */
  ghost predicate Taken(periods: seq<Period>, plan: Plan, i: nat) {
    && IsOption(periods, i) && SlotOf(periods[i]) in plan && plan[SlotOf(periods[i])] == periods[i]
    && forall j: nat :: j < i ==> periods[j] != periods[i]
  }

  lemma {:induction false} FirstOf(periods: seq<Period>, i: nat) returns (first: nat)
    requires i < |periods|
    ensures first <= i && periods[first] == periods[i] && forall j: nat :: j < first ==> periods[j] != periods[first]
  {
    first := i;
    if j: nat :| j < i && periods[j] == periods[i] { first := FirstOf(periods, j); }
  }

  ghost function Picks(periods: seq<Period>, plan: Plan): (picked: seq<bool>)
    ensures |picked| == |periods|
  {
    seq(|periods|, i requires 0 <= i < |periods| =>
        (periods[i].kind != Alternative && MayCount(periods, i)) || Taken(periods, plan, i))
  }

  lemma SlotIsTaken(periods: seq<Period>, plan: Plan, i: nat)
    requires IsPlan(Workforce(periods), plan) && IsOption(periods, i)
    ensures exists j: nat :: Stands(periods, Picks(periods, plan), i, j)
  {
    WorkforceMembers(periods);
    var s := SlotOf(periods[i]);
    assert s in Slots(Workforce(periods)) by { assert periods[i] in Workforce(periods); }
    var k: nat :| k < |periods| && periods[k] == plan[s] && plan[s].workforce;
    var j := FirstOf(periods, k);
    SameSlotExactly(periods[i], periods[j]);
    assert Taken(periods, plan, j);
    assert Stands(periods, Picks(periods, plan), i, j);
  }

  lemma ChoiceOfPlan(periods: seq<Period>, plan: Plan)
    requires IsPlan(Workforce(periods), plan)
    ensures SamePicks(periods, Picks(periods, plan), plan)
  {
    var picked := Picks(periods, plan);
    forall i: nat | i < |periods| && picked[i] ensures MayCount(periods, i) {
      if Taken(periods, plan, i) { CountsExactly(periods, i); }
    }
    forall i: nat | IsOption(periods, i) ensures exists j: nat :: Stands(periods, picked, i, j) {
      SlotIsTaken(periods, plan, i);
    }
    forall i: nat, j: nat | IsOption(periods, i) && picked[i] && Stands(periods, picked, i, j) ensures i == j {
      SameSlotExactly(periods[i], periods[j]);
      assert Taken(periods, plan, i) && Taken(periods, plan, j);
    }
  }

  /** The dearest plan is the dearest choice. */
  lemma AsksExactly(periods: seq<Period>, hours: int)
    ensures Requested(periods, hours) <==> AsksAtMost(periods, hours)
  {
    var rows := Workforce(periods);
    if Requested(periods, hours) {
      var plan: Plan :| Dearest(rows, plan) && PlanHours(rows, plan) == hours;
      ChoiceOfPlan(periods, plan);
      SameHours(periods, Picks(periods, plan), plan);
      assert Asks(periods, Picks(periods, plan), hours);
      forall picked: seq<bool> | IsChoice(periods, picked) ensures HoursPicked(periods, picked, |periods|) <= hours {
        var other := PlanOfChoice(periods, picked);
        SameHours(periods, picked, other);
      }
    }
    if AsksAtMost(periods, hours) {
      var picked: seq<bool> :| Asks(periods, picked, hours);
      var plan := PlanOfChoice(periods, picked);
      SameHours(periods, picked, plan);
      forall other: Plan | IsPlan(rows, other) ensures PlanHours(rows, other) <= hours {
        ChoiceOfPlan(periods, other);
        SameHours(periods, Picks(periods, other), other);
      }
      assert Dearest(rows, plan);
    }
  }

  // ---------------------------------------------------------------- the result

  /** requested_workforce_hours: unavailable exactly when some hours that a plan could count are missing, and
      otherwise the hours of a dearest plan. */
  method RequestedWorkforceHours(periods: seq<Period>) returns (total: Option<int>, diagnostics: seq<Diagnostic>)
    ensures total.None? <==> Missing(Workforce(periods))
    ensures total.Some? ==> Requested(periods, total.value)
    ensures Diagnoses(diagnostics, Missing(Workforce(periods)), Unresolved(Workforce(periods)))
    ensures total.None? <==> exists i: nat :: LacksHours(periods, i)
    ensures total.Some? ==> AsksAtMost(periods, total.value)
    ensures Diagnoses(diagnostics, exists i: nat :: LacksHours(periods, i), exists i: nat :: Undecided(periods, i))
  {
    FlagsExactly(periods);
    var rows := Workforce(periods);
    var g := GroupByLine(rows);
    var sum, missing, unresolved := 0, false, false;
    ghost var plan: Plan := map[];
    diagnostics := [];
    NothingEvaluates();
    for j := 0 to |g.keys|
      invariant Evaluates(Flat(g, j), plan, sum, missing, unresolved)
      invariant Diagnoses(diagnostics, missing, unresolved)
    {
      var m, u := missing, unresolved;
      sum, missing, unresolved, plan := AddLine(g, j, sum, missing, unresolved, plan);
      if missing && !m { diagnostics := diagnostics + [HoursUnavailable]; }
      if unresolved && !u { diagnostics := diagnostics + [AlternativeUnresolved]; }
    }
    Rearrange(Flat(g, |g.keys|), rows, plan, sum, missing, unresolved);
    if missing { return None, diagnostics; }
    DearestInEverySlot(rows, plan);
    total := Some(sum);
    AsksExactly(periods, sum);
  }
}
