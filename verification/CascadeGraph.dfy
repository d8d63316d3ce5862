/** The ON DELETE CASCADE check (tools/check_sqlserver_readiness.py).

    SQL Server refuses a schema whose cascading foreign keys form a cycle or let one table reach
    another along two paths. The check walks the multigraph of cascading keys from every parent
    table with an explicit stack. The main result: it accepts exactly the graphs without a cycle
    and with at most one path between any two tables, parallel keys counted apart. */
module CascadeGraph {

  import opened Options

  /** A foreign key of `table`; `parents` are the tables of its referenced columns. */
  datatype ForeignKey = ForeignKey(table: string, cascades: bool, parents: set<string>)

  /** Children by parent, one entry per cascading key (parallel keys stay apart). */
  type Graph = map<string, seq<string>>

  datatype Finding = Clear | Cycle(path: seq<string>) | MultiplePaths(source: string, target: string)

  datatype Outcome = Accepted(edges: nat) | AmbiguousKey(table: string) | Rejected(finding: Finding)

  function Children(g: Graph, node: string): seq<string> {
    if node in g then g[node] else []
  }

  // ---------------------------------------------------------------- walks

  /** A walk is given by the positions of its edges: each step picks an entry of the child list of the
      table reached so far, so parallel edges make different walks. */
  datatype Walk = Here | Step(before: Walk, edge: nat)

  ghost predicate IsWalk(g: Graph, u: string, w: Walk)
    decreases w, 0
  {
    match w
    case Here => true
    case Step(before, edge) => IsWalk(g, u, before) && edge < |Children(g, End(g, u, before))|
  }

  ghost function End(g: Graph, u: string, w: Walk): string
    requires IsWalk(g, u, w)
    decreases w, 1
  {
    match w
    case Here => u
    case Step(before, edge) => Children(g, End(g, u, before))[edge]
  }

  /** The tables visited by a walk, both ends included. */
  ghost function Tables(g: Graph, u: string, w: Walk): seq<string>
    requires IsWalk(g, u, w)
  {
    match w
    case Here => [u]
    case Step(before, _) => Tables(g, u, before) + [End(g, u, w)]
  }

  ghost predicate Acyclic(g: Graph) {
    forall u, w :: IsWalk(g, u, w) && w.Step? ==> End(g, u, w) != u
  }

  ghost predicate SinglePaths(g: Graph) {
    forall u, v, w :: IsWalk(g, u, v) && IsWalk(g, u, w) && v.Step? && w.Step? && End(g, u, v) == End(g, u, w) ==>
        v == w
  }

  ghost predicate UniqueWalksFrom(g: Graph, u: string) {
    forall v, w :: IsWalk(g, u, v) && IsWalk(g, u, w) && End(g, u, v) == End(g, u, w) ==> v == w
  }

  ghost function Join(v: Walk, w: Walk): Walk {
    match w
    case Here => v
    case Step(before, edge) => Step(Join(v, before), edge)
  }

  lemma {:induction false} WalksCompose(g: Graph, u: string, v: Walk, w: Walk)
    requires IsWalk(g, u, v)
    ensures IsWalk(g, u, Join(v, w)) <==> IsWalk(g, End(g, u, v), w)
    ensures IsWalk(g, u, Join(v, w)) ==> End(g, u, Join(v, w)) == End(g, End(g, u, v), w)
  {
    if w.Step? { WalksCompose(g, u, v, w.before); }
  }

  /** A table visited by a walk splits the walk in two. */
  lemma {:induction false} SplitAt(g: Graph, u: string, w: Walk, t: string) returns (v: Walk, rest: Walk)
    requires IsWalk(g, u, w) && t in Tables(g, u, w)
    ensures w == Join(v, rest) && IsWalk(g, u, v) && End(g, u, v) == t
  {
    if End(g, u, w) == t {
      v, rest := w, Here;
    } else {
      v, rest := SplitAt(g, u, w.before, t);
      rest := Step(rest, w.edge);
    }
  }

  /** No cycle and single paths together say that no two distinct walks, even empty ones, share both ends. */
  lemma UniqueWalksMeanNoCycleAndSinglePaths(g: Graph)
    ensures (forall u :: UniqueWalksFrom(g, u)) <==> Acyclic(g) && SinglePaths(g)
  {
    if forall u :: UniqueWalksFrom(g, u) {
      forall u, w | IsWalk(g, u, w) && w.Step? ensures End(g, u, w) != u {
        assert UniqueWalksFrom(g, u);
        assert IsWalk(g, u, Here) && End(g, u, Here) == u;
      }
      forall u, v, w | IsWalk(g, u, v) && IsWalk(g, u, w) && v.Step? && w.Step? && End(g, u, v) == End(g, u, w)
          ensures v == w {
        assert UniqueWalksFrom(g, u);
      }
    }
  }

  // ---------------------------------------------------------------- building the graph

  ghost predicate Ambiguous(k: ForeignKey) {
    k.cascades && |k.parents| != 1
  }

  /** The children of a parent among the cascading keys, in the order of the keys. */
  ghost function KeyedChildren(keys: seq<ForeignKey>, parent: string): seq<string> {
    if keys == [] then []
    else
      var k := keys[|keys| - 1];
      KeyedChildren(keys[..|keys| - 1], parent) + (if k.cascades && k.parents == {parent} then [k.table] else [])
  }

  ghost function CascadingKeys(keys: seq<ForeignKey>): nat {
    if keys == [] then 0 else CascadingKeys(keys[..|keys| - 1]) + (if keys[|keys| - 1].cascades then 1 else 0)
  }

  ghost function AddKey(g: Graph, k: ForeignKey): Graph {
    if k.cascades && |k.parents| == 1 then
      var parent :| parent in k.parents;
      g[parent := Children(g, parent) + [k.table]]
    else g
  }

  /** graph.setdefault(parent, []).append(table), key by key. */
  ghost function GraphOf(keys: seq<ForeignKey>): Graph {
    if keys == [] then map[] else AddKey(GraphOf(keys[..|keys| - 1]), keys[|keys| - 1])
  }

  lemma OnlyParent(k: ForeignKey, parent: string)
    requires |k.parents| == 1 && parent in k.parents
    ensures k.parents == {parent}
  {
    assert |k.parents - {parent}| == 0;
  }

  /** The graph lists, under each table, the tables of the cascading keys that reference it. */
  lemma {:induction false} GraphHoldsTheKeys(keys: seq<ForeignKey>, p: string)
    requires forall j :: 0 <= j < |keys| ==> !Ambiguous(keys[j])
    ensures Children(GraphOf(keys), p) == KeyedChildren(keys, p)
    ensures p in GraphOf(keys) ==> GraphOf(keys)[p] != []
  {
    if keys != [] {
      var prefix, k := keys[..|keys| - 1], keys[|keys| - 1];
      GraphHoldsTheKeys(prefix, p);
      assert !Ambiguous(k);
      if k.cascades {
        var parent :| parent in k.parents &&
            GraphOf(keys) == GraphOf(prefix)[parent := Children(GraphOf(prefix), parent) + [k.table]];
        OnlyParent(k, parent);
        assert p != parent ==> k.parents != {p};
      }
    }
  }

  ghost predicate FirstAmbiguous(keys: seq<ForeignKey>, i: nat) {
    i < |keys| && Ambiguous(keys[i]) && forall j :: 0 <= j < i ==> !Ambiguous(keys[j])
  }

  /** The graph of the cascading keys, or the table of the first key whose referenced tables are not one. */
  method BuildGraph(keys: seq<ForeignKey>) returns (g: Graph, edges: nat, ambiguous: Option<string>)
    ensures ambiguous.None? ==>
            (forall j :: 0 <= j < |keys| ==> !Ambiguous(keys[j])) && edges == CascadingKeys(keys) && g == GraphOf(keys)
    ensures ambiguous.Some? ==> exists i: nat :: FirstAmbiguous(keys, i) && keys[i].table == ambiguous.value
  {
    g, edges := map[], 0;
    for i := 0 to |keys|
      invariant forall j :: 0 <= j < i ==> !Ambiguous(keys[j])
      invariant edges == CascadingKeys(keys[..i]) && g == GraphOf(keys[..i])
    {
      assert keys[..i + 1][..i] == keys[..i];
      var key := keys[i];
      if key.cascades {
        if |key.parents| != 1 {
          assert FirstAmbiguous(keys, i);
          return g, edges, Some(key.table);
        }
        var parent :| parent in key.parents;
        OnlyParent(key, parent);
        g := g[parent := Children(g, parent) + [key.table]];
        edges := edges + 1;
      }
    }
    assert keys[..|keys|] == keys;
    ambiguous := None;
  }

  // ---------------------------------------------------------------- the search

  type Entry = (string, seq<string>)

  /** One walk is known to each table found so far; the tables counted are the others than the source. */
  ghost predicate Known(g: Graph, u: string, found: map<string, Walk>) {
    && u in found && found[u] == Here
    && (forall t {:trigger found[t]} :: t in found ==> IsWalk(g, u, found[t]) && End(g, u, found[t]) == t)
    && (forall t {:trigger found[t]} :: t in found && found[t].Step? ==> End(g, u, found[t].before) in found)
  }

  ghost predicate Discovered(g: Graph, u: string, found: map<string, Walk>, counts: map<string, nat>) {
    && Known(g, u, found)
    && counts.Keys == found.Keys - {u}
    && (forall t :: t in counts ==> counts[t] == 1 && t in TablesOf(g))
  }

  /** The stack lists tables found but not expanded, each once, with the path that led to it. */
  ghost predicate Stacked(g: Graph, u: string, found: map<string, Walk>, stack: seq<Entry>) {
    && (forall k :: 0 <= k < |stack| ==>
         stack[k].0 in found && IsWalk(g, u, found[stack[k].0]) && stack[k].1 == Tables(g, u, found[stack[k].0]))
    && (forall k, l :: 0 <= k < l < |stack| ==> stack[k].0 != stack[l].0)
    && (forall k :: 0 <= k < |stack| ==> NothingFollows(found, found[stack[k].0]))
  }

  ghost predicate NothingFollows(found: map<string, Walk>, w: Walk) {
    forall t {:trigger found[t]} :: t in found && found[t].Step? ==> found[t].before != w
  }

  ghost predicate OnStack(stack: seq<Entry>, t: string) {
    exists k :: 0 <= k < |stack| && stack[k].0 == t
  }

  /** The first n edges out of a table have been followed. */
  ghost predicate Expanded(g: Graph, found: map<string, Walk>, p: string, n: nat)
    requires p in found && n <= |Children(g, p)|
  {
    forall i: nat :: i < n ==> Children(g, p)[i] in found && found[Children(g, p)[i]] == Step(found[p], i)
  }

  function TablesOf(g: Graph): set<string> {
    set p, i | p in g && 0 <= i < |g[p]| :: g[p][i]
  }

  /** When every table found is expanded, every walk is the known walk to its end. */
  lemma {:induction false} AllWalksFound(g: Graph, u: string, found: map<string, Walk>, counts: map<string, nat>,
      w: Walk)
    requires Discovered(g, u, found, counts) && IsWalk(g, u, w)
    requires forall t {:trigger Expanded(g, found, t, |Children(g, t)|)} :: t in found ==>
             Expanded(g, found, t, |Children(g, t)|)
    ensures End(g, u, w) in found && found[End(g, u, w)] == w
  {
    if w.Step? {
      AllWalksFound(g, u, found, counts, w.before);
      assert Expanded(g, found, End(g, u, w.before), |Children(g, End(g, u, w.before))|);
    }
  }

  lemma {:induction false} SourceIsVisited(g: Graph, u: string, w: Walk)
    requires IsWalk(g, u, w)
    ensures u in Tables(g, u, w)
  {
    if w.Step? { SourceIsVisited(g, u, w.before); }
  }

  lemma ExtendKnown(g: Graph, u: string, found: map<string, Walk>, p: string, i: nat)
    requires Known(g, u, found) && p in found && i < |Children(g, p)| && Children(g, p)[i] !in found
    ensures Known(g, u, found[Children(g, p)[i] := Step(found[p], i)])
  {
    var t, x := Children(g, p)[i], Step(found[p], i);
    assert IsWalk(g, u, x) && End(g, u, x) == t;
    var found' := found[t := x];
    forall s {:trigger found'[s]} | s in found' && found'[s].Step? ensures End(g, u, found'[s].before) in found' {
      if s == t { assert End(g, u, found[p]) == p; } else { assert found'[s] == found[s]; }
    }
  }

  /** Following edge i out of p, to a table that is neither on the path nor counted, finds a new table. */
  lemma FollowEdge(g: Graph, u: string, found: map<string, Walk>, counts: map<string, nat>, p: string, i: nat)
    requires Discovered(g, u, found, counts)
    requires p in found && IsWalk(g, u, found[p]) && i < |Children(g, p)|
    requires Children(g, p)[i] !in Tables(g, u, found[p]) && Children(g, p)[i] !in counts
    ensures Children(g, p)[i] !in found
    ensures Discovered(g, u, found[Children(g, p)[i] := Step(found[p], i)], counts[Children(g, p)[i] := 1])
  {
    SourceIsVisited(g, u, found[p]);
    assert p in g && Children(g, p)[i] in TablesOf(g);
    ExtendKnown(g, u, found, p, i);
  }

  lemma PushEntry(g: Graph, u: string, found: map<string, Walk>, stack: seq<Entry>, p: string, i: nat)
    requires Stacked(g, u, found, stack)
    requires p in found && IsWalk(g, u, found[p]) && End(g, u, found[p]) == p && !OnStack(stack, p)
    requires i < |Children(g, p)| && Children(g, p)[i] !in found
    requires Known(g, u, found)
    ensures var t := Children(g, p)[i];
            Stacked(g, u, found[t := Step(found[p], i)], stack + [(t, Tables(g, u, found[p]) + [t])])
  {
    var t, x := Children(g, p)[i], Step(found[p], i);
    var found', stack' := found[t := x], stack + [(t, Tables(g, u, found[p]) + [t])];
    assert IsWalk(g, u, x) && End(g, u, x) == t && Tables(g, u, x) == Tables(g, u, found[p]) + [t];
    forall s {:trigger found[s]} | s in found && found[s].Step? ensures found[s].before != x {
      assert End(g, u, found[s].before) in found;
    }
    assert NothingFollows(found', x);
    forall k | 0 <= k < |stack| ensures NothingFollows(found', found'[stack'[k].0]) {
      assert stack'[k] == stack[k] && NothingFollows(found, found[stack[k].0]);
      assert stack[k].0 != p && End(g, u, found[stack[k].0]) == stack[k].0;
    }
  }

  /** A finding is backed by the graph: a path of the graph that ends on a table it has visited, or two
      distinct walks with the same ends. */
  ghost predicate IsCyclicPath(g: Graph, path: seq<string>, u: string, w: Walk) {
    IsWalk(g, u, w) && w.Step? && path == Tables(g, u, w) && End(g, u, w) in Tables(g, u, w.before)
  }

  ghost predicate AreTwoPaths(g: Graph, u: string, t: string, v: Walk, w: Walk) {
    && v != w && v.Step? && w.Step?
    && IsWalk(g, u, v) && IsWalk(g, u, w) && End(g, u, v) == t == End(g, u, w)
  }

  ghost predicate IsWitness(g: Graph, finding: Finding) {
    match finding
    case Clear => false
    case Cycle(path) => exists u, w :: IsCyclicPath(g, path, u, w)
    case MultiplePaths(source, target) => exists v, w :: AreTwoPaths(g, source, target, v, w)
  }

  /** Every finding refutes that the graph has no cycle and single paths. */
  lemma WitnessRefutes(g: Graph, finding: Finding)
    requires IsWitness(g, finding)
    ensures !(Acyclic(g) && SinglePaths(g))
  {
    if finding.Cycle? {
      var u, w :| IsCyclicPath(g, finding.path, u, w);
      var v, rest := SplitAt(g, u, w.before, End(g, u, w));
      WalksCompose(g, u, v, Step(rest, w.edge));
      assert w == Join(v, Step(rest, w.edge));
    } else {
      var v, w :| AreTwoPaths(g, finding.source, finding.target, v, w);
    }
  }

  /** The table popped from the stack is no longer on it, and none of its edges has been followed. */
  lemma PopEntry(g: Graph, u: string, found: map<string, Walk>, stack: seq<Entry>)
    requires stack != [] && Stacked(g, u, found, stack)
    ensures var rest, p := stack[..|stack| - 1], stack[|stack| - 1].0;
            && Stacked(g, u, found, rest) && !OnStack(rest, p) && p in found
            && NothingFollows(found, found[p])
            && (forall t :: OnStack(stack, t) ==> OnStack(rest, t) || t == p)
  {
    var rest, p := stack[..|stack| - 1], stack[|stack| - 1].0;
    forall t | OnStack(stack, t) && t != p ensures OnStack(rest, t) {
      var k :| 0 <= k < |stack| && stack[k].0 == t;
      assert rest[k].0 == t;
    }
  }

  lemma StayExpanded(g: Graph, found: map<string, Walk>, p: string, n: nat, t: string, x: Walk)
    requires p in found && n <= |Children(g, p)| && Expanded(g, found, p, n) && t !in found
    ensures Expanded(g, found[t := x], p, n)
  {
  }

  lemma ExpandOneMore(g: Graph, found: map<string, Walk>, p: string, i: nat)
    requires p in found && i < |Children(g, p)| && Expanded(g, found, p, i) && Children(g, p)[i] !in found
    ensures Expanded(g, found[Children(g, p)[i] := Step(found[p], i)], p, i + 1)
  {
  }

  lemma StackGrows(stack: seq<Entry>, e: Entry, t: string)
    ensures OnStack(stack + [e], t) <==> OnStack(stack, t) || t == e.0
  {
    var stack' := stack + [e];
    assert stack'[|stack|] == e;
    assert forall k :: 0 <= k < |stack| ==> stack'[k] == stack[k];
  }

  lemma OthersStayExpanded(g: Graph, found: map<string, Walk>, stack: seq<Entry>, node: string, e: Entry, x: Walk)
    requires e.0 !in found
    requires forall t {:trigger OnStack(stack, t)} :: t in found && !OnStack(stack, t) && t != node ==>
             Expanded(g, found, t, |Children(g, t)|)
    ensures forall t {:trigger OnStack(stack + [e], t)} ::
            t in found[e.0 := x] && !OnStack(stack + [e], t) && t != node ==>
                Expanded(g, found[e.0 := x], t, |Children(g, t)|)
  {
    forall t | t in found[e.0 := x] && !OnStack(stack + [e], t) && t != node
        ensures Expanded(g, found[e.0 := x], t, |Children(g, t)|) {
      StackGrows(stack, e, t);
      StayExpanded(g, found, t, |Children(g, t)|, e.0, x);
    }
  }

  lemma ClosesCycle(g: Graph, u: string, w: Walk, i: nat)
    requires IsWalk(g, u, w) && i < |Children(g, End(g, u, w))| && Children(g, End(g, u, w))[i] in Tables(g, u, w)
    ensures IsWitness(g, Cycle(Tables(g, u, w) + [Children(g, End(g, u, w))[i]]))
  {
    assert IsCyclicPath(g, Tables(g, u, w) + [Children(g, End(g, u, w))[i]], u, Step(w, i));
  }

  lemma ReachedTwice(g: Graph, u: string, v: Walk, w: Walk, i: nat)
    requires IsWalk(g, u, v) && v.Step? && IsWalk(g, u, w) && i < |Children(g, End(g, u, w))|
    requires v != Step(w, i) && End(g, u, v) == Children(g, End(g, u, w))[i]
    ensures IsWitness(g, MultiplePaths(u, Children(g, End(g, u, w))[i]))
  {
    assert AreTwoPaths(g, u, Children(g, End(g, u, w))[i], v, Step(w, i));
  }

  /** The state inside the loop over the edges of one table, the first i of them followed. */
  ghost predicate Following(g: Graph, u: string, found: map<string, Walk>, counts: map<string, nat>, stack: seq<Entry>,
      node: string, i: nat)
    requires i <= |Children(g, node)|
  {
    && Discovered(g, u, found, counts) && Stacked(g, u, found, stack)
    && node in found && !OnStack(stack, node) && Expanded(g, found, node, i)
    && (forall t {:trigger found[t]} :: t in found && found[t].Step? && found[t].before == found[node] ==>
         found[t].edge < i)
    && (forall t {:trigger OnStack(stack, t)} :: t in found && !OnStack(stack, t) && t != node ==>
         Expanded(g, found, t, |Children(g, t)|))
  }

  lemma FollowOneMore(g: Graph, u: string, found: map<string, Walk>, counts: map<string, nat>, stack: seq<Entry>,
      node: string, i: nat)
    requires i < |Children(g, node)| && Following(g, u, found, counts, stack, node, i)
    requires IsWalk(g, u, found[node])
    requires Children(g, node)[i] !in Tables(g, u, found[node]) && Children(g, node)[i] !in counts
    ensures var t := Children(g, node)[i];
            Following(g, u, found[t := Step(found[node], i)], counts[t := 1], stack +
                [(t, Tables(g, u, found[node]) + [t])], node, i + 1)
  {
    var t := Children(g, node)[i];
    var e := (t, Tables(g, u, found[node]) + [t]);
    FollowEdge(g, u, found, counts, node, i);
    PushEntry(g, u, found, stack, node, i);
    ExpandOneMore(g, found, node, i);
    StackGrows(stack, e, node);
    OthersStayExpanded(g, found, stack, node, e, Step(found[node], i));
  }

  /** The inner loop: follow every edge out of one table. */
  method FollowEdges(g: Graph, source: string, node: string, path: seq<string>, counted: map<string, nat>,
      stacked: seq<Entry>,
                     ghost known: map<string, Walk>)
    returns (finding: Finding, counts: map<string, nat>, stack: seq<Entry>, ghost found: map<string, Walk>)
    requires Following(g, source, known, counted, stacked, node, 0)
    requires IsWalk(g, source, known[node]) && path == Tables(g, source, known[node])
    ensures !finding.Clear? ==> IsWitness(g, finding)
    ensures finding.Clear? ==>
              && Following(g, source, found, counts, stack, node, |Children(g, node)|)
              && (counted.Keys < counts.Keys || (counted == counts && stack == stacked))
  {
    counts, stack, found := counted, stacked, known;
    var children := Children(g, node);
    for i := 0 to |children|
      invariant Following(g, source, found, counts, stack, node, i) && found[node] == known[node]
      invariant if i == 0 then counted == counts && stack == stacked else counted.Keys < counts.Keys
    {
      var target := children[i];
      if target in path {
        ClosesCycle(g, source, found[node], i);
        finding := Cycle(path + [target]);
        return;
      }
      ghost var before := counts;
      counts := counts[target := (if target in counts then counts[target] else 0) + 1];
      if counts[target] > 1 {
        ReachedTwice(g, source, found[target], found[node], i);
        finding := MultiplePaths(source, target);
        return;
      }
      FollowOneMore(g, source, found, before, stack, node, i);
      stack := stack + [(target, path + [target])];
      found := found[target := Step(found[node], i)];
    }
    finding := Clear;
  }

  method SearchFrom(g: Graph, source: string) returns (finding: Finding)
    ensures finding.Clear? ==> UniqueWalksFrom(g, source)
    ensures !finding.Clear? ==> IsWitness(g, finding)
  {
    var counts: map<string, nat> := map[];
    var stack: seq<Entry> := [(source, [source])];
    ghost var found: map<string, Walk> := map[source := Here];
    assert OnStack(stack, source) by { assert stack[0].0 == source; }
    while stack != []
      invariant Discovered(g, source, found, counts) && Stacked(g, source, found, stack)
      invariant forall t {:trigger OnStack(stack, t)} :: t in found && !OnStack(stack, t) ==>
                Expanded(g, found, t, |Children(g, t)|)
      decreases TablesOf(g) - counts.Keys, |stack|
    {
      var (node, path) := stack[|stack| - 1];
      PopEntry(g, source, found, stack);
      stack := stack[..|stack| - 1];
      finding, counts, stack, found := FollowEdges(g, source, node, path, counts, stack, found);
      if !finding.Clear? { return; }
    }
    forall t | t in found ensures Expanded(g, found, t, |Children(g, t)|) { assert !OnStack(stack, t); }
    forall v, w | IsWalk(g, source, v) && IsWalk(g, source, w) && End(g, source, v) == End(g, source, w)
        ensures v == w {
      AllWalksFound(g, source, found, counts, v);
      AllWalksFound(g, source, found, counts, w);
    }
    finding := Clear;
  }

  /** The verdict on the schema: rejected with a witness, or accepted. */
  method CheckCascadePaths(keys: seq<ForeignKey>) returns (outcome: Outcome)
    ensures outcome.AmbiguousKey? ==> exists i: nat :: FirstAmbiguous(keys, i) && keys[i].table == outcome.table
    ensures !outcome.AmbiguousKey? ==> forall j :: 0 <= j < |keys| ==> !Ambiguous(keys[j])
    ensures !outcome.AmbiguousKey? ==> (outcome.Accepted? <==> Acyclic(GraphOf(keys)) && SinglePaths(GraphOf(keys)))
    ensures outcome.Rejected? ==> IsWitness(GraphOf(keys), outcome.finding)
    ensures outcome.Accepted? ==> outcome.edges == CascadingKeys(keys)
  {
    var g, edges, ambiguous := BuildGraph(keys);
    if ambiguous.Some? {
      return AmbiguousKey(ambiguous.value);
    }
    var rest := g.Keys;
    while rest != {}
      invariant rest <= g.Keys
      invariant forall u :: u in g.Keys - rest ==> UniqueWalksFrom(g, u)
      decreases rest
    {
      var source :| source in rest;
      var finding := SearchFrom(g, source);
      if !finding.Clear? {
        WitnessRefutes(g, finding);
        return Rejected(finding);
      }
      rest := rest - {source};
    }
    forall u ensures UniqueWalksFrom(g, u) {
      if u !in g { forall w | IsWalk(g, u, w) ensures w == Here { NoWalkWithoutChildren(g, u, w); } }
    }
    UniqueWalksMeanNoCycleAndSinglePaths(g);
    outcome := Accepted(edges);
  }

  lemma {:induction false} NoWalkWithoutChildren(g: Graph, u: string, w: Walk)
    requires u !in g && IsWalk(g, u, w)
    ensures w == Here
  {
    if w.Step? { NoWalkWithoutChildren(g, u, w.before); }
  }
}
