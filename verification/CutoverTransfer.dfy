/** The gates and the single-transaction transfer of the cutover
    (tools/cutover_sqlite_v2_to_sqlserver.py, run_cutover).

    After the inventory, every kept table is inserted in dependency order inside one transaction of the
    target; the transferred data is compared with the eligible rows before the commit. The main results:
    the target changes only on a successful apply, and then holds its baseline plus exactly the eligible
    rows; after each table of a parents-first order no inserted reference leaves the target; and a target that
    enforces its foreign keys accepts the transfer exactly when no row refers to a later batch of its own table
    (and none to a missing row outside the kept tables). */
module CutoverTransfer {
  import opened Options
  import opened CutoverPreparation
  import opened CutoverOutcome

  datatype Policy = Keep | Rebuild | Drop

  type Database = map<string, seq<Row>>

  function RowsOf(db: Database, table: string): seq<Row> {
    if table in db then db[table] else []
  }

  datatype Backup = NotProvided | Rejected | Verified

  /** What the surroundings of a run answer: files, revisions, flags and injected faults. */
  datatype Surroundings = Surroundings(
    policyComplete: bool, sourcePresent: bool, walActive: bool, backup: Backup, sourceCompatible: bool,
    inventoryReads: bool, keysUnique: bool, expectedRevision: Option<string>, codeHead: string, baselineReady: bool,
    targetUrlGiven: bool, targetDialectAllowed: bool, targetRevision: Option<string>, targetSchemaCompatible: bool,
    sourceUnchangedAfterInventory: bool, sourceUnchangedBeforeCommit: bool,
    failAfterTable: Option<string>, commitSucceeds: bool)

  const PLANNING_STATE := "planning_mutation_state"

  const CLEAN_REBUILD_TABLES :=
      ["task_catalog_project_sync_state", "acumatica_project_task_sync_runs",
          "acumatica_project_task_sync_project_results"]

  /** The target is as the baseline leaves it: only REBUILD tables may hold rows, among them the one
      planning state row. */
  predicate CleanTarget(db: Database, policies: map<string, Policy>) {
    && (forall t :: t in policies && policies[t] != Rebuild ==> RowsOf(db, t) == [])
    && |RowsOf(db, PLANNING_STATE)| == 1 && Get(RowsOf(db, PLANNING_STATE)[0], "id") == Text("GLOBAL")
    && (forall i :: 0 <= i < |CLEAN_REBUILD_TABLES| ==> RowsOf(db, CLEAN_REBUILD_TABLES[i]) == [])
  }

  /** The conditions for reading the source. */
  predicate SourceReady(s: Surroundings, apply: bool) {
    && s.policyComplete && s.sourcePresent && !s.walActive && s.backup != Rejected && s.sourceCompatible
    && (apply ==> s.backup == Verified)
  }

  predicate Pinned(s: Surroundings) {
    s.expectedRevision.Some? && s.expectedRevision.value != ""
  }

  /** The conditions on the prepared rows and on the target. */
  predicate TargetReady(s: Surroundings, apply: bool, missing: seq<Missing>, db: Database,
      policies: map<string, Policy>) {
    && missing == [] && s.keysUnique
    && (apply ==> Pinned(s) && s.baselineReady)
    && (Pinned(s) ==> s.expectedRevision.value == s.codeHead)
    && s.targetUrlGiven && s.targetDialectAllowed && s.targetRevision == Some(s.codeHead) && s.targetSchemaCompatible
    && CleanTarget(db, policies) && s.sourceUnchangedAfterInventory
  }

  method CheckSource(s: Surroundings, apply: bool) returns (ok: bool)
    ensures ok <==> SourceReady(s, apply)
  {
    if !s.policyComplete || !s.sourcePresent || s.backup == Rejected { return false; }
    if apply && s.backup != Verified { return false; }
    ok := !s.walActive && s.sourceCompatible;
  }

  method CheckTarget(s: Surroundings, apply: bool, missing: seq<Missing>, db: Database, policies: map<string, Policy>)
    returns (ok: bool)
    ensures ok <==> TargetReady(s, apply, missing, db, policies)
  {
    var blocking := missing != [] || !s.keysUnique;
    if apply && !Pinned(s) { return false; }
    var expected := if Pinned(s) then s.expectedRevision.value else s.codeHead;
    blocking := blocking || expected != s.codeHead;
    if apply && !s.baselineReady { return false; }
    if !s.targetUrlGiven || !s.targetDialectAllowed { return false; }
    blocking := blocking || s.targetRevision != Some(expected) || !s.targetSchemaCompatible ||
        !CleanTarget(db, policies);
    if !s.sourceUnchangedAfterInventory { return false; }
    ok := !blocking;
  }

  // ---------------------------------------------------------------- the target database

  class Target {
    var committed: Database
    var working: Database
    /** Whether the target's constraints accept a batch for a table in a given state. */
    const accepts: (Database, string, seq<Row>) -> bool

    constructor (baseline: Database, accepts: (Database, string, seq<Row>) -> bool)
      ensures committed == baseline && working == baseline && this.accepts == accepts
    {
      this.committed, this.working, this.accepts := baseline, baseline, accepts;
    }

    method Begin()
      modifies this`working
      ensures working == committed
    {
      working := committed;
    }

    method Insert(table: string, rows: seq<Row>) returns (ok: bool)
      modifies this`working
      ensures ok <==> accepts(old(working), table, rows)
      ensures working == if ok then old(working)[table := RowsOf(old(working), table) + rows] else old(working)
    {
      ok := accepts(working, table, rows);
      if ok { working := working[table := RowsOf(working, table) + rows]; }
    }

    method Commit(succeeds: bool) returns (ok: bool)
      modifies this`committed
      ensures ok == succeeds && committed == if ok then working else old(committed)
    {
      ok := succeeds;
      if ok { committed := working; }
    }

    method Rollback()
      modifies this`working
      ensures working == committed
    {
      working := committed;
    }
  }

  ghost predicate ReferenceResolves(db: Database, row: Row, fk: ForeignKey) {
    || AllNull(Read(row, fk.childColumns))
    || exists k :: 0 <= k < |RowsOf(db, fk.parent)| &&
         Read(RowsOf(db, fk.parent)[k], fk.parentColumns) == Read(row, fk.childColumns)
  }

  function WithRows(db: Database, table: string, rows: seq<Row>): Database {
    db[table := RowsOf(db, table) + rows]
  }

  /** Every reference of the given rows resolves. */
  ghost predicate AllResolve(schema: Schema, db: Database, table: string, rows: seq<Row>) {
    forall r, fk :: r in rows && table in schema.tables && fk in schema.tables[table].keys ==>
        ReferenceResolves(db, r, fk)
  }

  ghost predicate AcceptsAll(target: Target) {
    forall db, t, rows :: target.accepts(db, t, rows)
  }

  /** A target whose constraints are its foreign keys, checked at the end of each batch. */
  ghost predicate Enforces(schema: Schema, target: Target) {
    forall db, t, rows :: target.accepts(db, t, rows) <==> AllResolve(schema, WithRows(db, t, rows), t, rows)
  }

  function BatchEnd(n: nat, offset: nat, size: nat): (end: nat)
    requires offset < n && size > 0
    ensures offset < end <= n
  {
    if offset + size < n then offset + size else n
  }

  /** Batch after batch from an offset, each batch resolves once it is inserted. */
  ghost predicate BatchesResolve(schema: Schema, db: Database, table: string, rows: seq<Row>, size: nat, offset: nat)
    requires size > 0
    decreases |rows| - offset
  {
    offset >= |rows| ||
    (var end := BatchEnd(|rows|, offset, size);
     AllResolve(schema, WithRows(db, table, rows[..end]), table, rows[offset..end]) &&
         BatchesResolve(schema, db, table, rows, size, end))
  }

  /** Only the rows of the tables count. */
  lemma SameRowsResolve(schema: Schema, a: Database, b: Database, table: string, rows: seq<Row>)
    requires forall t :: RowsOf(a, t) == RowsOf(b, t)
    ensures AllResolve(schema, a, table, rows) <==> AllResolve(schema, b, table, rows)
  {
    forall r, fk | r in rows && table in schema.tables && fk in schema.tables[table].keys
      ensures ReferenceResolves(a, r, fk) <==> ReferenceResolves(b, r, fk)
    {
      assert RowsOf(a, fk.parent) == RowsOf(b, fk.parent);
    }
  }

  lemma BatchInserted(db: Database, working: Database, table: string, rows: seq<Row>, offset: nat, end: nat)
    requires offset <= end <= |rows|
    requires RowsOf(working, table) == RowsOf(db, table) + rows[..offset]
    requires forall t :: t != table ==> RowsOf(working, t) == RowsOf(db, t)
    ensures var after := WithRows(working, table, rows[offset..end]);
            forall t :: RowsOf(after, t) == RowsOf(WithRows(db, table, rows[..end]), t)
  {
    var after := WithRows(working, table, rows[offset..end]);
    assert rows[..end] == rows[..offset] + rows[offset..end];
    forall t ensures RowsOf(after, t) == RowsOf(WithRows(db, table, rows[..end]), t) {
      if t == table {
        assert RowsOf(after, t) == (RowsOf(db, table) + rows[..offset]) + rows[offset..end];
      } else {
        assert RowsOf(after, t) == RowsOf(working, t);
      }
    }
  }

  /** One batch is accepted exactly when it resolves. */
  lemma BatchStep(
    schema: Schema, target: Target, db: Database, working: Database, table: string, rows: seq<Row>, size: nat,
        offset: nat)
    requires Enforces(schema, target) && offset < |rows| && size > 0
    requires RowsOf(working, table) == RowsOf(db, table) + rows[..offset]
    requires forall t :: t != table ==> RowsOf(working, t) == RowsOf(db, t)
    ensures var end := BatchEnd(|rows|, offset, size);
            BatchesResolve(schema, db, table, rows, size, offset) <==>
              target.accepts(working, table, rows[offset..end]) && BatchesResolve(schema, db, table, rows, size, end)
  {
    var end := BatchEnd(|rows|, offset, size);
    var batch := rows[offset..end];
    BatchInserted(db, working, table, rows, offset, end);
    SameRowsResolve(schema, WithRows(working, table, batch), WithRows(db, table, rows[..end]), table, batch);
    assert target.accepts(working, table, batch) <==> AllResolve(schema, WithRows(working, table, batch), table, batch);
  }

  /** rows[offset : offset + batch_size] for offset in range(0, len(rows), batch_size) */
  method InsertBatches(target: Target, ghost schema: Schema, table: string, rows: seq<Row>, batchSize: nat)
    returns (ok: bool)
    requires batchSize > 0
    modifies target`working
    ensures ok ==> RowsOf(target.working, table) == RowsOf(old(target.working), table) + rows
    ensures ok ==> forall t :: t != table ==> RowsOf(target.working, t) == RowsOf(old(target.working), t)
    ensures AcceptsAll(target) ==> ok
    ensures Enforces(schema, target) ==>
            (ok <==> BatchesResolve(schema, old(target.working), table, rows, batchSize, 0))
  {
    ghost var db, enforced := target.working, Enforces(schema, target);
    var offset := 0;
    ok := true;
    assert rows[..0] == [];
    while offset < |rows|
      invariant 0 <= offset <= |rows|
      invariant RowsOf(target.working, table) == RowsOf(db, table) + rows[..offset]
      invariant forall t :: t != table ==> RowsOf(target.working, t) == RowsOf(db, t)
      invariant enforced ==> (BatchesResolve(schema, db, table, rows, batchSize, 0) <==>
                                BatchesResolve(schema, db, table, rows, batchSize, offset))
    {
      var end := BatchEnd(|rows|, offset, batchSize);
      assert rows[..end] == rows[..offset] + rows[offset..end];
      if enforced { BatchStep(schema, target, db, target.working, table, rows, batchSize, offset); }
      ok := target.Insert(table, rows[offset..end]);
      if !ok { return; }
      offset := end;
    }
    assert rows[..|rows|] == rows;
  }

  // ---------------------------------------------------------------- what the transfer builds

  /** _transfer_order: the kept tables, in the order of the schema's tables. */
  function TransferOrder(sorted: seq<string>, policies: map<string, Policy>): seq<string> {
    if sorted == [] then []
    else
      (if sorted[0] in policies && policies[sorted[0]] == Keep then [sorted[0]] else []) +
          TransferOrder(sorted[1..], policies)
  }

  lemma {:induction false} TransferOrderMembers(sorted: seq<string>, policies: map<string, Policy>, t: string)
    ensures t in TransferOrder(sorted, policies) <==> t in sorted && t in policies && policies[t] == Keep
  {
    if sorted != [] { TransferOrderMembers(sorted[1..], policies, t); }
  }

  lemma {:induction false} TransferOrderDistinct(sorted: seq<string>, policies: map<string, Policy>)
    requires forall i, j :: 0 <= i < j < |sorted| ==> sorted[i] != sorted[j]
    ensures var order := TransferOrder(sorted, policies); forall i, j :: 0 <= i < j < |order| ==> order[i] != order[j]
  {
    if sorted != [] {
      TransferOrderDistinct(sorted[1..], policies);
      TransferOrderMembers(sorted[1..], policies, sorted[0]);
      assert sorted[0] !in sorted[1..];
    }
  }

  /** The order of the schema is kept: parents come first if they do there. */
  lemma {:induction false} TransferOrderKeeps(sorted: seq<string>, policies: map<string, Policy>, n: nat)
    requires n <= |sorted|
    ensures TransferOrder(sorted, policies) ==
            TransferOrder(sorted[..n], policies) + TransferOrder(sorted[n..], policies)
  {
    if n == 0 {
      assert sorted[0..] == sorted;
    } else {
      TransferOrderKeeps(sorted[1..], policies, n - 1);
      assert sorted[..n][1..] == sorted[1..][..n - 1] && sorted[1..][n - 1..] == sorted[n..];
    }
  }

  lemma ParentsStayFirst(schema: Schema, sorted: seq<string>, policies: map<string, Policy>)
    requires schema.keep == (set t | t in policies && policies[t] == Keep) && ParentsFirst(schema, sorted)
    requires forall i, j :: 0 <= i < j < |sorted| ==> sorted[i] != sorted[j]
    ensures ParentsFirst(schema, TransferOrder(sorted, policies))
  {
    var order := TransferOrder(sorted, policies);
    forall i, fk | 0 <= i < |order| && order[i] in schema.tables && fk in schema.tables[order[i]].keys &&
                   fk.parent in schema.keep
      ensures fk.parent in order[..i + 1]
    {
      TransferOrderMembers(sorted, policies, order[i]);
      var k :| 0 <= k < |sorted| && sorted[k] == order[i];
      PositionKept(sorted, policies, k, i);
      TransferOrderMembers(sorted[..k + 1], policies, fk.parent);
    }
  }

  /** What comes up to a table in the order comes up to it in the schema. */
  lemma PositionKept(sorted: seq<string>, policies: map<string, Policy>, k: nat, i: nat)
    requires k < |sorted| && i < |TransferOrder(sorted, policies)| && TransferOrder(sorted, policies)[i] == sorted[k]
    requires forall i, j :: 0 <= i < j < |sorted| ==> sorted[i] != sorted[j]
    ensures TransferOrder(sorted[..k + 1], policies) == TransferOrder(sorted, policies)[..i + 1]
  {
    var order, before := TransferOrder(sorted, policies), TransferOrder(sorted[..k], policies);
    TransferOrderMembers(sorted, policies, sorted[k]);
    TransferOrderKeeps(sorted, policies, k);
    TransferOrderKeeps(sorted[..k + 1], policies, k);
    assert sorted[..k + 1][..k] == sorted[..k] && sorted[..k + 1][k..] == [sorted[k]];
    assert TransferOrder([sorted[k]], policies) == [sorted[k]];
    assert order[|before|] == sorted[k] by { assert sorted[k..][0] == sorted[k]; }
    TransferOrderDistinct(sorted, policies);
    assert i == |before|;
  }

  /** The target holds the baseline plus the eligible rows of the given tables. */
  ghost predicate Loaded(db: Database, baseline: Database, states: seq<RowState>, tables: seq<string>) {
    forall t :: RowsOf(db, t) == RowsOf(baseline, t) + (if t in tables then EligibleRows(states, t) else [])
  }

  /** Each kept parent comes no later than the tables that refer to it. */
  ghost predicate ParentsFirst(schema: Schema, order: seq<string>) {
    forall i, fk :: 0 <= i < |order| && order[i] in schema.tables && fk in schema.tables[order[i]].keys &&
        fk.parent in schema.keep
      ==> fk.parent in order[..i + 1]
  }

  /** Every reference to a kept table, in every row of the listed tables, resolves inside the target. */
  ghost predicate ClosedTarget(schema: Schema, db: Database, tables: seq<string>) {
    forall t, r, fk :: t in tables && t in schema.tables && r in RowsOf(db, t) && fk in schema.tables[t].keys &&
        fk.parent in schema.keep
      ==> ReferenceResolves(db, r, fk)
  }

  lemma {:induction false} EligibleRowHasState(states: seq<RowState>, table: string, row: Row) returns (i: nat)
    requires row in EligibleRows(states, table)
    ensures Live(states, i) && states[i].table == table && states[i].row == row
  {
    if states[0].table == table && states[0].excluded.None? && states[0].row == row {
      i := 0;
    } else {
      i := EligibleRowHasState(states[1..], table, row);
      i := i + 1;
    }
  }

  lemma {:induction false} LiveStateIsEligible(states: seq<RowState>, i: nat) returns (k: nat)
    requires Live(states, i)
    ensures k < |EligibleRows(states, states[i].table)| && EligibleRows(states, states[i].table)[k] == states[i].row
  {
    if i == 0 {
      k := 0;
    } else {
      k := LiveStateIsEligible(states[1..], i - 1);
      if states[0].table == states[i].table && states[0].excluded.None? { k := k + 1; }
    }
  }

  lemma LoadedParent(db: Database, baseline: Database, states: seq<RowState>, tables: seq<string>, j: nat)
    requires Loaded(db, baseline, states, tables) && Live(states, j) && states[j].table in tables
    ensures exists k :: 0 <= k < |RowsOf(db, states[j].table)| && RowsOf(db, states[j].table)[k] == states[j].row
  {
    var t := states[j].table;
    var k := LiveStateIsEligible(states, j);
    assert RowsOf(db, t) == RowsOf(baseline, t) + EligibleRows(states, t);
    assert RowsOf(db, t)[|RowsOf(baseline, t)| + k] == states[j].row;
  }

  lemma SettledResolves(schema: Schema, q: Preparation, db: Database, baseline: Database, tables: seq<string>, i: nat,
      fk: ForeignKey)
    requires Known(schema, q.states) && q.missing == [] && Loaded(db, baseline, q.states, tables)
    requires i < |q.states| && Settled(schema, q, i, fk) && fk.parent in schema.keep && fk.parent in tables
    ensures ReferenceResolves(db, q.states[i].row, fk)
  {
    var values := Read(q.states[i].row, fk.childColumns);
    if !AllNull(values) {
      var j :| Matches(q.states, fk, values, j) && Live(q.states, j);
      LoadedParent(db, baseline, q.states, tables, j);
    }
  }

  lemma RowResolves(schema: Schema, q: Preparation, db: Database, baseline: Database, tables: seq<string>, t: string,
      r: Row, fk: ForeignKey)
    requires Known(schema, q.states) && q.missing == [] && Loaded(db, baseline, q.states, tables)
    requires AllSettled(schema, q)
    requires t in tables && t in schema.tables && RowsOf(baseline, t) == [] && r in RowsOf(db, t)
    requires fk in schema.tables[t].keys && fk.parent in schema.keep && fk.parent in tables
    ensures ReferenceResolves(db, r, fk)
  {
    assert RowsOf(db, t) == RowsOf(baseline, t) + EligibleRows(q.states, t);
    var i := EligibleRowHasState(q.states, t, r);
    assert fk in Keys(schema, q.states, i);
    SettledResolves(schema, q, db, baseline, tables, i, fk);
  }

  /** After each whole table, no reference leaves the target: the rows come from a preparation that
      reported nothing missing, and parents precede children. */
  lemma TransferStaysClosed(schema: Schema, q: Preparation, db: Database, baseline: Database, order: seq<string>,
      n: nat)
    requires Known(schema, q.states) && AllSettled(schema, q) && q.missing == []
    requires ParentsFirst(schema, order) && n <= |order|
    requires forall t :: t in order ==> RowsOf(baseline, t) == []
    requires Loaded(db, baseline, q.states, order[..n])
    ensures ClosedTarget(schema, db, order[..n])
  {
    forall t, r, fk | t in order[..n] && t in schema.tables && r in RowsOf(db, t) && fk in schema.tables[t].keys &&
        fk.parent in schema.keep
      ensures ReferenceResolves(db, r, fk)
    {
      ParentAlreadyLoaded(schema, order, n, t, fk);
      RowResolves(schema, q, db, baseline, order[..n], t, r, fk);
    }
  }

  lemma ParentAlreadyLoaded(schema: Schema, order: seq<string>, n: nat, t: string, fk: ForeignKey)
    requires ParentsFirst(schema, order) && n <= |order| && t in order[..n]
    requires t in schema.tables && fk in schema.tables[t].keys && fk.parent in schema.keep
    ensures fk.parent in order[..n]
  {
    var a :| 0 <= a < n && order[a] == t;
    assert fk.parent in order[..a + 1];
    assert order[..a + 1] <= order[..n];
  }

  // ---------------------------------------------------------------- what an enforcing target accepts

  predicate ResolvesAmong(rows: seq<Row>, row: Row, fk: ForeignKey) {
    || AllNull(Read(row, fk.childColumns))
    || exists k :: 0 <= k < |rows| && Read(rows[k], fk.parentColumns) == Read(row, fk.childColumns)
  }

  ghost predicate SelfResolve(schema: Schema, table: string, rows: seq<Row>, batch: seq<Row>) {
    forall r, fk :: r in batch && table in schema.tables && fk in schema.tables[table].keys && fk.parent == table ==>
      ResolvesAmong(rows, r, fk)
  }

  /** No row of the table refers to a row of a later batch of it. */
  ghost predicate NoForwardReference(schema: Schema, table: string, rows: seq<Row>, size: nat, offset: nat)
    requires size > 0
    decreases |rows| - offset
  {
    offset >= |rows| ||
    (var end := BatchEnd(|rows|, offset, size);
     SelfResolve(schema, table, rows[..end], rows[offset..end]) && NoForwardReference(schema, table, rows, size, end))
  }

  /** References to tables that are not kept resolve in the baseline; the preparation does not look at them. */
  ghost predicate OutsideResolve(schema: Schema, db: Database, table: string, rows: seq<Row>) {
    forall r, fk ::
      r in rows && table in schema.tables && fk in schema.tables[table].keys && fk.parent !in schema.keep ==>
        ReferenceResolves(db, r, fk)
  }

  /** What a target that enforces its foreign keys accepts: a condition on the prepared rows alone. */
  ghost predicate Transferable(schema: Schema, states: seq<RowState>, order: seq<string>, baseline: Database) {
    forall t :: t in order ==>
      && NoForwardReference(schema, t, EligibleRows(states, t), 500, 0)
      && OutsideResolve(schema, baseline, t, EligibleRows(states, t))
  }

  /** The situation when a table is about to be inserted: the tables before it are loaded, it is empty. */
  ghost predicate Turn(schema: Schema, q: Preparation, baseline: Database, db: Database, order: seq<string>, n: nat) {
    && Known(schema, q.states) && AllSettled(schema, q) && q.missing == []
    && ParentsFirst(schema, order) && n < |order| && order[n] in schema.tables
    && (forall t :: t in order ==> t in schema.keep && RowsOf(baseline, t) == [])
    && (forall i, j :: 0 <= i < j < |order| ==> order[i] != order[j])
    && Loaded(db, baseline, q.states, order[..n])
  }

  lemma ParentBefore(schema: Schema, order: seq<string>, n: nat, fk: ForeignKey)
    requires ParentsFirst(schema, order) && n < |order| && order[n] in schema.tables
    requires fk in schema.tables[order[n]].keys && fk.parent in schema.keep && fk.parent != order[n]
    ensures fk.parent in order[..n]
  {
    assert fk.parent in order[..n + 1];
    assert order[..n + 1] == order[..n] + [order[n]];
  }

  lemma EarlierParent(
    schema: Schema, q: Preparation, baseline: Database, db: Database, loaded: seq<string>, t: string, r: Row,
        fk: ForeignKey)
    requires Known(schema, q.states) && AllSettled(schema, q) && q.missing == [] &&
             Loaded(db, baseline, q.states, loaded)
    requires t in schema.tables && r in EligibleRows(q.states, t) && fk in schema.tables[t].keys
    requires fk.parent in schema.keep && fk.parent in loaded
    ensures ReferenceResolves(db, r, fk)
  {
    var i := EligibleRowHasState(q.states, t, r);
    assert fk in Keys(schema, q.states, i);
    SettledResolves(schema, q, db, baseline, loaded, i, fk);
  }

  lemma TurnFacts(schema: Schema, q: Preparation, baseline: Database, db: Database, order: seq<string>, n: nat)
    requires Turn(schema, q, baseline, db, order, n)
    ensures RowsOf(db, order[n]) == []
    ensures forall t :: t !in schema.keep ==> RowsOf(db, t) == RowsOf(baseline, t)
  {
    assert order[n] !in order[..n];
    assert RowsOf(db, order[n]) == RowsOf(baseline, order[n]) + [];
    forall t | t !in schema.keep ensures RowsOf(db, t) == RowsOf(baseline, t) {
      assert t !in order[..n];
      assert RowsOf(db, t) == RowsOf(baseline, t) + [];
    }
  }

  /** One row, when a prefix of its table is in. */
  lemma RowResolvesExactly(
    schema: Schema, q: Preparation, baseline: Database, db: Database, order: seq<string>, n: nat, rows: seq<Row>,
        r: Row, fk: ForeignKey)
    requires Turn(schema, q, baseline, db, order, n)
    requires r in EligibleRows(q.states, order[n]) && fk in schema.tables[order[n]].keys
    ensures ReferenceResolves(WithRows(db, order[n], rows), r, fk) <==>
              if fk.parent == order[n] then ResolvesAmong(rows, r, fk)
              else if fk.parent in schema.keep then true
              else ReferenceResolves(baseline, r, fk)
  {
    TurnFacts(schema, q, baseline, db, order, n);
    var after := WithRows(db, order[n], rows);
    if fk.parent == order[n] {
      assert RowsOf(after, fk.parent) == rows;
    } else {
      assert RowsOf(after, fk.parent) == RowsOf(db, fk.parent);
      if fk.parent in schema.keep {
        ParentBefore(schema, order, n, fk);
        EarlierParent(schema, q, baseline, db, order[..n], order[n], r, fk);
      }
    }
  }

  lemma BatchResolvesExactly(
    schema: Schema, q: Preparation, baseline: Database, db: Database, order: seq<string>, n: nat, rows: seq<Row>,
        batch: seq<Row>)
    requires Turn(schema, q, baseline, db, order, n)
    requires forall r :: r in batch ==> r in EligibleRows(q.states, order[n])
    ensures AllResolve(schema, WithRows(db, order[n], rows), order[n], batch) <==>
              SelfResolve(schema, order[n], rows, batch) && OutsideResolve(schema, baseline, order[n], batch)
  {
    forall r, fk | r in batch && fk in schema.tables[order[n]].keys
      ensures ReferenceResolves(WithRows(db, order[n], rows), r, fk) <==>
                if fk.parent == order[n] then ResolvesAmong(rows, r, fk)
                else if fk.parent in schema.keep then true
                else ReferenceResolves(baseline, r, fk)
    {
      RowResolvesExactly(schema, q, baseline, db, order, n, rows, r, fk);
    }
    assert order[n] in schema.keep;
  }

  /** A batch resolves exactly when its references to its own table and to tables not kept do. */
  ghost predicate Decided(schema: Schema, baseline: Database, db: Database, table: string, rows: seq<Row>) {
    forall a, b :: 0 <= a <= b <= |rows| ==>
      (AllResolve(schema, WithRows(db, table, rows[..b]), table, rows[a..b]) <==>
         SelfResolve(schema, table, rows[..b], rows[a..b]) && OutsideResolve(schema, baseline, table, rows[a..b]))
  }

  lemma {:induction false} BatchesResolveExactly(
    schema: Schema, baseline: Database, db: Database, table: string, rows: seq<Row>, size: nat, offset: nat)
    requires Decided(schema, baseline, db, table, rows) && size > 0 && offset <= |rows|
    ensures BatchesResolve(schema, db, table, rows, size, offset) <==>
              NoForwardReference(schema, table, rows, size, offset) &&
                  OutsideResolve(schema, baseline, table, rows[offset..])
    decreases |rows| - offset
  {
    if offset < |rows| {
      var end := BatchEnd(|rows|, offset, size);
      BatchesResolveExactly(schema, baseline, db, table, rows, size, end);
      assert rows[offset..] == rows[offset..end] + rows[end..];
      OutsideSplits(schema, baseline, table, rows[offset..end], rows[end..]);
    }
  }

  lemma OutsideSplits(schema: Schema, db: Database, table: string, a: seq<Row>, b: seq<Row>)
    ensures OutsideResolve(schema, db, table, a + b) <==>
            OutsideResolve(schema, db, table, a) && OutsideResolve(schema, db, table, b)
  {
    assert forall r :: r in a + b <==> r in a || r in b;
  }

  lemma TurnDecides(schema: Schema, q: Preparation, baseline: Database, db: Database, order: seq<string>, n: nat)
    requires Turn(schema, q, baseline, db, order, n)
    ensures Decided(schema, baseline, db, order[n], EligibleRows(q.states, order[n]))
  {
    var rows := EligibleRows(q.states, order[n]);
    forall a, b | 0 <= a <= b <= |rows|
      ensures AllResolve(schema, WithRows(db, order[n], rows[..b]), order[n], rows[a..b]) <==>
                SelfResolve(schema, order[n], rows[..b], rows[a..b]) &&
                    OutsideResolve(schema, baseline, order[n], rows[a..b])
    {
      BatchResolvesExactly(schema, q, baseline, db, order, n, rows[..b], rows[a..b]);
    }
  }

  /** In a parents-first order a target that enforces its foreign keys accepts a table exactly when none of its rows
      refers to a later batch, and what lies outside the kept tables resolves. */
  lemma TableIsAcceptedExactly(schema: Schema, q: Preparation, baseline: Database, db: Database, order: seq<string>,
      n: nat)
    requires Turn(schema, q, baseline, db, order, n)
    ensures var rows := EligibleRows(q.states, order[n]);
            BatchesResolve(schema, db, order[n], rows, 500, 0) <==>
              NoForwardReference(schema, order[n], rows, 500, 0) && OutsideResolve(schema, baseline, order[n], rows)
  {
    var rows := EligibleRows(q.states, order[n]);
    TurnDecides(schema, q, baseline, db, order, n);
    BatchesResolveExactly(schema, baseline, db, order[n], rows, 500, 0);
    assert rows[0..] == rows;
  }

  /** A row refers to rows of its own batch of 500, or of an earlier one. */
  ghost predicate ReachesBack(rows: seq<Row>, i: nat, fk: ForeignKey)
    requires i < |rows|
  {
    || AllNull(Read(rows[i], fk.childColumns))
    || exists k: nat :: RefersBack(rows, i, fk, k)
  }

  ghost predicate RefersBack(rows: seq<Row>, i: nat, fk: ForeignKey, k: nat)
    requires i < |rows|
  {
    k < |rows| && k / 500 <= i / 500 && Read(rows[k], fk.parentColumns) == Read(rows[i], fk.childColumns)
  }

  ghost predicate StaysWithin(schema: Schema, table: string, rows: seq<Row>, i: nat)
    requires i < |rows|
  {
    forall fk :: table in schema.tables && fk in schema.tables[table].keys && fk.parent == table ==>
      ReachesBack(rows, i, fk)
  }

  lemma BatchStaysWithin(schema: Schema, table: string, rows: seq<Row>, offset: nat, end: nat)
    requires offset % 500 == 0 && offset < |rows| && end == if offset + 500 < |rows| then offset + 500 else |rows|
    ensures SelfResolve(schema, table, rows[..end], rows[offset..end]) <==>
              forall i: nat :: offset <= i < end ==> StaysWithin(schema, table, rows, i)
  {
    forall i: nat, fk | offset <= i < end
      ensures ResolvesAmong(rows[..end], rows[i], fk) <==> ReachesBack(rows, i, fk)
    {
      WithinBatch(rows, offset, end, i, fk);
    }
    if SelfResolve(schema, table, rows[..end], rows[offset..end]) {
      forall i: nat | offset <= i < end ensures StaysWithin(schema, table, rows, i) {
        assert rows[offset..end][i - offset] == rows[i];
      }
    }
    if forall i: nat :: offset <= i < end ==> StaysWithin(schema, table, rows, i) {
      forall r, fk | r in rows[offset..end] && table in schema.tables && fk in schema.tables[table].keys &&
                     fk.parent == table
        ensures ResolvesAmong(rows[..end], r, fk)
      {
        var j :| 0 <= j < end - offset && rows[offset..end][j] == r;
        assert StaysWithin(schema, table, rows, offset + j);
      }
    }
  }

  lemma WithinBatch(rows: seq<Row>, offset: nat, end: nat, i: nat, fk: ForeignKey)
    requires offset % 500 == 0 && offset < |rows| && end == if offset + 500 < |rows| then offset + 500 else |rows|
    requires offset <= i < end
    ensures ResolvesAmong(rows[..end], rows[i], fk) <==> ReachesBack(rows, i, fk)
  {
    assert forall k: nat :: k < |rows| ==> (k / 500 <= i / 500 <==> k < end);
    if k :| 0 <= k < end && Read(rows[..end][k], fk.parentColumns) == Read(rows[i], fk.childColumns) {
      assert RefersBack(rows, i, fk, k);
    }
    if k: nat :| RefersBack(rows, i, fk, k) { assert rows[..end][k] == rows[k]; }
  }

  /** No row refers to a later batch exactly if every row stays within its own and the earlier ones. */
  lemma {:induction false} BatchesByIndex(schema: Schema, table: string, rows: seq<Row>, offset: nat)
    requires offset % 500 == 0
    ensures NoForwardReference(schema, table, rows, 500, offset) <==>
              forall i: nat :: offset <= i < |rows| ==> StaysWithin(schema, table, rows, i)
    decreases |rows| - offset
  {
    if offset < |rows| {
      var end := if offset + 500 < |rows| then offset + 500 else |rows|;
      assert end == BatchEnd(|rows|, offset, 500);
      BatchStaysWithin(schema, table, rows, offset, end);
      if offset + 500 < |rows| { BatchesByIndex(schema, table, rows, end); }
      assert NoForwardReference(schema, table, rows, 500, end) <==>
             forall i: nat :: end <= i < |rows| ==> StaysWithin(schema, table, rows, i);
    }
  }

  /** The rows an enforcing target takes: those of every table refer back only, and outside the kept tables only to
      what is there. */
  ghost predicate Takes(schema: Schema, states: seq<RowState>, tables: set<string>, baseline: Database) {
    forall t :: t in tables ==>
      && (forall i: nat :: i < |EligibleRows(states, t)| ==> StaysWithin(schema, t, EligibleRows(states, t), i))
      && OutsideResolve(schema, baseline, t, EligibleRows(states, t))
  }

  lemma TransferableExactly(schema: Schema, states: seq<RowState>, order: seq<string>, tables: set<string>,
      baseline: Database)
    requires forall t :: t in tables <==> t in order
    ensures Transferable(schema, states, order, baseline) <==> Takes(schema, states, tables, baseline)
  {
    forall t | t in order
      ensures NoForwardReference(schema, t, EligibleRows(states, t), 500, 0) <==>
                forall i: nat :: i < |EligibleRows(states, t)| ==> StaysWithin(schema, t, EligibleRows(states, t), i)
    {
      BatchesByIndex(schema, t, EligibleRows(states, t), 0);
    }
  }

  /** A table that refers to itself: 501 rows, the first of which refers to the last. Nothing is missing and the order
      is parents-first, and yet the first batch is refused. */
  function ForwardRows(): seq<Row> {
    seq(501, i => map["id" := Number(i), "parent_id" := if i == 0 then Number(500) else Null])
  }

  function SelfReferringSchema(): Schema {
    Schema(map["items" := Table(["id"], {"parent_id"}, [], [ForeignKey(["parent_id"], "items", ["id"])])], {"items"})
  }

  lemma ForwardReferenceIsRefused()
    ensures !NoForwardReference(SelfReferringSchema(), "items", ForwardRows(), 500, 0)
    ensures ResolvesAmong(ForwardRows(), ForwardRows()[0], SelfReferringSchema().tables["items"].keys[0])
  {
    var rows, fk := ForwardRows(), ForeignKey(["parent_id"], "items", ["id"]);
    var schema := SelfReferringSchema();
    assert schema.tables["items"].keys == [fk];
    assert rows[0] in rows[0..500] by { assert rows[0..500][0] == rows[0]; }
    assert Read(rows[0], fk.childColumns) == [Number(500)];
    forall k | 0 <= k < 500 ensures Read(rows[..500][k], fk.parentColumns) != [Number(500)] {
      assert Read(rows[k], fk.parentColumns)[0] == Number(k);
    }
    assert !ResolvesAmong(rows[..500], rows[0], fk) by {
      assert Read(rows[0], fk.childColumns)[0] == Number(500);
    }
    assert !SelfResolve(schema, "items", rows[..500], rows[0..500]);
    assert Read(rows[500], fk.parentColumns) == [Number(500)];
  }

  // ---------------------------------------------------------------- validation and the run

  ghost function Signature(rows: seq<Row>, columns: seq<string>): set<seq<Value>> {
    set r | r in rows :: Read(r, columns)
  }

  /** Counts, identifiers and business links of the kept tables are those of the eligible rows. */
  method Validate(target: Target, schema: Schema, states: seq<RowState>, order: seq<string>,
      controls: map<string, seq<string>>) returns (ok: bool)
    requires forall t :: t in order ==> t in schema.tables
    ensures ok <==> Validated(target.working, schema, states, order, controls)
  {
    for i := 0 to |order|
      invariant forall k :: 0 <= k < i ==> SameTable(target.working, schema, states, order[k])
    {
      var t := order[i];
      var expected, actual := EligibleRows(states, t), RowsOf(target.working, t);
      if |expected| != |actual| { return false; }
      var pk := schema.tables[t].primaryKey;
      var sourceIds := set r | r in expected :: Read(r, pk);
      var targetIds := set r | r in actual :: Read(r, pk);
      if sourceIds != targetIds { return false; }
    }
    ok := forall t :: t in controls.Keys ==>
            (set r | r in EligibleRows(states, t) :: Read(r, controls[t])) ==
                (set r | r in RowsOf(target.working, t) :: Read(r, controls[t]));
  }

  ghost predicate SameTable(db: Database, schema: Schema, states: seq<RowState>, t: string)
    requires t in schema.tables
  {
    && |RowsOf(db, t)| == |EligibleRows(states, t)|
    && Signature(RowsOf(db, t), schema.tables[t].primaryKey) ==
         Signature(EligibleRows(states, t), schema.tables[t].primaryKey)
  }

  ghost predicate Validated(db: Database, schema: Schema, states: seq<RowState>, order: seq<string>,
      controls: map<string, seq<string>>)
    requires forall t :: t in order ==> t in schema.tables
  {
    && (forall k :: 0 <= k < |order| ==> SameTable(db, schema, states, order[k]))
    && (forall t :: t in controls ==>
         Signature(RowsOf(db, t), controls[t]) == Signature(EligibleRows(states, t), controls[t]))
  }

  /** A target that received exactly the eligible rows on empty tables passes the validation. */
  lemma FaithfulTransferValidates(db: Database, baseline: Database, schema: Schema, states: seq<RowState>,
      order: seq<string>, controls: map<string, seq<string>>)
    requires forall t :: t in order ==> t in schema.tables && RowsOf(baseline, t) == []
    requires forall t :: t in controls ==> t in order
    requires Loaded(db, baseline, states, order)
    ensures Validated(db, schema, states, order, controls)
  {
    forall t | t in order ensures RowsOf(db, t) == EligibleRows(states, t) {
      assert RowsOf(db, t) == RowsOf(baseline, t) + EligibleRows(states, t);
    }
    assert forall k :: 0 <= k < |order| ==> order[k] in order;
  }

  /** Nothing goes wrong around the transfer; the comparisons before the commit cannot fail by themselves. */
  predicate NoFault(s: Surroundings, order: seq<string>, controls: map<string, seq<string>>) {
    && s.sourceUnchangedBeforeCommit && s.commitSucceeds
    && (s.failAfterTable.Some? ==> s.failAfterTable.value !in order)
    && (forall t :: t in controls ==> t in order)
  }

  /** The preparation and the order with which the transfer starts. */
  ghost predicate Prepared(schema: Schema, q: Preparation, order: seq<string>, baseline: Database) {
    && Known(schema, q.states) && AllSettled(schema, q) && q.missing == []
    && (forall t :: t in order ==> t in schema.tables && t in schema.keep && RowsOf(baseline, t) == [])
    && (forall i, j :: 0 <= i < j < |order| ==> order[i] != order[j])
  }

  /** The checks on what was transferred, and the commit. */
  method CommitChecked(s: Surroundings, schema: Schema, states: seq<RowState>, order: seq<string>,
                       controls: map<string, seq<string>>, target: Target)
    returns (ok: bool)
    requires forall t :: t in order ==> t in schema.tables && RowsOf(target.committed, t) == []
    requires Loaded(target.working, target.committed, states, order)
    modifies target`committed
    ensures ok ==> target.committed == target.working && Validated(target.working, schema, states, order, controls)
    ensures !ok ==> target.committed == old(target.committed)
    ensures NoFault(s, order, controls) ==> ok
  {
    if !s.sourceUnchangedBeforeCommit { return false; }
    if forall t :: t in controls ==> t in order {
      FaithfulTransferValidates(target.working, target.committed, schema, states, order, controls);
    }
    ok := Validate(target, schema, states, order, controls);
    if !ok { return; }
    ok := target.Commit(s.commitSucceeds);
  }

  /** All tables, in order, until one is refused or a fault is injected. */
  method InsertTables(fault: Option<string>, schema: Schema, ghost q: Preparation, states: seq<RowState>,
                      order: seq<string>, target: Target)
    returns (ok: bool)
    requires Prepared(schema, q, order, target.committed) && states == q.states && target.working == target.committed
    modifies target`working
    ensures ok ==> Loaded(target.working, target.committed, states, order)
    ensures (fault.Some? ==> fault.value !in order) && AcceptsAll(target) ==> ok
    ensures Enforces(schema, target) && ParentsFirst(schema, order) ==>
              (ok ==> Transferable(schema, states, order, target.committed))
              && ((fault.Some? ==> fault.value !in order) && Transferable(schema, states, order, target.committed) ==>
                   ok)
  {
    ghost var exact := Enforces(schema, target) && ParentsFirst(schema, order);
    for i := 0 to |order|
      invariant Loaded(target.working, target.committed, states, order[..i])
      invariant exact ==> Transferable(schema, states, order[..i], target.committed)
    {
      ghost var db := target.working;
      assert order[..i + 1] == order[..i] + [order[i]];
      assert order[i] !in order[..i] && order[i] in order;
      ok := InsertBatches(target, schema, order[i], EligibleRows(states, order[i]), 500);
      if exact { TableIsAcceptedExactly(schema, q, target.committed, db, order, i); }
      if !ok || fault == Some(order[i]) { return false; }
    }
    assert order[..|order|] == order;
    ok := true;
  }

  /** One attempt inside the transaction: all tables, the checks, the commit. */
  method TransferAll(s: Surroundings, schema: Schema, ghost q: Preparation, states: seq<RowState>, order: seq<string>,
                     controls: map<string, seq<string>>, target: Target)
    returns (ok: bool)
    requires Prepared(schema, q, order, target.committed) && states == q.states
    modifies target`working, target`committed
    ensures ok ==> && Loaded(target.committed, old(target.committed), states, order)
                   && Validated(target.committed, schema, states, order, controls)
    ensures !ok ==> target.committed == old(target.committed)
    ensures NoFault(s, order, controls) && AcceptsAll(target) ==> ok
    ensures Enforces(schema, target) && ParentsFirst(schema, order) ==>
              (ok ==> Transferable(schema, states, order, old(target.committed)))
              && (NoFault(s, order, controls) && Transferable(schema, states, order, old(target.committed)) ==> ok)
  {
    target.Begin();
    ok := InsertTables(s.failAfterTable, schema, q, states, order, target);
    if ok { ok := CommitChecked(s, schema, states, order, controls, target); }
  }

  /** The kept tables of the target hold exactly the eligible rows, and nothing else changed. */
  ghost predicate Transferred(schema: Schema, q: Preparation, order: seq<string>, before: Database, after: Database) {
    && (forall t :: t in order ==> RowsOf(after, t) == EligibleRows(q.states, t))
    && (forall t :: t !in order ==> RowsOf(after, t) == RowsOf(before, t))
    && (ParentsFirst(schema, order) ==> ClosedTarget(schema, after, order))
  }

  method ApplyTransfer(s: Surroundings, schema: Schema, ghost q: Preparation, states: seq<RowState>, order: seq<string>,
                       controls: map<string, seq<string>>, target: Target)
    returns (code: int)
    requires Prepared(schema, q, order, target.committed) && states == q.states
    modifies target`working, target`committed
    ensures code == 0 || code == 3
    ensures NoFault(s, order, controls) && AcceptsAll(target) ==> code == 0
    ensures Enforces(schema, target) && ParentsFirst(schema, order) ==>
              (code == 0 ==> Transferable(schema, states, order, old(target.committed)))
              && (NoFault(s, order, controls) && Transferable(schema, states, order, old(target.committed)) ==>
                   code == 0)
    ensures code == 3 ==> target.committed == old(target.committed)
    ensures code == 0 ==> Transferred(schema, q, order, old(target.committed), target.committed)
  {
    ghost var baseline := target.committed;
    var ok := TransferAll(s, schema, q, states, order, controls, target);
    if !ok {
      target.Rollback();
      return 3;
    }
    LoadedIsTransferred(schema, q, order, baseline, target.committed);
    code := 0;
  }

  lemma LoadedIsTransferred(schema: Schema, q: Preparation, order: seq<string>, before: Database, after: Database)
    requires Known(schema, q.states) && AllSettled(schema, q) && q.missing == []
    requires Loaded(after, before, q.states, order) && forall t :: t in order ==> RowsOf(before, t) == []
    ensures Transferred(schema, q, order, before, after)
  {
    forall t ensures RowsOf(after, t) == if t in order then EligibleRows(q.states, t) else RowsOf(before, t) {
      assert RowsOf(after, t) == RowsOf(before, t) + (if t in order then EligibleRows(q.states, t) else []);
    }
    if ParentsFirst(schema, order) {
      assert order[..|order|] == order;
      TransferStaysClosed(schema, q, after, before, order, |order|);
    }
  }

  lemma KeptTablesAreEmpty(schema: Schema, policies: map<string, Policy>, sorted: seq<string>, db: Database)
    requires schema.keep == (set t | t in policies && policies[t] == Keep) && schema.keep <= schema.tables.Keys
    requires forall i, j :: 0 <= i < j < |sorted| ==> sorted[i] != sorted[j]
    requires CleanTarget(db, policies)
    ensures var order := TransferOrder(sorted, policies);
            && (forall i, j :: 0 <= i < j < |order| ==> order[i] != order[j])
            && (forall t :: t in order ==> t in schema.tables && t in schema.keep && RowsOf(db, t) == [])
  {
    TransferOrderDistinct(sorted, policies);
    forall t | t in TransferOrder(sorted, policies)
        ensures t in schema.tables && t in schema.keep && RowsOf(db, t) == [] {
      TransferOrderMembers(sorted, policies, t);
      assert t in schema.keep;
    }
  }

  /** All gates, one condition after the other. */
  ghost predicate GatesPass(s: Surroundings, apply: bool, db: Database, policies: map<string, Policy>) {
    && s.policyComplete && s.sourcePresent && !s.walActive && s.sourceCompatible
    && (s.backup == Verified || (s.backup == NotProvided && !apply))
    && s.keysUnique && s.sourceUnchangedAfterInventory && s.targetUrlGiven && s.targetDialectAllowed
    && s.targetSchemaCompatible && s.targetRevision == Some(s.codeHead)
    && (s.expectedRevision == Some(s.codeHead) || (!apply && s.expectedRevision in {None, Some("")}))
    && (apply ==> s.baselineReady && s.codeHead != "")
    && (forall t :: t in policies && policies[t] in {Keep, Drop} ==> RowsOf(db, t) == [])
    && (exists r :: RowsOf(db, "planning_mutation_state") == [r] && Get(r, "id") == Text("GLOBAL"))
    && RowsOf(db, "task_catalog_project_sync_state") == [] && RowsOf(db, "acumatica_project_task_sync_runs") == []
    && RowsOf(db, "acumatica_project_task_sync_project_results") == []
  }

  lemma GatesExactly(s: Surroundings, apply: bool, missing: seq<Missing>, db: Database, policies: map<string, Policy>)
    ensures SourceReady(s, apply) && TargetReady(s, apply, missing, db, policies) <==>
              GatesPass(s, apply, db, policies) && missing == []
  {
    var state := RowsOf(db, PLANNING_STATE);
    if |state| == 1 { assert state == [state[0]]; }
    assert CLEAN_REBUILD_TABLES[0] == "task_catalog_project_sync_state";
    assert CLEAN_REBUILD_TABLES[1] == "acumatica_project_task_sync_runs";
    assert CLEAN_REBUILD_TABLES[2] == "acumatica_project_task_sync_project_results";
  }

  /** Nothing goes wrong around a transfer of the given tables. */
  ghost predicate NothingFails(s: Surroundings, tables: set<string>, controls: map<string, seq<string>>) {
    && s.sourceUnchangedBeforeCommit && s.commitSucceeds && controls.Keys <= tables
    && (s.failAfterTable.Some? ==> s.failAfterTable.value !in tables)
  }

  /** What a successful apply leaves of the rows read. */
  ghost predicate CarriedOver(schema: Schema, rows: seq<(string, Row)>, tables: set<string>, after: Database)
    requires KnownRows(schema, rows)
  {
    exists E :: Goes(schema, rows, E) && forall t :: t in tables ==> Stay(schema, rows, E, t, RowsOf(after, t))
  }

  /** In a parents-first schema and without a fault, the prepared rows alone decide whether an enforcing target takes
      them all. */
  ghost predicate TakenExactly(s: Surroundings, schema: Schema, sorted: seq<string>, controls: map<string, seq<string>>,
      states: seq<RowState>, baseline: Database, code: int)
  {
    var tables := set t | t in schema.keep && t in sorted;
    ParentsFirst(schema, sorted) && NothingFails(s, tables, controls) ==>
      (code == 0 <==> Takes(schema, states, tables, baseline))
  }

  /** Every reference between kept tables resolves inside the target. */
  ghost predicate ClosedTables(schema: Schema, tables: set<string>, db: Database) {
    forall t, r, fk ::
      t in tables && r in RowsOf(db, t) && t in schema.tables && fk in schema.tables[t].keys && fk.parent in schema.keep
      ==> ReferenceResolves(db, r, fk)
  }

  lemma DecidedByRows(s: Surroundings, schema: Schema, policies: map<string, Policy>, sorted: seq<string>,
      controls: map<string, seq<string>>, states: seq<RowState>, baseline: Database, code: int)
    requires schema.keep == (set t | t in policies && policies[t] == Keep)
    requires forall i, j :: 0 <= i < j < |sorted| ==> sorted[i] != sorted[j]
    requires var order := TransferOrder(sorted, policies);
             ParentsFirst(schema, order) && NoFault(s, order, controls) ==>
               (code == 0 <==> Transferable(schema, states, order, baseline))
    ensures TakenExactly(s, schema, sorted, controls, states, baseline, code)
  {
    var tables := set t | t in schema.keep && t in sorted;
    TransferredTables(s, schema, policies, sorted, controls, tables);
    TransferableExactly(schema, states, TransferOrder(sorted, policies), tables, baseline);
  }

  lemma ClosesTables(schema: Schema, policies: map<string, Policy>, sorted: seq<string>, q: Preparation,
      before: Database, after: Database)
    requires schema.keep == (set t | t in policies && policies[t] == Keep)
    requires forall i, j :: 0 <= i < j < |sorted| ==> sorted[i] != sorted[j]
    requires Transferred(schema, q, TransferOrder(sorted, policies), before, after)
    ensures ParentsFirst(schema, sorted) ==>
              ClosedTables(schema, (set t | t in schema.keep && t in sorted), after)
  {
    if ParentsFirst(schema, sorted) {
      ParentsStayFirst(schema, sorted, policies);
      forall t | t in schema.keep && t in sorted ensures t in TransferOrder(sorted, policies) {
        TransferOrderMembers(sorted, policies, t);
      }
    }
  }

  method RunCutover(s: Surroundings, apply: bool, schema: Schema, policies: map<string, Policy>, sorted: seq<string>,
                    rows: seq<(string, Row)>, controls: map<string, seq<string>>, target: Target)
    returns (code: int)
    requires KnownRows(schema, rows)
    requires schema.keep == (set t | t in policies && policies[t] == Keep) && schema.keep <= schema.tables.Keys
    requires forall i, j :: 0 <= i < j < |sorted| ==> sorted[i] != sorted[j]
    modifies target`working, target`committed
    ensures code == 0 || code == 2 || code == 3
    ensures code == 2 <==>
              !SourceReady(s, apply) ||
              (s.inventoryReads &&
                !TargetReady(s, apply, Run(schema, Start(schema, rows)).missing, old(target.committed), policies))
    ensures SourceReady(s, apply) && !s.inventoryReads ==> code == 3
    ensures var q, order := Run(schema, Start(schema, rows)), TransferOrder(sorted, policies);
            && (code == 3 ==> !s.inventoryReads || (apply && !(NoFault(s, order, controls) && AcceptsAll(target))))
            && (Enforces(schema, target) && ParentsFirst(schema, order) && NoFault(s, order, controls) && apply &&
                 s.inventoryReads && code != 2 ==>
                  (code == 0 <==> Transferable(schema, q.states, order, old(target.committed))))
    ensures !(apply && code == 0) ==> target.committed == old(target.committed)
    ensures apply && code == 0 ==>
              Transferred(schema, Run(schema, Start(schema, rows)), TransferOrder(sorted, policies),
                  old(target.committed), target.committed)
    ensures code == 0 ==> s.inventoryReads && GatesPass(s, apply, old(target.committed), policies)
    ensures GatesPass(s, apply, old(target.committed), policies) && ParentsPresent(schema, rows) &&
            ProgramShaped(schema) && KeysAreSet(schema)
            ==> code != 2
    ensures apply && code == 0 ==>
            forall t, r :: t in schema.keep && t in sorted && r in RowsOf(target.committed, t) ==>
              t in schema.tables && !Marked(schema, t, r)
    ensures apply && code == 0 && ProgramShaped(schema) && KeysAreSet(schema) ==>
              CarriedOver(schema, rows, (set t | t in schema.keep && t in sorted), target.committed)
    ensures Enforces(schema, target) && apply && s.inventoryReads && code != 2 ==>
              TakenExactly(s, schema, sorted, controls, Run(schema, Start(schema, rows)).states, old(target.committed),
                           code)
    ensures apply && code == 0 && ParentsFirst(schema, sorted) ==>
              ClosedTables(schema, (set t | t in schema.keep && t in sorted), target.committed)
  {
    GatesExactly(s, apply, Run(schema, Start(schema, rows)).missing, target.committed, policies);
    var ok := CheckSource(s, apply);
    if !ok { return 2; }
    if !s.inventoryReads { return 3; }
    var preparation := PrepareKeepRows(schema, rows);
    if ProgramShaped(schema) && KeysAreSet(schema) {
      NothingMissing(schema, rows, ExcludedSet(preparation.states), preparation.View());
    }
    ok := CheckTarget(s, apply, preparation.missing, target.committed, policies);
    if !ok { return 2; }
    if !apply { return 0; }
    var order := TransferOrder(sorted, policies);
    KeptTablesAreEmpty(schema, policies, sorted, target.committed);
    EligibleRowsAreClosed(schema, Start(schema, rows));
    ghost var states := preparation.states;
    code := ApplyTransfer(s, schema, Run(schema, Start(schema, rows)), preparation.states, order, controls, target);
    if code == 0 { CarriesOver(schema, rows, states, policies, sorted, target.committed); }
    ghost var q := Run(schema, Start(schema, rows));
    if Enforces(schema, target) {
      DecidedByRows(s, schema, policies, sorted, controls, q.states, old(target.committed), code);
    }
    if code == 0 { ClosesTables(schema, policies, sorted, q, old(target.committed), target.committed); }
  }

  lemma TransferredTables(s: Surroundings, schema: Schema, policies: map<string, Policy>, sorted: seq<string>,
      controls: map<string, seq<string>>, tables: set<string>)
    requires schema.keep == (set t | t in policies && policies[t] == Keep)
    requires forall i, j :: 0 <= i < j < |sorted| ==> sorted[i] != sorted[j]
    requires tables == set t | t in schema.keep && t in sorted
    ensures var order := TransferOrder(sorted, policies);
            && (forall t :: t in tables <==> t in order)
            && (ParentsFirst(schema, sorted) ==> ParentsFirst(schema, order))
            && (NothingFails(s, tables, controls) <==> NoFault(s, order, controls))
  {
    forall t ensures t in tables <==> t in TransferOrder(sorted, policies) {
      TransferOrderMembers(sorted, policies, t);
    }
    if ParentsFirst(schema, sorted) { ParentsStayFirst(schema, sorted, policies); }
  }

  lemma CarriesOver(schema: Schema, rows: seq<(string, Row)>, states: seq<RowState>, policies: map<string, Policy>,
      sorted: seq<string>, after: Database)
    requires KnownRows(schema, rows) && schema.keep == (set t | t in policies && policies[t] == Keep)
    requires forall t :: t in TransferOrder(sorted, policies) ==> RowsOf(after, t) == EligibleRows(states, t)
    requires forall t, r :: r in EligibleRows(states, t) ==> t in schema.tables && !Marked(schema, t, r)
    ensures forall t, r :: t in schema.keep && t in sorted && r in RowsOf(after, t) ==>
              t in schema.tables && !Marked(schema, t, r)
    ensures (Goes(schema, rows, ExcludedSet(states)) &&
              forall t :: Stay(schema, rows, ExcludedSet(states), t, EligibleRows(states, t))) ==>
              CarriedOver(schema, rows, (set t | t in schema.keep && t in sorted), after)
  {
    forall t | t in schema.keep && t in sorted ensures RowsOf(after, t) == EligibleRows(states, t) {
      TransferOrderMembers(sorted, policies, t);
    }
  }
}
