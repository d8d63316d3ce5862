/** Preparation of the rows kept by the SQLite to SQL Server cutover
    (tools/cutover_sqlite_v2_to_sqlserver.py, _prepare_keep_rows).

    Rows are excluded at first because they carry development or demonstration identifiers. Then
    passes over all rows and foreign keys propagate: a reference to a parent that exists but is
    excluded is cleared when all its columns are nullable, and excludes the row otherwise; a reference
    to no row at all is reported. The rows of all kept tables are held in one sequence, table by table. */
module CutoverPreparation {
  import opened Options

  datatype Value = Null | Text(s: string) | Number(n: int)

  type Row = map<string, Value>

  datatype ForeignKey = ForeignKey(childColumns: seq<string>, parent: string, parentColumns: seq<string>)

  datatype Table = Table(primaryKey: seq<string>, nullable: set<string>, identity: seq<string>, keys: seq<ForeignKey>)

  /** The tables, and the names of those classified KEEP. */
  datatype Schema = Schema(tables: map<string, Table>, keep: set<string>)

  datatype RowState = RowState(table: string, row: Row, excluded: Option<string>)

  datatype Exclusion = Exclusion(pk: seq<Value>, reason: string)

  datatype Missing = Missing(table: string, pk: seq<Value>, parent: string, parentColumns: seq<string>,
      values: seq<Value>)

  datatype Sanitization = Sanitization(table: string, pk: seq<Value>, columns: seq<string>, reason: string)

  datatype Preparation = Preparation(
    states: seq<RowState>,
    exclusions: map<string, seq<Exclusion>>,
    missing: seq<Missing>,
    sanitizations: seq<Sanitization>)

  // ---------------------------------------------------------------- rows and keys

  /** row.get(column) */
  function Get(row: Row, column: string): Value {
    if column in row then row[column] else Null
  }

  function Read(row: Row, columns: seq<string>): seq<Value> {
    seq(|columns|, i requires 0 <= i < |columns| => Get(row, columns[i]))
  }

  predicate AllNull(values: seq<Value>) {
    forall i :: 0 <= i < |values| ==> values[i] == Null
  }

  function Clear(row: Row, columns: seq<string>): Row {
    row + map c | c in columns :: Null
  }

  predicate Matches(states: seq<RowState>, fk: ForeignKey, values: seq<Value>, j: int) {
    0 <= j < |states| && states[j].table == fk.parent && Read(states[j].row, fk.parentColumns) == values
  }

  predicate Live(states: seq<RowState>, j: int) {
    0 <= j < |states| && states[j].excluded.None?
  }

  predicate Nullable(table: Table, fk: ForeignKey) {
    forall c :: c in fk.childColumns ==> c in table.nullable
  }

  /** What str.strip removes. */
  predicate IsSpace(c: char) {
    || c == ' ' || '\t' <= c <= '\r' || '\U{1c}' <= c <= '\U{1f}' || c == '\U{85}' || c == '\U{a0}' || c == '\U{1680}'
    || '\U{2000}' <= c <= '\U{200a}' || c == '\U{2028}' || c == '\U{2029}' || c == '\U{202f}' || c == '\U{205f}'
    || c == '\U{3000}'
  }

  function UpperAscii(c: char): char {
    if 'a' <= c <= 'z' then c - 'a' + 'A' else c
  }

  /** value.strip().upper().startswith("DEMO-") */
  predicate IsDemo(s: string) {
    if s != [] && IsSpace(s[0]) then IsDemo(s[1..])
    else |s| >= 5 && forall i :: 0 <= i < 5 ==> UpperAscii(s[i]) == "DEMO-"[i]
  }

  function DemoColumn(columns: seq<string>, row: Row): Option<string> {
    if columns == [] then None
    else if Get(row, columns[0]).Text? && IsDemo(Get(row, columns[0]).s) then Some("demo_identifier:" + columns[0])
    else DemoColumn(columns[1..], row)
  }

  const DEV_IDENTITY_ISSUER := "urn:resourceplanner:dev"

  function InitialExclusion(name: string, table: Table, row: Row): Option<string> {
    if name == "app_users" && Get(row, "issuer") == Text(DEV_IDENTITY_ISSUER) then Some("dev_identity_issuer")
    else DemoColumn(table.identity, row)
  }

  predicate Known(schema: Schema, states: seq<RowState>) {
    forall i :: 0 <= i < |states| ==> states[i].table in schema.tables
  }

  // ---------------------------------------------------------------- one foreign key of one row

  function Add(exclusions: map<string, seq<Exclusion>>, table: string, e: Exclusion): map<string, seq<Exclusion>> {
    exclusions[table := (if table in exclusions then exclusions[table] else []) + [e]]
  }

  function VisitKey(schema: Schema, p: Preparation, i: nat, fk: ForeignKey): (q: Preparation)
    requires Known(schema, p.states) && i < |p.states|
    ensures |q.states| == |p.states| && Known(schema, q.states)
  {
    var st := p.states[i];
    var table := schema.tables[st.table];
    var values := Read(st.row, fk.childColumns);
    var pk := Read(st.row, table.primaryKey);
    if fk.parent !in schema.keep || AllNull(values) then p
    else if forall j :: 0 <= j < |p.states| ==> !Matches(p.states, fk, values, j) then
      var m := Missing(st.table, pk, fk.parent, fk.parentColumns, values);
      if m in p.missing then p else p.(missing := p.missing + [m])
    else if exists j :: 0 <= j < |p.states| && Matches(p.states, fk, values, j) && Live(p.states, j) then p
    else if Nullable(table, fk) then
      p.(states := p.states[i := st.(row := Clear(st.row, fk.childColumns))],
         sanitizations := p.sanitizations +
             [Sanitization(st.table, Read(Clear(st.row, fk.childColumns), table.primaryKey), fk.childColumns,
                 "excluded_parent:" + fk.parent)])
    else
      var reason := "required_excluded_parent:" + fk.parent;
      p.(states := p.states[i := st.(excluded := Some(reason))],
         exclusions := Add(p.exclusions, st.table, Exclusion(pk, reason)))
  }

  /** The keys of one row in turn, until the row is excluded. */
  function VisitRow(schema: Schema, p: Preparation, i: nat, keys: seq<ForeignKey>): (q: Preparation)
    requires Known(schema, p.states) && i < |p.states|
    ensures |q.states| == |p.states| && Known(schema, q.states)
    decreases |keys|
  {
    if keys == [] || p.states[i].excluded.Some? then p
    else VisitRow(schema, VisitKey(schema, p, i, keys[0]), i, keys[1..])
  }

  function Keys(schema: Schema, states: seq<RowState>, i: nat): seq<ForeignKey>
    requires Known(schema, states) && i < |states|
  {
    schema.tables[states[i].table].keys
  }

  /** The first n rows in turn. */
  function Pass(schema: Schema, p: Preparation, n: nat): (q: Preparation)
    requires Known(schema, p.states) && n <= |p.states|
    ensures |q.states| == |p.states| && Known(schema, q.states)
  {
    if n == 0 then p
    else
      var q := Pass(schema, p, n - 1);
      VisitRow(schema, q, n - 1, Keys(schema, q.states, n - 1))
  }

  // ---------------------------------------------------------------- termination

  function NonNull(row: Row): set<string> {
    set c | c in row && row[c] != Null
  }

  function Weight(st: RowState): nat {
    (if st.excluded.None? then 1 else 0) + |NonNull(st.row)|
  }

  /** Rows still eligible plus cells still set. */
  function Measure(states: seq<RowState>): nat {
    if states == [] then 0 else Weight(states[0]) + Measure(states[1..])
  }

  lemma {:induction false} MeasureUpdate(states: seq<RowState>, i: nat, st: RowState)
    requires i < |states|
    ensures Measure(states[i := st]) == Measure(states) - Weight(states[i]) + Weight(st)
  {
    if i > 0 {
      MeasureUpdate(states[1..], i - 1, st);
      assert states[i := st][1..] == states[1..][i - 1 := st];
    } else {
      assert states[i := st][1..] == states[1..];
    }
  }

  lemma ClearLosesCells(row: Row, columns: seq<string>)
    requires !AllNull(Read(row, columns))
    ensures |NonNull(Clear(row, columns))| < |NonNull(row)|
  {
    var k :| 0 <= k < |columns| && Read(row, columns)[k] != Null;
    var before, after := NonNull(row), NonNull(Clear(row, columns));
    assert columns[k] in before && columns[k] !in after;
    assert after <= before - {columns[k]};
    SubsetSize(after, before - {columns[k]});
  }

  lemma {:induction false} SubsetSize(a: set<string>, b: set<string>)
    requires a <= b
    ensures |a| <= |b|
  {
    assert b == a + (b - a);
  }

  /** A visit leaves the rows alone or makes the measure smaller. */
  lemma VisitKeyProgress(schema: Schema, p: Preparation, i: nat, fk: ForeignKey)
    requires Known(schema, p.states) && i < |p.states| && p.states[i].excluded.None?
    ensures var q := VisitKey(schema, p, i, fk); q.states == p.states || Measure(q.states) < Measure(p.states)
  {
    var st := p.states[i];
    if !AllNull(Read(st.row, fk.childColumns)) {
      ClearLosesCells(st.row, fk.childColumns);
      MeasureUpdate(p.states, i, st.(row := Clear(st.row, fk.childColumns)));
      MeasureUpdate(p.states, i, st.(excluded := Some("required_excluded_parent:" + fk.parent)));
    }
  }

  lemma {:induction false} VisitRowProgress(schema: Schema, p: Preparation, i: nat, keys: seq<ForeignKey>)
    requires Known(schema, p.states) && i < |p.states|
    ensures var q := VisitRow(schema, p, i, keys); q.states == p.states || Measure(q.states) < Measure(p.states)
    decreases |keys|
  {
    if keys != [] && p.states[i].excluded.None? {
      VisitKeyProgress(schema, p, i, keys[0]);
      VisitRowProgress(schema, VisitKey(schema, p, i, keys[0]), i, keys[1..]);
    }
  }

  lemma {:induction false} PassProgress(schema: Schema, p: Preparation, n: nat)
    requires Known(schema, p.states) && n <= |p.states|
    ensures var q := Pass(schema, p, n); q.states == p.states || Measure(q.states) < Measure(p.states)
  {
    if n > 0 {
      PassProgress(schema, p, n - 1);
      var q := Pass(schema, p, n - 1);
      VisitRowProgress(schema, q, n - 1, Keys(schema, q.states, n - 1));
    }
  }

  /** while changed: one pass over all rows. */
  function Run(schema: Schema, p: Preparation): (q: Preparation)
    requires Known(schema, p.states)
    ensures |q.states| == |p.states| && Known(schema, q.states)
    decreases Measure(p.states)
  {
    var q := Pass(schema, p, |p.states|);
    PassProgress(schema, p, |p.states|);
    if q.states == p.states then q else Run(schema, q)
  }

  // ---------------------------------------------------------------- referential integrity at the end

  ghost predicate HasMatch(states: seq<RowState>, fk: ForeignKey, values: seq<Value>) {
    exists j :: Matches(states, fk, values, j)
  }

  ghost predicate HasLiveMatch(states: seq<RowState>, fk: ForeignKey, values: seq<Value>) {
    exists j :: Matches(states, fk, values, j) && Live(states, j)
  }

  function MissingEntry(schema: Schema, st: RowState, fk: ForeignKey): Missing
    requires st.table in schema.tables
  {
    Missing(st.table, Read(st.row, schema.tables[st.table].primaryKey), fk.parent, fk.parentColumns,
        Read(st.row, fk.childColumns))
  }

  /** The reference is unset, leads to an eligible row, or is reported as missing. */
  ghost predicate Settled(schema: Schema, p: Preparation, i: nat, fk: ForeignKey)
    requires Known(schema, p.states) && i < |p.states|
  {
    var values := Read(p.states[i].row, fk.childColumns);
    || fk.parent !in schema.keep
    || AllNull(values)
    || HasLiveMatch(p.states, fk, values)
    || (!HasMatch(p.states, fk, values) && MissingEntry(schema, p.states[i], fk) in p.missing)
  }

  lemma VisitKeySettles(schema: Schema, p: Preparation, i: nat, fk: ForeignKey)
    requires Known(schema, p.states) && i < |p.states| && p.states[i].excluded.None?
    requires VisitKey(schema, p, i, fk).states == p.states
    ensures Settled(schema, VisitKey(schema, p, i, fk), i, fk)
    ensures forall m :: m in p.missing ==> m in VisitKey(schema, p, i, fk).missing
  {
    ClearChangesRow(p.states, i, fk.childColumns);
  }

  lemma ClearChangesRow(states: seq<RowState>, i: nat, columns: seq<string>)
    requires i < |states|
    ensures !AllNull(Read(states[i].row, columns)) ==>
            states[i := states[i].(row := Clear(states[i].row, columns))] != states
  {
    if !AllNull(Read(states[i].row, columns)) {
      ClearLosesCells(states[i].row, columns);
      var other := states[i := states[i].(row := Clear(states[i].row, columns))];
      assert other[i].row == Clear(states[i].row, columns);
    }
  }

  /** Settled depends on the rows and, monotonically, on what was reported. */
  lemma SettledStays(schema: Schema, p: Preparation, q: Preparation, i: nat, fk: ForeignKey)
    requires Known(schema, p.states) && i < |p.states| && Settled(schema, p, i, fk)
    requires q.states == p.states && forall m :: m in p.missing ==> m in q.missing
    ensures Settled(schema, q, i, fk)
  {
  }

  lemma {:induction false} VisitRowSettles(schema: Schema, p: Preparation, i: nat, keys: seq<ForeignKey>)
    requires Known(schema, p.states) && i < |p.states| && p.states[i].excluded.None?
    requires VisitRow(schema, p, i, keys).states == p.states
    ensures var q := VisitRow(schema, p, i, keys);
            && (forall fk :: fk in keys ==> Settled(schema, q, i, fk))
            && (forall m :: m in p.missing ==> m in q.missing)
    decreases |keys|
  {
    if keys != [] {
      var r := VisitKey(schema, p, i, keys[0]);
      VisitKeyProgress(schema, p, i, keys[0]);
      VisitRowProgress(schema, r, i, keys[1..]);
      assert r.states == p.states;
      VisitKeySettles(schema, p, i, keys[0]);
      VisitRowSettles(schema, r, i, keys[1..]);
      SettledStays(schema, r, VisitRow(schema, p, i, keys), i, keys[0]);
      assert keys == [keys[0]] + keys[1..];
    }
  }

  lemma {:induction false} PassSettles(schema: Schema, p: Preparation, n: nat)
    requires Known(schema, p.states) && n <= |p.states|
    requires Pass(schema, p, n).states == p.states
    ensures var q := Pass(schema, p, n);
            && (forall i, fk :: 0 <= i < n && Live(p.states, i) && fk in Keys(schema, p.states, i) ==>
                 Settled(schema, q, i, fk))
            && (forall m :: m in p.missing ==> m in q.missing)
  {
    if n > 0 {
      var r, q := Pass(schema, p, n - 1), Pass(schema, p, n);
      PassProgress(schema, p, n - 1);
      VisitRowProgress(schema, r, n - 1, Keys(schema, r.states, n - 1));
      assert r.states == p.states;
      PassSettles(schema, p, n - 1);
      if Live(p.states, n - 1) { VisitRowSettles(schema, r, n - 1, Keys(schema, r.states, n - 1)); }
      forall i, fk | 0 <= i < n - 1 && Live(p.states, i) && fk in Keys(schema, p.states, i)
          ensures Settled(schema, q, i, fk) {
        SettledStays(schema, r, q, i, fk);
      }
    }
  }

  ghost predicate AllSettled(schema: Schema, q: Preparation)
    requires Known(schema, q.states)
  {
    forall i, fk :: 0 <= i < |q.states| && Live(q.states, i) && fk in Keys(schema, q.states, i) ==>
        Settled(schema, q, i, fk)
  }

  /** Whatever the schema: at the end, every reference of an eligible row to a kept table is unset, leads
      to an eligible row, or is reported as missing. */
  lemma {:induction false} EligibleRowsAreClosed(schema: Schema, p: Preparation)
    requires Known(schema, p.states)
    ensures AllSettled(schema, Run(schema, p))
    decreases Measure(p.states)
  {
    var q := Pass(schema, p, |p.states|);
    PassProgress(schema, p, |p.states|);
    if q.states == p.states {
      PassSettles(schema, p, |p.states|);
      assert Run(schema, p) == q;
      forall i, fk | 0 <= i < |q.states| && Live(q.states, i) && fk in Keys(schema, q.states, i)
          ensures Settled(schema, q, i, fk) {
        assert fk in Keys(schema, p.states, i) && Live(p.states, i);
      }
    } else {
      EligibleRowsAreClosed(schema, q);
      assert Run(schema, p) == Run(schema, q);
    }
  }

  // ---------------------------------------------------------------- every row is accounted for

  /** The rows of a table that are still eligible, in source order. */
  function EligibleRows(states: seq<RowState>, table: string): seq<Row> {
    if states == [] then []
    else
      (if states[0].table == table && states[0].excluded.None? then [states[0].row] else []) +
          EligibleRows(states[1..], table)
  }

  ghost function RowCount(states: seq<RowState>, table: string): nat {
    if states == [] then 0 else RowCount(states[1..], table) + (if states[0].table == table then 1 else 0)
  }

  datatype TableLine = TableLine(table: string, sourceRows: nat, eligibleRows: nat, excludedRows: nat)

  function ExcludedOf(p: Preparation, table: string): seq<Exclusion> {
    if table in p.exclusions then p.exclusions[table] else []
  }

  /** Source rows = eligible rows + listed exclusions, for every table. */
  ghost predicate Balanced(p: Preparation) {
    forall t :: RowCount(p.states, t) == |EligibleRows(p.states, t)| + |ExcludedOf(p, t)|
  }

  /** The rows of each table, excluded or not. */
  ghost predicate SameCounts(a: seq<RowState>, b: seq<RowState>) {
    forall t :: RowCount(a, t) == RowCount(b, t)
  }

  lemma {:induction false} CountUpdate(states: seq<RowState>, i: nat, st: RowState, t: string)
    requires i < |states| && states[i].table == st.table
    ensures RowCount(states[i := st], t) == RowCount(states, t)
    ensures |EligibleRows(states[i := st], t)| ==
            |EligibleRows(states, t)| - (if st.table == t && states[i].excluded.None? then 1 else 0)
            + (if st.table == t && st.excluded.None? then 1 else 0)
  {
    if i > 0 {
      CountUpdate(states[1..], i - 1, st, t);
      assert states[i := st][1..] == states[1..][i - 1 := st];
    } else {
      assert states[i := st][1..] == states[1..];
    }
  }

  lemma VisitKeyBalances(schema: Schema, p: Preparation, i: nat, fk: ForeignKey)
    requires Known(schema, p.states) && i < |p.states| && p.states[i].excluded.None? && Balanced(p)
    ensures Balanced(VisitKey(schema, p, i, fk)) && SameCounts(VisitKey(schema, p, i, fk).states, p.states)
  {
    var st, q := p.states[i], VisitKey(schema, p, i, fk);
    assert q.states == p.states || (exists s: RowState :: s.table == st.table && q.states == p.states[i := s]);
    forall t
      ensures RowCount(q.states, t) == |EligibleRows(q.states, t)| + |ExcludedOf(q, t)|
      ensures RowCount(q.states, t) == RowCount(p.states, t)
    {
      assert RowCount(p.states, t) == |EligibleRows(p.states, t)| + |ExcludedOf(p, t)|;
      CountUpdate(p.states, i, st.(row := Clear(st.row, fk.childColumns)), t);
      CountUpdate(p.states, i, st.(excluded := Some("required_excluded_parent:" + fk.parent)), t);
    }
  }

  lemma {:induction false} VisitRowBalances(schema: Schema, p: Preparation, i: nat, keys: seq<ForeignKey>)
    requires Known(schema, p.states) && i < |p.states| && Balanced(p)
    ensures Balanced(VisitRow(schema, p, i, keys)) && SameCounts(VisitRow(schema, p, i, keys).states, p.states)
    decreases |keys|
  {
    if keys != [] && p.states[i].excluded.None? {
      VisitKeyBalances(schema, p, i, keys[0]);
      VisitRowBalances(schema, VisitKey(schema, p, i, keys[0]), i, keys[1..]);
    }
  }

  lemma {:induction false} PassBalances(schema: Schema, p: Preparation, n: nat)
    requires Known(schema, p.states) && n <= |p.states| && Balanced(p)
    ensures Balanced(Pass(schema, p, n)) && SameCounts(Pass(schema, p, n).states, p.states)
  {
    if n > 0 {
      PassBalances(schema, p, n - 1);
      var q := Pass(schema, p, n - 1);
      VisitRowBalances(schema, q, n - 1, Keys(schema, q.states, n - 1));
    }
  }

  lemma {:induction false} RunBalances(schema: Schema, p: Preparation)
    requires Known(schema, p.states) && Balanced(p)
    ensures Balanced(Run(schema, p)) && SameCounts(Run(schema, p).states, p.states)
    decreases Measure(p.states)
  {
    PassProgress(schema, p, |p.states|);
    PassBalances(schema, p, |p.states|);
    var q := Pass(schema, p, |p.states|);
    if q.states != p.states { RunBalances(schema, q); }
  }

  // ---------------------------------------------------------------- the start

  ghost predicate KnownRows(schema: Schema, rows: seq<(string, Row)>) {
    forall i :: 0 <= i < |rows| ==> rows[i].0 in schema.tables
  }

  function StartRow(schema: Schema, row: (string, Row)): RowState
    requires row.0 in schema.tables
  {
    RowState(row.0, row.1, InitialExclusion(row.0, schema.tables[row.0], row.1))
  }

  ghost function StartWith(schema: Schema, p: Preparation, row: (string, Row)): Preparation
    requires row.0 in schema.tables
  {
    var st := StartRow(schema, row);
    p.(states := p.states + [st],
       exclusions := if st.excluded.None? then p.exclusions
                     else
                       Add(p.exclusions, st.table,
                           Exclusion(Read(st.row, schema.tables[st.table].primaryKey), st.excluded.value)))
  }

  /** All rows with their initial exclusions. */
  ghost function Start(schema: Schema, rows: seq<(string, Row)>): (p: Preparation)
    requires KnownRows(schema, rows)
    ensures |p.states| == |rows| && Known(schema, p.states)
    ensures forall i :: 0 <= i < |rows| ==> p.states[i] == StartRow(schema, rows[i])
  {
    if rows == [] then Preparation([], map[], [], [])
    else StartWith(schema, Start(schema, rows[..|rows| - 1]), rows[|rows| - 1])
  }

  lemma {:induction false} CountSnoc(states: seq<RowState>, st: RowState, t: string)
    ensures RowCount(states + [st], t) == RowCount(states, t) + (if st.table == t then 1 else 0)
    ensures |EligibleRows(states + [st], t)| ==
            |EligibleRows(states, t)| + (if st.table == t && st.excluded.None? then 1 else 0)
  {
    if states != [] {
      CountSnoc(states[1..], st, t);
      assert (states + [st])[1..] == states[1..] + [st];
    } else {
      assert (states + [st])[1..] == [];
    }
  }

  lemma StartWithBalances(schema: Schema, p: Preparation, row: (string, Row))
    requires row.0 in schema.tables && Balanced(p)
    ensures Balanced(StartWith(schema, p, row))
  {
    var q := StartWith(schema, p, row);
    forall t ensures RowCount(q.states, t) == |EligibleRows(q.states, t)| + |ExcludedOf(q, t)| {
      assert RowCount(p.states, t) == |EligibleRows(p.states, t)| + |ExcludedOf(p, t)|;
      CountSnoc(p.states, StartRow(schema, row), t);
    }
  }

  lemma {:induction false} StartBalances(schema: Schema, rows: seq<(string, Row)>)
    requires KnownRows(schema, rows)
    ensures Balanced(Start(schema, rows))
  {
    if rows != [] {
      StartBalances(schema, rows[..|rows| - 1]);
      StartWithBalances(schema, Start(schema, rows[..|rows| - 1]), rows[|rows| - 1]);
    }
  }

  // ---------------------------------------------------------------- the inventory

  function SourceRows(source: map<string, seq<Row>>, t: string): seq<Row> {
    if t in source then source[t] else []
  }

  function Tagged(t: string, rows: seq<Row>): (r: seq<(string, Row)>)
    ensures |r| == |rows| && forall i :: 0 <= i < |r| ==> r[i] == (t, rows[i])
  {
    seq(|rows|, i requires 0 <= i < |rows| => (t, rows[i]))
  }

  /** The rows of the kept tables, table by table. */
  function InventoryRows(keep: set<string>, tables: seq<string>, source: map<string, seq<Row>>): seq<(string, Row)> {
    if tables == [] then []
    else
      var t := tables[|tables| - 1];
      InventoryRows(keep, tables[..|tables| - 1], source) + (if t in keep then Tagged(t, SourceRows(source, t)) else [])
  }

  /** _copy_source_inventory: the rows of the kept tables and the number of rows of every table. */
  method CopyInventory(schema: Schema, tables: seq<string>, source: map<string, seq<Row>>)
    returns (rows: seq<(string, Row)>, counts: map<string, nat>)
    requires forall t :: t in tables ==> t in schema.tables
    ensures rows == InventoryRows(schema.keep, tables, source) && KnownRows(schema, rows)
    ensures forall t :: t in tables <==> t in counts
    ensures forall t :: t in tables ==> counts[t] == |SourceRows(source, t)|
  {
    rows, counts := [], map[];
    for k := 0 to |tables|
      invariant rows == InventoryRows(schema.keep, tables[..k], source) && KnownRows(schema, rows)
      invariant forall t :: t in tables[..k] <==> t in counts
      invariant forall t :: t in counts ==> counts[t] == |SourceRows(source, t)|
    {
      var t := tables[k];
      assert tables[..k + 1][..k] == tables[..k];
      assert tables[..k + 1] == tables[..k] + [t];
      counts := counts[t := |SourceRows(source, t)|];
      if t in schema.keep { rows := rows + Tagged(t, SourceRows(source, t)); }
    }
    assert tables[..|tables|] == tables;
  }

  ghost function RowsRead(rows: seq<(string, Row)>, t: string): nat {
    if rows == [] then 0 else RowsRead(rows[..|rows| - 1], t) + if rows[|rows| - 1].0 == t then 1 else 0
  }

  lemma {:induction false} StartCounts(schema: Schema, rows: seq<(string, Row)>, t: string)
    requires KnownRows(schema, rows)
    ensures RowCount(Start(schema, rows).states, t) == RowsRead(rows, t)
  {
    if rows != [] {
      var before := rows[..|rows| - 1];
      StartCounts(schema, before, t);
      CountSnoc(Start(schema, before).states, StartRow(schema, rows[|rows| - 1]), t);
    }
  }

  lemma {:induction false} RowsReadOf(rows: seq<(string, Row)>, u: string, more: seq<Row>, t: string)
    ensures RowsRead(rows + Tagged(u, more), t) == RowsRead(rows, t) + if u == t then |more| else 0
  {
    if more == [] {
      assert rows + Tagged(u, more) == rows;
    } else {
      var all, before := rows + Tagged(u, more), more[..|more| - 1];
      RowsReadOf(rows, u, before, t);
      assert all[..|all| - 1] == rows + Tagged(u, before);
    }
  }

  /** Every row of a kept table is read. */
  lemma {:induction false} InventoryIsComplete(keep: set<string>, tables: seq<string>, source: map<string, seq<Row>>,
      t: string)
    requires forall i, j :: 0 <= i < j < |tables| ==> tables[i] != tables[j]
    ensures RowsRead(InventoryRows(keep, tables, source), t) == if t in tables && t in keep then |SourceRows(source, t)|
            else 0
  {
    if tables != [] {
      var before, last := tables[..|tables| - 1], tables[|tables| - 1];
      InventoryIsComplete(keep, before, source, t);
      assert tables == before + [last];
      RowsReadOf(InventoryRows(keep, before, source), last, SourceRows(source, last), t);
      assert InventoryRows(keep, before, source) + [] == InventoryRows(keep, before, source);
    }
  }

  // ---------------------------------------------------------------- the least set of exclusions

  /** A reference of a row as it was at the start, all of whose parents are in E and of which there is one. */
  ghost predicate Dangling(init: seq<RowState>, E: set<nat>, i: nat, fk: ForeignKey)
    requires i < |init|
  {
    var values := Read(init[i].row, fk.childColumns);
    !AllNull(values) && HasMatch(init, fk, values) && forall j: nat :: Matches(init, fk, values, j) ==> j in E
  }

  /** A row must go when a reference that cannot be cleared dangles. */
  ghost predicate Blocked(schema: Schema, init: seq<RowState>, E: set<nat>, i: nat)
    requires Known(schema, init) && i < |init|
  {
    exists fk :: fk in Keys(schema, init, i) && fk.parent in schema.keep &&
        !Nullable(schema.tables[init[i].table], fk) && Dangling(init, E, i, fk)
  }

  ghost predicate Closed(schema: Schema, init: seq<RowState>, E: set<nat>)
    requires Known(schema, init)
  {
    forall i: nat :: i < |init| && (init[i].excluded.Some? || Blocked(schema, init, E, i)) ==> i in E
  }

  ghost predicate LeastClosed(schema: Schema, init: seq<RowState>, E: set<nat>)
    requires Known(schema, init)
  {
    Closed(schema, init, E) && forall C: set<nat> :: Closed(schema, init, C) ==> E <= C
  }

  ghost function ExcludedSet(states: seq<RowState>): set<nat> {
    set i: nat | i < |states| && states[i].excluded.Some?
  }

  /** Clearing a reference never touches another reference of the row, nor a column that references read. */
  ghost predicate Independent(schema: Schema) {
    forall t, a :: t in schema.tables && 0 <= a < |schema.tables[t].keys| ==> IndependentKey(schema, t, a)
  }

  ghost predicate IndependentKey(schema: Schema, t: string, a: nat)
    requires t in schema.tables && a < |schema.tables[t].keys|
  {
    var keys := schema.tables[t].keys;
    && (forall b :: 0 <= b < |keys| && b != a && keys[b].parent in schema.keep ==>
         Separate(schema, t, keys[a], keys[b].childColumns))
    && (forall s, fk :: s in schema.tables && fk in schema.tables[s].keys && fk.parent == t ==>
         Separate(schema, t, keys[a], fk.parentColumns))
  }

  ghost predicate Clearable(schema: Schema, t: string, fk: ForeignKey)
    requires t in schema.tables
  {
    fk.parent in schema.keep && Nullable(schema.tables[t], fk)
  }

  ghost predicate Separate(schema: Schema, t: string, fk: ForeignKey, columns: seq<string>)
    requires t in schema.tables
  {
    Clearable(schema, t, fk) ==> forall c :: c in fk.childColumns ==> c !in columns
  }

  ghost predicate Cleared(row: Row, columns: seq<string>) {
    forall c :: c in columns ==> Get(row, c) == Null
  }

  /** A cell holds its first value, or belongs to a cleared reference that dangles. */
  ghost predicate CellExplained(schema: Schema, init: seq<RowState>, states: seq<RowState>, i: nat, c: string)
    requires Known(schema, init) && i < |init| == |states|
  {
    || Get(states[i].row, c) == Get(init[i].row, c)
    || exists fk :: fk in Keys(schema, init, i) && c in fk.childColumns && Clearable(schema, init[i].table, fk)
                    && Cleared(states[i].row, fk.childColumns) && Dangling(init, ExcludedSet(states), i, fk)
  }

  ghost predicate Explained(schema: Schema, init: seq<RowState>, states: seq<RowState>)
    requires Known(schema, init)
  {
    && |states| == |init|
    && (forall i :: 0 <= i < |init| ==> states[i].table == init[i].table)
    && (forall i :: 0 <= i < |init| && init[i].excluded.Some? ==> states[i].excluded.Some?)
    && (forall i, c :: 0 <= i < |init| ==> CellExplained(schema, init, states, i, c))
    && (forall C :: Closed(schema, init, C) ==> ExcludedSet(states) <= C)
  }

  lemma ReadSame(a: Row, b: Row, columns: seq<string>)
    requires forall c :: c in columns ==> Get(a, c) == Get(b, c)
    ensures Read(a, columns) == Read(b, columns)
  {
  }

  lemma CellAsAtStart(schema: Schema, init: seq<RowState>, states: seq<RowState>, i: nat, c: string)
    requires Known(schema, init) && i < |init| == |states| && CellExplained(schema, init, states, i, c)
    requires forall fk ::
             fk in Keys(schema, init, i) && c in fk.childColumns && Clearable(schema, init[i].table, fk) ==>
                 !Cleared(states[i].row, fk.childColumns)
    ensures Get(states[i].row, c) == Get(init[i].row, c)
  {
  }

  /** Columns that no clearable reference of the row touches keep their first values. */
  lemma UntouchedColumns(schema: Schema, init: seq<RowState>, states: seq<RowState>, i: nat, columns: seq<string>)
    requires Known(schema, init) && Explained(schema, init, states) && i < |init|
    requires forall fk :: fk in Keys(schema, init, i) ==> Separate(schema, init[i].table, fk, columns)
    ensures Read(states[i].row, columns) == Read(init[i].row, columns)
  {
    forall c | c in columns ensures Get(states[i].row, c) == Get(init[i].row, c) {
      forall fk | fk in Keys(schema, init, i) && Clearable(schema, init[i].table, fk) ensures c !in fk.childColumns {
        assert Separate(schema, init[i].table, fk, columns);
      }
      CellAsAtStart(schema, init, states, i, c);
    }
    ReadSame(states[i].row, init[i].row, columns);
  }

  lemma ParentsAsAtStart(schema: Schema, init: seq<RowState>, states: seq<RowState>, s: string, fk: ForeignKey,
      values: seq<Value>)
    requires Known(schema, init) && Explained(schema, init, states) && Independent(schema)
    requires s in schema.tables && fk in schema.tables[s].keys
    ensures forall j :: Matches(states, fk, values, j) <==> Matches(init, fk, values, j)
  {
    forall j | 0 <= j < |init| && init[j].table == fk.parent
        ensures Read(states[j].row, fk.parentColumns) == Read(init[j].row, fk.parentColumns) {
      forall k | k in Keys(schema, init, j) ensures Separate(schema, init[j].table, k, fk.parentColumns) {
        var a :| 0 <= a < |Keys(schema, init, j)| && Keys(schema, init, j)[a] == k;
        assert IndependentKey(schema, init[j].table, a);
      }
      UntouchedColumns(schema, init, states, j, fk.parentColumns);
    }
  }

  lemma ColumnOwner(schema: Schema, t: string, k: ForeignKey, fk: ForeignKey, c: string)
    requires Independent(schema) && t in schema.tables && k in schema.tables[t].keys && fk in schema.tables[t].keys
    requires fk.parent in schema.keep && Clearable(schema, t, k) && c in k.childColumns && c in fk.childColumns
    ensures k == fk
  {
    var keys := schema.tables[t].keys;
    var a :| 0 <= a < |keys| && keys[a] == k;
    var b :| 0 <= b < |keys| && keys[b] == fk;
    assert IndependentKey(schema, t, a);
    assert a != b ==> Separate(schema, t, k, fk.childColumns);
  }

  lemma ClearedReadsNull(row: Row, columns: seq<string>)
    ensures Cleared(row, columns) <==> AllNull(Read(row, columns))
  {
    if AllNull(Read(row, columns)) {
      forall c | c in columns ensures Get(row, c) == Null {
        var k :| 0 <= k < |columns| && columns[k] == c;
        assert Read(row, columns)[k] == Null;
      }
    }
  }

  /** A reference to a kept table still has its first values, unless it was cleared. */
  lemma ReferenceAsAtStart(schema: Schema, init: seq<RowState>, states: seq<RowState>, i: nat, fk: ForeignKey)
    requires Known(schema, init) && Explained(schema, init, states) && Independent(schema)
    requires i < |init| && fk in Keys(schema, init, i) && fk.parent in schema.keep
    requires Clearable(schema, init[i].table, fk) ==> !AllNull(Read(states[i].row, fk.childColumns))
    ensures Read(states[i].row, fk.childColumns) == Read(init[i].row, fk.childColumns)
  {
    ClearedReadsNull(states[i].row, fk.childColumns);
    forall c | c in fk.childColumns ensures Get(states[i].row, c) == Get(init[i].row, c) {
      forall k | k in Keys(schema, init, i) && c in k.childColumns && Clearable(schema, init[i].table, k)
        ensures !Cleared(states[i].row, k.childColumns)
      {
        ColumnOwner(schema, init[i].table, k, fk, c);
      }
      CellAsAtStart(schema, init, states, i, c);
    }
    ReadSame(states[i].row, init[i].row, fk.childColumns);
  }

  lemma DanglingGrows(init: seq<RowState>, E: set<nat>, F: set<nat>, i: nat, fk: ForeignKey)
    requires i < |init| && Dangling(init, E, i, fk) && E <= F
    ensures Dangling(init, F, i, fk)
  {
  }

  /** A reference whose parents exist and are all excluded dangles. */
  lemma FoundDangling(schema: Schema, init: seq<RowState>, states: seq<RowState>, i: nat, fk: ForeignKey)
    requires Known(schema, init) && Explained(schema, init, states) && Independent(schema)
    requires i < |init| && fk in Keys(schema, init, i) && fk.parent in schema.keep
    requires var values := Read(states[i].row, fk.childColumns);
             !AllNull(values) && HasMatch(states, fk, values) && !HasLiveMatch(states, fk, values)
    ensures Dangling(init, ExcludedSet(states), i, fk)
  {
    var values := Read(states[i].row, fk.childColumns);
    ReferenceAsAtStart(schema, init, states, i, fk);
    ParentsAsAtStart(schema, init, states, init[i].table, fk, values);
    forall j: nat | Matches(init, fk, values, j) ensures j in ExcludedSet(states) {
      assert Matches(states, fk, values, j);
      assert Live(states, j) ==> HasLiveMatch(states, fk, values);
    }
    var j :| Matches(states, fk, values, j);
    assert Matches(init, fk, values, j);
  }

  lemma ExcludeKeepsExplained(schema: Schema, init: seq<RowState>, states: seq<RowState>, i: nat, fk: ForeignKey,
      reason: string)
    requires Known(schema, init) && Explained(schema, init, states)
    requires i < |init| && fk in Keys(schema, init, i) && fk.parent in schema.keep &&
             !Nullable(schema.tables[init[i].table], fk)
    requires Dangling(init, ExcludedSet(states), i, fk)
    ensures Explained(schema, init, states[i := states[i].(excluded := Some(reason))])
  {
    var after := states[i := states[i].(excluded := Some(reason))];
    assert ExcludedSet(after) == ExcludedSet(states) + {i};
    forall k, c | 0 <= k < |init| ensures CellExplained(schema, init, after, k, c) {
      assert CellExplained(schema, init, states, k, c);
    }
    forall C | Closed(schema, init, C) ensures ExcludedSet(after) <= C {
      DanglingGrows(init, ExcludedSet(states), C, i, fk);
      assert Blocked(schema, init, C, i);
    }
  }

  lemma ClearKeepsExplained(schema: Schema, init: seq<RowState>, states: seq<RowState>, i: nat, fk: ForeignKey)
    requires Known(schema, init) && Explained(schema, init, states)
    requires i < |init| && fk in Keys(schema, init, i) && Clearable(schema, init[i].table, fk)
    requires Dangling(init, ExcludedSet(states), i, fk)
    ensures Explained(schema, init, states[i := states[i].(row := Clear(states[i].row, fk.childColumns))])
  {
    var after := states[i := states[i].(row := Clear(states[i].row, fk.childColumns))];
    assert ExcludedSet(after) == ExcludedSet(states);
    forall k, c | 0 <= k < |init| ensures CellExplained(schema, init, after, k, c) {
      assert CellExplained(schema, init, states, k, c);
      if k == i {
        assert Cleared(after[i].row, fk.childColumns);
        if c !in fk.childColumns && Get(states[i].row, c) != Get(init[i].row, c) {
          var g :| g in Keys(schema, init, i) && c in g.childColumns && Clearable(schema, init[i].table, g)
                   && Cleared(states[i].row, g.childColumns) && Dangling(init, ExcludedSet(states), i, g);
          assert Cleared(after[i].row, g.childColumns);
        }
      }
    }
  }

  lemma VisitKeyExplained(schema: Schema, init: seq<RowState>, p: Preparation, i: nat, fk: ForeignKey)
    requires Known(schema, init) && Explained(schema, init, p.states) && Known(schema, p.states) && Independent(schema)
    requires i < |init| && fk in Keys(schema, init, i) && p.states[i].excluded.None?
    ensures Explained(schema, init, VisitKey(schema, p, i, fk).states)
  {
    var values := Read(p.states[i].row, fk.childColumns);
    if fk.parent in schema.keep && !AllNull(values) && HasMatch(p.states, fk, values) &&
        !HasLiveMatch(p.states, fk, values) {
      FoundDangling(schema, init, p.states, i, fk);
      if Nullable(schema.tables[init[i].table], fk) {
        ClearKeepsExplained(schema, init, p.states, i, fk);
      } else {
        ExcludeKeepsExplained(schema, init, p.states, i, fk, "required_excluded_parent:" + fk.parent);
      }
    }
  }

  lemma {:induction false} VisitRowExplained(schema: Schema, init: seq<RowState>, p: Preparation, i: nat,
      keys: seq<ForeignKey>)
    requires Known(schema, init) && Explained(schema, init, p.states) && Known(schema, p.states) && Independent(schema)
    requires i < |init| && forall fk :: fk in keys ==> fk in Keys(schema, init, i)
    ensures Explained(schema, init, VisitRow(schema, p, i, keys).states)
    decreases |keys|
  {
    if keys != [] && p.states[i].excluded.None? {
      VisitKeyExplained(schema, init, p, i, keys[0]);
      VisitRowExplained(schema, init, VisitKey(schema, p, i, keys[0]), i, keys[1..]);
    }
  }

  lemma {:induction false} PassExplained(schema: Schema, init: seq<RowState>, p: Preparation, n: nat)
    requires Known(schema, init) && Explained(schema, init, p.states) && Known(schema, p.states) && Independent(schema)
    requires n <= |init|
    ensures Explained(schema, init, Pass(schema, p, n).states)
  {
    if n > 0 {
      PassExplained(schema, init, p, n - 1);
      var q := Pass(schema, p, n - 1);
      VisitRowExplained(schema, init, q, n - 1, Keys(schema, q.states, n - 1));
    }
  }

  lemma {:induction false} RunExplained(schema: Schema, init: seq<RowState>, p: Preparation)
    requires Known(schema, init) && Explained(schema, init, p.states) && Known(schema, p.states) && Independent(schema)
    ensures Explained(schema, init, Run(schema, p).states)
    decreases Measure(p.states)
  {
    PassProgress(schema, p, |p.states|);
    PassExplained(schema, init, p, |init|);
    var q := Pass(schema, p, |p.states|);
    if q.states != p.states { RunExplained(schema, init, q); }
  }

  /** What the preparation computes, whatever the order of tables, rows and keys: the excluded rows are
      the least closed set, and a cell of an eligible row is cleared exactly when it belongs to a clearable
      reference that dangles. */
  ghost predicate IsOutcome(schema: Schema, init: seq<RowState>, states: seq<RowState>)
    requires Known(schema, init)
  {
    && |states| == |init|
    && LeastClosed(schema, init, ExcludedSet(states))
    && forall i, c :: 0 <= i < |init| && Live(states, i) ==>
         Get(states[i].row, c) == FinalCell(schema, init, ExcludedSet(states), i, c)
  }

  ghost function FinalCell(schema: Schema, init: seq<RowState>, E: set<nat>, i: nat, c: string): Value
    requires Known(schema, init) && i < |init|
  {
    if exists fk :: fk in Keys(schema, init, i) && c in fk.childColumns && Clearable(schema, init[i].table, fk) &&
        Dangling(init, E, i, fk)
    then Null else Get(init[i].row, c)
  }

  lemma SettledRequiredKey(schema: Schema, init: seq<RowState>, p: Preparation, i: nat, fk: ForeignKey)
    requires Known(schema, init) && Explained(schema, init, p.states) && Known(schema, p.states) && Independent(schema)
    requires i < |init| && fk in Keys(schema, init, i) && fk.parent in schema.keep
    requires Settled(schema, p, i, fk) && !Clearable(schema, init[i].table, fk)
    ensures !Dangling(init, ExcludedSet(p.states), i, fk)
  {
    var values := Read(p.states[i].row, fk.childColumns);
    ReferenceAsAtStart(schema, init, p.states, i, fk);
    ParentsAsAtStart(schema, init, p.states, init[i].table, fk, values);
    if HasLiveMatch(p.states, fk, values) {
      var j :| Matches(p.states, fk, values, j) && Live(p.states, j);
      assert Matches(init, fk, values, j) && j !in ExcludedSet(p.states);
    }
  }

  lemma SettledClearableKey(schema: Schema, init: seq<RowState>, p: Preparation, i: nat, fk: ForeignKey)
    requires Known(schema, init) && Explained(schema, init, p.states) && Known(schema, p.states) && Independent(schema)
    requires i < |init| && fk in Keys(schema, init, i) && Clearable(schema, init[i].table, fk)
    requires Settled(schema, p, i, fk) && Dangling(init, ExcludedSet(p.states), i, fk)
    ensures Cleared(p.states[i].row, fk.childColumns)
  {
    var values := Read(p.states[i].row, fk.childColumns);
    ClearedReadsNull(p.states[i].row, fk.childColumns);
    if !AllNull(values) {
      ReferenceAsAtStart(schema, init, p.states, i, fk);
      ParentsAsAtStart(schema, init, p.states, init[i].table, fk, values);
      assert false;
    }
  }

  /** The excluded rows are the least fixpoint. */
  lemma PreparationIsLeastFixpoint(schema: Schema, p: Preparation)
    requires Known(schema, p.states) && Independent(schema)
    ensures IsOutcome(schema, p.states, Run(schema, p).states)
  {
    var init, q := p.states, Run(schema, p);
    assert Explained(schema, init, p.states);
    RunExplained(schema, init, p);
    EligibleRowsAreClosed(schema, p);
    var E := ExcludedSet(q.states);
    forall i: nat | i < |init| && i !in E ensures init[i].excluded.None? && !Blocked(schema, init, E, i) {
      forall fk | fk in Keys(schema, init, i) && fk.parent in schema.keep && !Nullable(schema.tables[init[i].table], fk)
        ensures !Dangling(init, E, i, fk)
      {
        SettledRequiredKey(schema, init, q, i, fk);
      }
    }
    forall i, c | 0 <= i < |init| && Live(q.states, i)
        ensures Get(q.states[i].row, c) == FinalCell(schema, init, E, i, c) {
      assert CellExplained(schema, init, q.states, i, c);
      forall fk | fk in Keys(schema, init, i) && c in fk.childColumns && Clearable(schema, init[i].table, fk) &&
          Dangling(init, E, i, fk)
        ensures Get(q.states[i].row, c) == Null
      {
        SettledClearableKey(schema, init, q, i, fk);
      }
    }
  }

  // ---------------------------------------------------------------- the shape of the program's schema

  /** A key of one column, in no other key of its table, that refers to a column that is never null. */
  ghost predicate ProgramKey(schema: Schema, t: string, fk: ForeignKey)
    requires t in schema.tables
  {
    var keys := schema.tables[t].keys;
    && |fk.childColumns| == |fk.parentColumns| == 1
    && multiset(keys)[fk] == 1 &&
         (forall other :: other in keys && other != fk ==> other.childColumns != fk.childColumns)
    && (fk.parent in schema.tables ==> fk.parentColumns[0] !in schema.tables[fk.parent].nullable)
  }

  /** All keys of the declared models are of this shape. */
  ghost predicate ProgramShaped(schema: Schema) {
    forall t, fk :: t in schema.tables && fk in schema.tables[t].keys ==> ProgramKey(schema, t, fk)
  }

  lemma OnceMeansDistinct(keys: seq<ForeignKey>, a: nat, b: nat)
    requires a < b < |keys| && multiset(keys)[keys[a]] == 1
    ensures keys[a] != keys[b]
  {
    assert keys == keys[..b] + keys[b..];
    assert keys[..b][a] == keys[a] && keys[b..][0] == keys[b];
    assert keys[a] in multiset(keys[..b]) && keys[b] in multiset(keys[b..]);
  }

  lemma ProgramKeyIsIndependent(schema: Schema, t: string, a: nat)
    requires ProgramShaped(schema) && t in schema.tables && a < |schema.tables[t].keys|
    ensures IndependentKey(schema, t, a)
  {
    var keys := schema.tables[t].keys;
    forall b | 0 <= b < |keys| && b != a ensures Separate(schema, t, keys[a], keys[b].childColumns) {
      assert ProgramKey(schema, t, keys[a]) && ProgramKey(schema, t, keys[b]);
      if a < b { OnceMeansDistinct(keys, a, b); } else { OnceMeansDistinct(keys, b, a); }
      assert keys[a].childColumns == [keys[a].childColumns[0]] && keys[b].childColumns == [keys[b].childColumns[0]];
    }
    forall s, fk | s in schema.tables && fk in schema.tables[s].keys && fk.parent == t
      ensures Separate(schema, t, keys[a], fk.parentColumns)
    {
      assert ProgramKey(schema, s, fk) && ProgramKey(schema, t, keys[a]);
    }
  }

  /** So in a schema of the program clearing a reference never touches another. */
  lemma ProgramSchemasAreIndependent(schema: Schema)
    requires ProgramShaped(schema)
    ensures Independent(schema)
  {
    forall t, a | t in schema.tables && 0 <= a < |schema.tables[t].keys| ensures IndependentKey(schema, t, a) {
      ProgramKeyIsIndependent(schema, t, a);
    }
  }

  /** And its excluded rows are the least fixpoint. */
  lemma ProgramPreparationIsLeastFixpoint(schema: Schema, p: Preparation)
    requires Known(schema, p.states) && ProgramShaped(schema)
    ensures IsOutcome(schema, p.states, Run(schema, p).states)
  {
    ProgramSchemasAreIndependent(schema);
    PreparationIsLeastFixpoint(schema, p);
  }

  // ---------------------------------------------------------------- order of tables, rows and keys

  ghost predicate SameUpToKeyOrder(a: Schema, b: Schema) {
    && a.keep == b.keep && a.tables.Keys == b.tables.Keys
    && forall t :: t in a.tables ==>
         a.tables[t].nullable == b.tables[t].nullable && forall fk :: fk in a.tables[t].keys <==> fk in b.tables[t].keys
  }

  /** pi moves the rows of one list to their places in the other; rho moves them back. */
  ghost predicate Reorders(a: seq<RowState>, b: seq<RowState>, pi: seq<nat>, rho: seq<nat>) {
    && |a| == |b| == |pi| == |rho|
    && (forall i :: 0 <= i < |a| ==> pi[i] < |b| && rho[pi[i]] == i && b[pi[i]] == a[i])
    && (forall j :: 0 <= j < |b| ==> rho[j] < |a| && pi[rho[j]] == j && a[rho[j]] == b[j])
  }

  ghost function Moved(pi: seq<nat>, E: set<nat>): set<nat> {
    set i: nat | i < |pi| && pi[i] in E
  }

  lemma DanglingMoves(a: seq<RowState>, b: seq<RowState>, pi: seq<nat>, rho: seq<nat>, E: set<nat>, i: nat,
      fk: ForeignKey)
    requires Reorders(a, b, pi, rho) && i < |a|
    ensures Dangling(a, Moved(pi, E), i, fk) <==> Dangling(b, E, pi[i], fk)
  {
    var values := Read(a[i].row, fk.childColumns);
    forall j: nat | j < |a| ensures Matches(a, fk, values, j) <==> Matches(b, fk, values, pi[j]) {}
    if HasMatch(a, fk, values) {
      var j :| Matches(a, fk, values, j);
      assert Matches(b, fk, values, pi[j]);
    }
    if HasMatch(b, fk, values) {
      var j :| Matches(b, fk, values, j);
      assert Matches(a, fk, values, rho[j]);
    }
    if Dangling(a, Moved(pi, E), i, fk) {
      forall j: nat | Matches(b, fk, values, j) ensures j in E { assert Matches(a, fk, values, rho[j]); }
    }
  }

  lemma ClosedMoves(sa: Schema, sb: Schema, a: seq<RowState>, b: seq<RowState>, pi: seq<nat>, rho: seq<nat>,
      E: set<nat>)
    requires SameUpToKeyOrder(sa, sb) && Known(sa, a) && Known(sb, b) && Reorders(a, b, pi, rho)
    requires Closed(sb, b, E)
    ensures Closed(sa, a, Moved(pi, E))
  {
    forall i: nat | i < |a| && (a[i].excluded.Some? || Blocked(sa, a, Moved(pi, E), i)) ensures pi[i] in E {
      if a[i].excluded.None? {
        var fk :| fk in Keys(sa, a, i) && fk.parent in sa.keep && !Nullable(sa.tables[a[i].table], fk) &&
            Dangling(a, Moved(pi, E), i, fk);
        DanglingMoves(a, b, pi, rho, E, i, fk);
        assert fk in Keys(sb, b, pi[i]);
        assert Blocked(sb, b, E, pi[i]);
      }
    }
  }

  lemma LeastMoves(sa: Schema, sb: Schema, a: seq<RowState>, b: seq<RowState>, pi: seq<nat>, rho: seq<nat>,
      E: set<nat>, F: set<nat>)
    requires SameUpToKeyOrder(sa, sb) && Known(sa, a) && Known(sb, b) && Reorders(a, b, pi, rho)
    requires LeastClosed(sa, a, E) && LeastClosed(sb, b, F)
    requires forall i :: i in E ==> i < |a|
    ensures E == Moved(pi, F)
  {
    ClosedMoves(sa, sb, a, b, pi, rho, F);
    ClosedMoves(sb, sa, b, a, rho, pi, E);
    assert F <= Moved(rho, E);
    forall i | i in Moved(pi, F) ensures i in E { assert pi[i] in F; }
  }

  /** The eligible rows and their contents do not depend on the order of tables, rows or foreign keys. */
  lemma OrderIsIrrelevant(sa: Schema, sb: Schema, p: Preparation, q: Preparation, pi: seq<nat>, rho: seq<nat>, i: nat,
      c: string)
    requires SameUpToKeyOrder(sa, sb) && Independent(sa) && Independent(sb)
    requires Known(sa, p.states) && Known(sb, q.states) && Reorders(p.states, q.states, pi, rho) && i < |p.states|
    ensures Live(Run(sa, p).states, i) <==> Live(Run(sb, q).states, pi[i])
    ensures Live(Run(sa, p).states, i) ==> Get(Run(sa, p).states[i].row, c) == Get(Run(sb, q).states[pi[i]].row, c)
  {
    var a, b := p.states, q.states;
    PreparationIsLeastFixpoint(sa, p);
    PreparationIsLeastFixpoint(sb, q);
    var E, F := ExcludedSet(Run(sa, p).states), ExcludedSet(Run(sb, q).states);
    LeastMoves(sa, sb, a, b, pi, rho, E, F);
    assert i in E <==> pi[i] in F;
    FinalCellMoves(sa, sb, a, b, pi, rho, F, i, c);
  }

  lemma FinalCellMoves(sa: Schema, sb: Schema, a: seq<RowState>, b: seq<RowState>, pi: seq<nat>, rho: seq<nat>,
      F: set<nat>, i: nat, c: string)
    requires SameUpToKeyOrder(sa, sb) && Known(sa, a) && Known(sb, b) && Reorders(a, b, pi, rho) && i < |a|
    ensures FinalCell(sa, a, Moved(pi, F), i, c) == FinalCell(sb, b, F, pi[i], c)
  {
    forall fk ensures Dangling(a, Moved(pi, F), i, fk) <==>
        Dangling(b, F, pi[i], fk) { DanglingMoves(a, b, pi, rho, F, i, fk); }
    forall fk ensures fk in Keys(sa, a, i) <==> fk in Keys(sb, b, pi[i]) {}
  }

  /** In a schema of the program the outcome depends neither on the order in which tables and rows are visited nor
      on that in which the keys of a table are, a set in the metadata. */
  lemma ProgramOrderIsIrrelevant(
    sa: Schema, sb: Schema, p: Preparation, q: Preparation, pi: seq<nat>, rho: seq<nat>, i: nat, c: string)
    requires SameUpToKeyOrder(sa, sb) && ProgramShaped(sa) && ProgramShaped(sb)
    requires Known(sa, p.states) && Known(sb, q.states) && Reorders(p.states, q.states, pi, rho) && i < |p.states|
    ensures Live(Run(sa, p).states, i) <==> Live(Run(sb, q).states, pi[i])
    ensures Live(Run(sa, p).states, i) ==> Get(Run(sa, p).states[i].row, c) == Get(Run(sb, q).states[pi[i]].row, c)
  {
    ProgramSchemasAreIndependent(sa);
    ProgramSchemasAreIndependent(sb);
    OrderIsIrrelevant(sa, sb, p, q, pi, rho, i, c);
  }

  // ---------------------------------------------------------------- why independence matters

  /** A child with an optional reference on column a and a required one on columns a and b, whose two
      parents are excluded. */
  function SharedColumnSchema(optionalFirst: bool): Schema {
    var optional, required := ForeignKey(["a"], "P", ["x"]), ForeignKey(["a", "b"], "Q", ["x", "y"]);
    Schema(map["P" := Table([], {}, [], []), "Q" := Table([], {}, [], []),
               "C" := Table(["b"], {"a"}, [], if optionalFirst then [optional, required] else [required, optional])],
           {"P", "Q", "C"})
  }

  function SharedColumnRows(): seq<RowState> {
    [RowState("P", map["x" := Number(1)], Some("dev")),
     RowState("Q", map["x" := Number(1), "y" := Number(2)], Some("dev")),
     RowState("C", map["a" := Number(1), "b" := Number(2)], None)]
  }

  lemma {:induction false} ExcludedStays(schema: Schema, p: Preparation, i: nat, k: nat, keys: seq<ForeignKey>)
    requires Known(schema, p.states) && i < |p.states| && k < |p.states| && p.states[k].excluded.Some?
    ensures VisitRow(schema, p, i, keys).states[k].excluded.Some?
    decreases |keys|
  {
    if keys != [] && p.states[i].excluded.None? { ExcludedStays(schema, VisitKey(schema, p, i, keys[0]), i, k,
        keys[1..]); }
  }

  lemma {:induction false} ExcludedStaysInPass(schema: Schema, p: Preparation, n: nat, k: nat)
    requires Known(schema, p.states) && n <= |p.states| && k < |p.states| && p.states[k].excluded.Some?
    ensures Pass(schema, p, n).states[k].excluded.Some?
  {
    if n > 0 {
      ExcludedStaysInPass(schema, p, n - 1, k);
      var q := Pass(schema, p, n - 1);
      ExcludedStays(schema, q, n - 1, k, Keys(schema, q.states, n - 1));
    }
  }

  lemma {:induction false} ExcludedStaysInRun(schema: Schema, p: Preparation, k: nat)
    requires Known(schema, p.states) && k < |p.states| && p.states[k].excluded.Some?
    ensures Run(schema, p).states[k].excluded.Some?
    decreases Measure(p.states)
  {
    PassProgress(schema, p, |p.states|);
    ExcludedStaysInPass(schema, p, |p.states|, k);
    var q := Pass(schema, p, |p.states|);
    if q.states != p.states { ExcludedStaysInRun(schema, q, k); }
  }

  /** The first two rows are excluded, so a pass only visits the child. */
  lemma ChildOnlyPass(optionalFirst: bool, p: Preparation)
    requires |p.states| == 3 && Known(SharedColumnSchema(optionalFirst), p.states)
    requires p.states[0].excluded.Some? && p.states[1].excluded.Some? && p.states[2].table == "C"
    ensures var schema := SharedColumnSchema(optionalFirst);
            Pass(schema, p, 3) == VisitRow(schema, p, 2, schema.tables["C"].keys)
  {
    var schema := SharedColumnSchema(optionalFirst);
    assert Pass(schema, p, 0) == p;
    assert Pass(schema, p, 1) == p;
    assert Pass(schema, p, 2) == p;
  }

  function ClearedChild(): seq<RowState> {
    SharedColumnRows()[2 := RowState("C", map["a" := Null, "b" := Number(2)], None)]
  }

  lemma VisitOptional(p: Preparation)
    requires p.states == SharedColumnRows()
    ensures Known(SharedColumnSchema(true), p.states)
    ensures VisitKey(SharedColumnSchema(true), p, 2, ForeignKey(["a"], "P", ["x"])).states == ClearedChild()
  {
    var fk := ForeignKey(["a"], "P", ["x"]);
    var values := Read(p.states[2].row, fk.childColumns);
    assert values[0] == Number(1);
    assert Read(p.states[0].row, ["x"]) == values;
    assert Matches(p.states, fk, values, 0);
    assert Nullable(SharedColumnSchema(true).tables["C"], fk);
    assert Clear(p.states[2].row, fk.childColumns) == map["a" := Null, "b" := Number(2)];
  }

  lemma ClearedIsStable(p: Preparation)
    requires p.states == ClearedChild()
    ensures Known(SharedColumnSchema(true), p.states)
    ensures VisitKey(SharedColumnSchema(true), p, 2, ForeignKey(["a"], "P", ["x"])).states == p.states
    ensures VisitKey(SharedColumnSchema(true), p, 2, ForeignKey(["a", "b"], "Q", ["x", "y"])).states == p.states
  {
    var fk := ForeignKey(["a", "b"], "Q", ["x", "y"]);
    var values := Read(p.states[2].row, fk.childColumns);
    assert values[0] == Null && values[1] == Number(2);
    assert Read(p.states[1].row, ["x", "y"])[0] == Number(1);
    assert forall j :: !Matches(p.states, fk, values, j);
  }

  lemma VisitRequired(p: Preparation)
    requires p.states == SharedColumnRows()
    ensures Known(SharedColumnSchema(false), p.states)
    ensures VisitKey(SharedColumnSchema(false), p, 2, ForeignKey(["a", "b"], "Q", ["x", "y"])).states[2].excluded.Some?
  {
    var fk := ForeignKey(["a", "b"], "Q", ["x", "y"]);
    var values := Read(p.states[2].row, fk.childColumns);
    assert values[0] == Number(1) && values[1] == Number(2);
    assert Read(p.states[1].row, ["x", "y"]) == values;
    assert Matches(p.states, fk, values, 1);
    assert "b" in fk.childColumns && !Nullable(SharedColumnSchema(false).tables["C"], fk);
  }

  /** Why no column may be in two keys. In a schema that the program does not have, where two references share a
      column, the outcome depends on their order: visited first, the optional one is cleared and the row stays;
      visited second, the required one has already excluded the row. */
  lemma SharedColumnsMakeOrderMatter(p: Preparation)
    requires p == Preparation(SharedColumnRows(), map[], [], [])
    ensures SameUpToKeyOrder(SharedColumnSchema(true), SharedColumnSchema(false))
    ensures Known(SharedColumnSchema(true), p.states) && Known(SharedColumnSchema(false), p.states)
    ensures Live(Run(SharedColumnSchema(true), p).states, 2)
    ensures !Live(Run(SharedColumnSchema(false), p).states, 2)
  {
    OptionalFirst(p);
    RequiredFirst(p);
  }

  lemma OptionalFirst(p: Preparation)
    requires p.states == SharedColumnRows()
    ensures Known(SharedColumnSchema(true), p.states) && Live(Run(SharedColumnSchema(true), p).states, 2)
  {
    var schema := SharedColumnSchema(true);
    var optional, required := ForeignKey(["a"], "P", ["x"]), ForeignKey(["a", "b"], "Q", ["x", "y"]);
    VisitOptional(p);
    var q := VisitKey(schema, p, 2, optional);
    ClearedIsStable(q);
    ChildOnlyPass(true, p);
    var r := VisitKey(schema, q, 2, required);
    assert [optional, required][1..] == [required];
    assert VisitRow(schema, q, 2, [required]) == VisitRow(schema, r, 2, [required][1..]) == r;
    assert Pass(schema, p, 3) == r && r.states == ClearedChild();
    ChildOnlyPass(true, r);
    ClearedIsStable(r);
    var t := VisitKey(schema, r, 2, optional);
    ClearedIsStable(t);
    assert VisitRow(schema, t, 2, [required]) == VisitRow(schema, VisitKey(schema, t, 2, required), 2, [required][1..]);
    assert Pass(schema, r, 3).states == r.states;
    assert r.states != p.states by { assert r.states[2].row["a"] == Null && p.states[2].row["a"] == Number(1); }
    assert Run(schema, p) == Run(schema, r) == Pass(schema, r, 3);
  }

  lemma RequiredFirst(p: Preparation)
    requires p.states == SharedColumnRows()
    ensures Known(SharedColumnSchema(false), p.states) && Run(SharedColumnSchema(false), p).states[2].excluded.Some?
  {
    var schema := SharedColumnSchema(false);
    var optional, required := ForeignKey(["a"], "P", ["x"]), ForeignKey(["a", "b"], "Q", ["x", "y"]);
    VisitRequired(p);
    ChildOnlyPass(false, p);
    var q := VisitKey(schema, p, 2, required);
    assert [required, optional][1..] == [optional];
    assert VisitRow(schema, q, 2, [optional]) == q;
    assert Pass(schema, p, 3) == q && q.states != p.states;
    ExcludedStaysInRun(schema, q, 2);
  }

  // ---------------------------------------------------------------- the program

  class RowPreparation {
    const schema: Schema
    var states: seq<RowState>
    var exclusions: map<string, seq<Exclusion>>
    var missing: seq<Missing>
    var seen: set<Missing>
    var sanitizations: seq<Sanitization>

    ghost function View(): Preparation
      reads this
    {
      Preparation(states, exclusions, missing, sanitizations)
    }

    ghost predicate Valid()
      reads this
    {
      Known(schema, states) && (forall m :: m in seen <==> m in missing) && Balanced(View())
    }

    constructor (schema: Schema, rows: seq<(string, Row)>)
      requires KnownRows(schema, rows)
      ensures this.schema == schema && Valid() && View() == Start(schema, rows)
    {
      this.schema, this.states, this.exclusions, this.missing, this.seen, this.sanitizations :=
          schema, [], map[], [], {}, [];
      new;
      for i := 0 to |rows|
        invariant Valid() && seen == {} && View() == Start(schema, rows[..i])
      {
        assert rows[..i + 1][..i] == rows[..i];
        Load(rows[i]);
      }
      assert rows[..|rows|] == rows;
    }

    method Load(row: (string, Row))
      requires Valid() && row.0 in schema.tables
      modifies this`states, this`exclusions
      ensures Valid() && View() == StartWith(schema, old(View()), row)
    {
      StartWithBalances(schema, View(), row);
      var st := StartRow(schema, row);
      states := states + [st];
      if st.excluded.Some? {
        exclusions := Add(exclusions, st.table,
            Exclusion(Read(st.row, schema.tables[st.table].primaryKey), st.excluded.value));
      }
    }

    /** One foreign key of an eligible row. */
    method Visit(i: nat, fk: ForeignKey) returns (changed: bool)
      requires Valid() && i < |states| && states[i].excluded.None?
      modifies this`states, this`exclusions, this`missing, this`seen, this`sanitizations
      ensures Valid() && View() == VisitKey(schema, old(View()), i, fk)
      ensures changed <==> states != old(states)
    {
      changed := false;
      ghost var after := VisitKey(schema, View(), i, fk);
      assert Balanced(after) by { VisitKeyBalances(schema, View(), i, fk); }
      var st, table := states[i], schema.tables[states[i].table];
      if fk.parent !in schema.keep { return; }
      var values := Read(st.row, fk.childColumns);
      if AllNull(values) { return; }
      var matched, alive := false, false;
      for j := 0 to |states|
        invariant matched <==> exists k :: 0 <= k < j && Matches(states, fk, values, k)
        invariant alive <==> exists k :: 0 <= k < j && Matches(states, fk, values, k) && Live(states, k)
      {
        if Matches(states, fk, values, j) {
          matched := true;
          alive := alive || states[j].excluded.None?;
        }
      }
      if !matched {
        var m := Missing(st.table, Read(st.row, table.primaryKey), fk.parent, fk.parentColumns, values);
        if m !in seen {
          seen := seen + {m};
          missing := missing + [m];
        }
        return;
      }
      if alive { return; }
      if Nullable(table, fk) {
        ClearChangesRow(states, i, fk.childColumns);
        states := states[i := st.(row := Clear(st.row, fk.childColumns))];
        sanitizations := sanitizations +
            [Sanitization(st.table, Read(states[i].row, table.primaryKey), fk.childColumns, "excluded_parent:" +
                fk.parent)];
      } else {
        var reason := "required_excluded_parent:" + fk.parent;
        states := states[i := st.(excluded := Some(reason))];
        exclusions := Add(exclusions, st.table, Exclusion(Read(st.row, table.primaryKey), reason));
      }
      changed := true;
    }

    /** The keys of one row, until it is excluded. */
    method VisitKeys(i: nat) returns (changed: bool)
      requires Valid() && i < |states|
      modifies this`states, this`exclusions, this`missing, this`seen, this`sanitizations
      ensures Valid() && View() == VisitRow(schema, old(View()), i, Keys(schema, old(states), i))
      ensures changed <==> states != old(states)
    {
      changed := false;
      var keys := Keys(schema, states, i);
      var k := 0;
      while k < |keys| && states[i].excluded.None?
        invariant 0 <= k <= |keys| && Valid() && |states| == |old(states)|
        invariant VisitRow(schema, View(), i, keys[k..]) == VisitRow(schema, old(View()), i, keys)
        invariant if changed then Measure(states) < Measure(old(states)) else states == old(states)
      {
        VisitKeyProgress(schema, View(), i, keys[k]);
        assert keys[k..][0] == keys[k] && keys[k..][1..] == keys[k + 1..];
        var c := Visit(i, keys[k]);
        changed := changed || c;
        k := k + 1;
      }
    }

    /** while changed: visit every row that is still eligible. */
    method Prepare()
      requires Valid()
      modifies this`states, this`exclusions, this`missing, this`seen, this`sanitizations
      ensures Valid() && View() == Run(schema, old(View()))
    {
      var changed := true;
      ghost var before := View();
      while changed
        invariant Valid()
        invariant if changed then Run(schema, View()) == Run(schema, old(View()))
                  else View() == Run(schema, old(View()))
        decreases Measure(states), changed
      {
        changed := false;
        before := View();
        PassProgress(schema, before, |states|);
        for i := 0 to |states|
          invariant Valid() && |states| == |before.states| && View() == Pass(schema, before, i)
          invariant changed <==> states != before.states
        {
          PassProgress(schema, before, i);
          VisitRowProgress(schema, View(), i, Keys(schema, states, i));
          var c := VisitKeys(i);
          changed := changed || c;
        }
      }
    }

    /** The rows of one table handed to the transfer. */
    method Eligible(table: string) returns (rows: seq<Row>)
      requires Valid()
      ensures rows == EligibleRows(states, table)
    {
      rows := [];
      var i := |states|;
      while i > 0
        invariant 0 <= i <= |states| && rows == EligibleRows(states[i..], table)
      {
        i := i - 1;
        assert states[i..][0] == states[i] && states[i..][1..] == states[i + 1..];
        if states[i].table == table && states[i].excluded.None? { rows := [states[i].row] + rows; }
      }
    }

    /** One line of _table_report: eligible and excluded rows add up to the rows read of a kept table, and to the
        rows counted of any other. */
    method ReportLine(table: string, source: nat) returns (line: TableLine)
      requires Valid()
      ensures line.table == table && line.sourceRows == source
      ensures line.eligibleRows == if table in schema.keep then |EligibleRows(states, table)| else 0
      ensures line.eligibleRows + line.excludedRows == if table in schema.keep then RowCount(states, table) else source
    {
      if table in schema.keep {
        var rows := Eligible(table);
        assert RowCount(View().states, table) == |EligibleRows(View().states, table)| + |ExcludedOf(View(), table)|;
        line := TableLine(table, source, |rows|, |if table in exclusions then exclusions[table] else []|);
      } else {
        line := TableLine(table, source, 0, source);
      }
    }

    method Report(tables: seq<string>, sourceCounts: map<string, nat>) returns (lines: seq<TableLine>)
      requires Valid()
      ensures |lines| == |tables|
      ensures forall k :: 0 <= k < |lines| ==>
                && lines[k].table == tables[k]
                && lines[k].sourceRows == (if tables[k] in sourceCounts then sourceCounts[tables[k]] else 0)
                && lines[k].eligibleRows == (if tables[k] in schema.keep then |EligibleRows(states, tables[k])| else 0)
                && lines[k].eligibleRows + lines[k].excludedRows ==
                     if tables[k] in schema.keep then RowCount(states, tables[k]) else lines[k].sourceRows
    {
      lines := [];
      for k := 0 to |tables|
        invariant |lines| == k
        invariant forall l :: 0 <= l < k ==>
                    && lines[l].table == tables[l]
                    && lines[l].sourceRows == (if tables[l] in sourceCounts then sourceCounts[tables[l]] else 0)
                    && lines[l].eligibleRows ==
                         (if tables[l] in schema.keep then |EligibleRows(states, tables[l])| else 0)
                    && lines[l].eligibleRows + lines[l].excludedRows ==
                         if tables[l] in schema.keep then RowCount(states, tables[l]) else lines[l].sourceRows
      {
        var line := ReportLine(tables[k], if tables[k] in sourceCounts then sourceCounts[tables[k]] else 0);
        lines := lines + [line];
      }
    }
  }

  /** Inventory, preparation and report one after the other: in every line the rows of the source are the eligible
      rows plus the excluded ones, so no row is lost. */
  method InventoryReport(schema: Schema, tables: seq<string>, source: map<string, seq<Row>>)
    returns (lines: seq<TableLine>)
    requires forall t :: t in tables ==> t in schema.tables
    requires forall i, j :: 0 <= i < j < |tables| ==> tables[i] != tables[j]
    ensures |lines| == |tables|
    ensures forall k :: 0 <= k < |lines| ==>
              && lines[k].table == tables[k] && lines[k].sourceRows == |SourceRows(source, tables[k])|
              && lines[k].sourceRows == lines[k].eligibleRows + lines[k].excludedRows
              && (tables[k] !in schema.keep ==> lines[k].eligibleRows == 0)
  {
    var rows, counts := CopyInventory(schema, tables, source);
    var preparation := new RowPreparation(schema, rows);
    StartBalances(schema, rows);
    RunBalances(schema, Start(schema, rows));
    preparation.Prepare();
    lines := preparation.Report(tables, counts);
    forall k | 0 <= k < |lines| && tables[k] in schema.keep
      ensures RowCount(preparation.states, tables[k]) == |SourceRows(source, tables[k])|
    {
      StartCounts(schema, rows, tables[k]);
      InventoryIsComplete(schema.keep, tables, source, tables[k]);
    }
  }
}
