/** What the preparation of the cutover does with the rows read, in terms of those rows alone
    (tools/cutover_sqlite_v2_to_sqlserver.py, _initial_exclusion and _prepare_keep_rows): which rows go at first,
    which go with them, what is cleared, and what is reported. */
module CutoverOutcome {
  import opened Options
  import opened CutoverPreparation

  // ---------------------------------------------------------------- the rows that go at first

  /** After k blanks the text goes on with DEMO-, in any case. */
  predicate DemoAfter(s: string, k: nat) {
    && k + 5 <= |s| && (forall j :: 0 <= j < k ==> IsSpace(s[j]))
    && (s[k] == 'D' || s[k] == 'd') && (s[k + 1] == 'E' || s[k + 1] == 'e') && (s[k + 2] == 'M' || s[k + 2] == 'm')
    && (s[k + 3] == 'O' || s[k + 3] == 'o') && s[k + 4] == '-'
  }

  ghost predicate DemoCell(row: Row, c: string) {
    Get(row, c).Text? && exists k: nat :: DemoAfter(Get(row, c).s, k)
  }

  ghost predicate DevelopmentUser(table: string, row: Row) {
    table == "app_users" && Get(row, "issuer") == Text("urn:resourceplanner:dev")
  }

  /** An account of the development issuer, or a row with a demonstration identifier. */
  ghost predicate Marked(schema: Schema, table: string, row: Row)
    requires table in schema.tables
  {
    DevelopmentUser(table, row) || exists c :: c in schema.tables[table].identity && DemoCell(row, c)
  }

  lemma {:induction false} DemoExactly(s: string)
    ensures IsDemo(s) <==> exists k: nat :: DemoAfter(s, k)
  {
    if s != [] && IsSpace(s[0]) {
      DemoExactly(s[1..]);
      if k: nat :| DemoAfter(s[1..], k) { assert DemoAfter(s, k + 1); }
      if k: nat :| DemoAfter(s, k) { assert DemoAfter(s[1..], k - 1); }
    } else {
      assert "DEMO-"[0] == 'D' && "DEMO-"[1] == 'E' && "DEMO-"[2] == 'M' && "DEMO-"[3] == 'O' && "DEMO-"[4] == '-';
      if IsDemo(s) { StartsAtOnce(s); }
    }
  }

  lemma StartsAtOnce(s: string)
    requires |s| >= 5 && forall i :: 0 <= i < 5 ==> UpperAscii(s[i]) == "DEMO-"[i]
    ensures DemoAfter(s, 0)
  {
    assert UpperAscii(s[0]) == 'D' && UpperAscii(s[1]) == 'E' && UpperAscii(s[2]) == 'M' && UpperAscii(s[3]) == 'O';
    assert UpperAscii(s[4]) == '-';
  }

  lemma {:induction false} DemoColumnExactly(columns: seq<string>, row: Row)
    ensures DemoColumn(columns, row).Some? <==> exists c :: c in columns && DemoCell(row, c)
    ensures DemoColumn(columns, row).Some? ==>
              exists c :: c in columns && DemoCell(row, c) && DemoColumn(columns, row).value == "demo_identifier:" + c
  {
    if columns != [] {
      DemoColumnExactly(columns[1..], row);
      assert columns == [columns[0]] + columns[1..];
      if Get(row, columns[0]).Text? { DemoExactly(Get(row, columns[0]).s); }
      if DemoCell(row, columns[0]) {
        assert DemoColumn(columns, row) == Some("demo_identifier:" + columns[0]);
      } else {
        assert DemoColumn(columns, row) == DemoColumn(columns[1..], row);
      }
    }
  }

  /** A row starts excluded if and only if it is marked, and the reason says why. */
  lemma InitialExclusionExactly(schema: Schema, table: string, row: Row)
    requires table in schema.tables
    ensures var reason := InitialExclusion(table, schema.tables[table], row);
            && (reason.Some? <==> Marked(schema, table, row))
            && (DevelopmentUser(table, row) ==> reason == Some("dev_identity_issuer"))
            && (reason.Some? && !DevelopmentUser(table, row) ==>
                 exists c :: c in schema.tables[table].identity && DemoCell(row, c) &&
                   reason.value == "demo_identifier:" + c)
  {
    DemoColumnExactly(schema.tables[table].identity, row);
  }

  // ---------------------------------------------------------------- the rows that go with them

  /** Row j is what the key of row i refers to. */
  predicate RefersTo(rows: seq<(string, Row)>, i: nat, fk: ForeignKey, j: nat)
    requires i < |rows| && j < |rows|
  {
    rows[j].0 == fk.parent && Read(rows[j].1, fk.parentColumns) == Read(rows[i].1, fk.childColumns)
  }

  /** A reference of row i to a kept table, of which some column is set. */
  ghost predicate Referring(schema: Schema, rows: seq<(string, Row)>, i: nat, fk: ForeignKey)
    requires KnownRows(schema, rows) && i < |rows|
  {
    && fk in schema.tables[rows[i].0].keys && fk.parent in schema.keep
    && exists c :: c in fk.childColumns && Get(rows[i].1, c) != Null
  }

  /** Its parents are there, and all of them in E. */
  ghost predicate Orphaned(schema: Schema, rows: seq<(string, Row)>, E: set<nat>, i: nat, fk: ForeignKey)
    requires KnownRows(schema, rows) && i < |rows|
  {
    && Referring(schema, rows, i, fk)
    && (exists j: nat :: j < |rows| && RefersTo(rows, i, fk, j))
    && (forall j: nat :: j < |rows| && RefersTo(rows, i, fk, j) ==> j in E)
  }

  /** No row is its parent. */
  ghost predicate Parentless(schema: Schema, rows: seq<(string, Row)>, i: nat, fk: ForeignKey)
    requires KnownRows(schema, rows) && i < |rows|
  {
    Referring(schema, rows, i, fk) && forall j: nat :: j < |rows| ==> !RefersTo(rows, i, fk, j)
  }

  ghost predicate Optional(schema: Schema, table: string, fk: ForeignKey)
    requires table in schema.tables
  {
    forall c :: c in fk.childColumns ==> c in schema.tables[table].nullable
  }

  ghost predicate GoesWith(schema: Schema, rows: seq<(string, Row)>, E: set<nat>, i: nat)
    requires KnownRows(schema, rows) && i < |rows|
  {
    exists fk :: Orphaned(schema, rows, E, i, fk) && !Optional(schema, rows[i].0, fk)
  }

  /** E has the marked rows, and every row of which a required parent is there but all such parents are in E. */
  ghost predicate Swept(schema: Schema, rows: seq<(string, Row)>, E: set<nat>)
    requires KnownRows(schema, rows)
  {
    forall i: nat :: i < |rows| && (Marked(schema, rows[i].0, rows[i].1) || GoesWith(schema, rows, E, i)) ==> i in E
  }

  /** The rows that go: the least such set. */
  ghost predicate Goes(schema: Schema, rows: seq<(string, Row)>, E: set<nat>)
    requires KnownRows(schema, rows)
  {
    Swept(schema, rows, E) && forall F: set<nat> :: Swept(schema, rows, F) ==> E <= F
  }

  lemma ReadsSet(row: Row, columns: seq<string>)
    ensures !AllNull(Read(row, columns)) <==> exists c :: c in columns && Get(row, c) != Null
  {
    if !AllNull(Read(row, columns)) {
      var k :| 0 <= k < |columns| && Read(row, columns)[k] != Null;
      assert columns[k] in columns;
    }
    if c :| c in columns && Get(row, c) != Null {
      var k :| 0 <= k < |columns| && columns[k] == c;
      assert Read(row, columns)[k] != Null;
    }
  }

  lemma DanglingExactly(schema: Schema, rows: seq<(string, Row)>, E: set<nat>, i: nat, fk: ForeignKey)
    requires KnownRows(schema, rows) && i < |rows|
    ensures fk in schema.tables[rows[i].0].keys && fk.parent in schema.keep &&
            Dangling(Start(schema, rows).states, E, i, fk)
            <==> Orphaned(schema, rows, E, i, fk)
  {
    var init := Start(schema, rows).states;
    var values := Read(init[i].row, fk.childColumns);
    ReadsSet(rows[i].1, fk.childColumns);
    forall j: nat | j < |rows| ensures Matches(init, fk, values, j) <==> RefersTo(rows, i, fk, j) {
    }
    if HasMatch(init, fk, values) {
      var j :| Matches(init, fk, values, j);
      assert RefersTo(rows, i, fk, j);
    }
    if j: nat :| j < |rows| && RefersTo(rows, i, fk, j) { assert Matches(init, fk, values, j); }
  }

  lemma SweptExactly(schema: Schema, rows: seq<(string, Row)>, E: set<nat>)
    requires KnownRows(schema, rows)
    ensures Closed(schema, Start(schema, rows).states, E) <==> Swept(schema, rows, E)
  {
    var init := Start(schema, rows).states;
    forall i: nat | i < |rows|
      ensures init[i].excluded.Some? <==> Marked(schema, rows[i].0, rows[i].1)
      ensures Blocked(schema, init, E, i) <==> GoesWith(schema, rows, E, i)
    {
      InitialExclusionExactly(schema, rows[i].0, rows[i].1);
      forall fk ensures (fk in Keys(schema, init, i) && fk.parent in schema.keep && Dangling(init, E, i, fk))
          <==> Orphaned(schema, rows, E, i, fk) {
        DanglingExactly(schema, rows, E, i, fk);
      }
    }
  }

  lemma GoesExactly(schema: Schema, rows: seq<(string, Row)>, E: set<nat>)
    requires KnownRows(schema, rows)
    ensures LeastClosed(schema, Start(schema, rows).states, E) <==> Goes(schema, rows, E)
  {
    SweptExactly(schema, rows, E);
    forall F: set<nat> ensures Closed(schema, Start(schema, rows).states, F) <==> Swept(schema, rows, F) {
      SweptExactly(schema, rows, F);
    }
  }

  // ---------------------------------------------------------------- what is left of the others

  /** A cell of a row that stays: cleared if it belongs to an optional reference whose parents all go, else as read. */
  ghost predicate CellStays(schema: Schema, rows: seq<(string, Row)>, E: set<nat>, i: nat, c: string, v: Value)
    requires KnownRows(schema, rows) && i < |rows|
  {
    if exists fk: ForeignKey :: c in fk.childColumns && Optional(schema, rows[i].0, fk) &&
        Orphaned(schema, rows, E, i, fk)
    then v == Null else v == Get(rows[i].1, c)
  }

  /** The positions of the rows of a table that stay, from i on. */
  ghost function Staying(rows: seq<(string, Row)>, E: set<nat>, table: string, i: nat): seq<nat>
    requires i <= |rows|
    decreases |rows| - i
  {
    if i == |rows| then []
    else (if rows[i].0 == table && i !in E then [i] else []) + Staying(rows, E, table, i + 1)
  }

  ghost predicate RowStays(schema: Schema, rows: seq<(string, Row)>, E: set<nat>, i: nat, left: Row)
    requires KnownRows(schema, rows)
  {
    i < |rows| && forall c :: CellStays(schema, rows, E, i, c, Get(left, c))
  }

  /** The rows of a table that stay, in the order in which they were read. */
  ghost predicate Stay(schema: Schema, rows: seq<(string, Row)>, E: set<nat>, table: string, left: seq<Row>)
    requires KnownRows(schema, rows)
  {
    var positions := Staying(rows, E, table, 0);
    |left| == |positions| && forall k :: 0 <= k < |left| ==> RowStays(schema, rows, E, positions[k], left[k])
  }

  ghost predicate Rising(s: seq<nat>) {
    forall j, k :: 0 <= j < k < |s| ==> s[j] < s[k]
  }

  lemma RisingPrepend(i: nat, rest: seq<nat>)
    requires Rising(rest) && forall p :: p in rest ==> i < p
    ensures Rising([i] + rest)
  {
    var all := [i] + rest;
    forall j, k | 0 <= j < k < |all| ensures all[j] < all[k] {
      if j > 0 { assert rest[j - 1] < rest[k - 1]; } else { assert rest[k - 1] in rest; }
    }
  }

  lemma {:induction false} StayingExactly(rows: seq<(string, Row)>, E: set<nat>, table: string, i: nat)
    requires i <= |rows|
    ensures forall p :: p in Staying(rows, E, table, i) <==> i <= p < |rows| && rows[p].0 == table && p !in E
    ensures Rising(Staying(rows, E, table, i))
    decreases |rows| - i
  {
    if i < |rows| {
      StayingExactly(rows, E, table, i + 1);
      if rows[i].0 == table && i !in E { RisingPrepend(i, Staying(rows, E, table, i + 1)); }
    }
  }

  lemma {:induction false} EligibleAreStaying(states: seq<RowState>, rows: seq<(string, Row)>, table: string, i: nat)
    requires |states| == |rows| && i <= |rows| && forall k :: 0 <= k < |rows| ==> states[k].table == rows[k].0
    ensures var positions, left := Staying(rows, ExcludedSet(states), table, i), EligibleRows(states[i..], table);
            |left| == |positions| && forall k :: 0 <= k < |left| ==>
              positions[k] < |states| && left[k] == states[positions[k]].row && states[positions[k]].excluded.None?
    decreases |rows| - i
  {
    if i < |rows| {
      EligibleAreStaying(states, rows, table, i + 1);
      assert states[i..][0] == states[i] && states[i..][1..] == states[i + 1..];
    }
  }

  lemma FinalCellStays(schema: Schema, rows: seq<(string, Row)>, E: set<nat>, i: nat, c: string)
    requires KnownRows(schema, rows) && i < |rows|
    ensures CellStays(schema, rows, E, i, c, FinalCell(schema, Start(schema, rows).states, E, i, c))
  {
    var init := Start(schema, rows).states;
    forall fk ensures (fk in Keys(schema, init, i) && fk.parent in schema.keep && Dangling(init, E, i, fk))
        <==> Orphaned(schema, rows, E, i, fk) {
      DanglingExactly(schema, rows, E, i, fk);
    }
  }

  /** What a schema of the program keeps: the rows read without the least set that goes, with their optional references
      to it cleared. */
  lemma PreparationKeeps(schema: Schema, rows: seq<(string, Row)>) returns (E: set<nat>)
    requires KnownRows(schema, rows) && ProgramShaped(schema)
    ensures Goes(schema, rows, E)
    ensures E == ExcludedSet(Run(schema, Start(schema, rows)).states)
    ensures forall t :: Stay(schema, rows, E, t, EligibleRows(Run(schema, Start(schema, rows)).states, t))
  {
    var p := Start(schema, rows);
    var q := Run(schema, p);
    E := ExcludedSet(q.states);
    ProgramPreparationIsLeastFixpoint(schema, p);
    GoesExactly(schema, rows, E);
    RunOnlyClears(schema, p.states, p);
    forall t ensures Stay(schema, rows, E, t, EligibleRows(q.states, t)) {
      assert q.states[0..] == q.states;
      EligibleAreStaying(q.states, rows, t, 0);
      var positions, left := Staying(rows, E, t, 0), EligibleRows(q.states, t);
      forall k | 0 <= k < |left| ensures RowStays(schema, rows, E, positions[k], left[k]) {
        forall c ensures CellStays(schema, rows, E, positions[k], c, Get(left[k], c)) {
          FinalCellStays(schema, rows, E, positions[k], c);
        }
      }
    }
  }

  // ---------------------------------------------------------------- whatever the schema

  /** A preparation only excludes rows and empties cells. */
  ghost predicate OnlyClears(init: seq<RowState>, states: seq<RowState>) {
    && |states| == |init|
    && forall i :: 0 <= i < |init| ==> ClearsRow(init[i], states[i])
  }

  ghost predicate ClearsRow(a: RowState, b: RowState) {
    && a.table == b.table && (a.excluded.Some? ==> b.excluded.Some?)
    && forall c :: Get(b.row, c) == Get(a.row, c) || Get(b.row, c) == Null
  }

  lemma ClearsRowComposes(a: RowState, b: RowState, c: RowState)
    requires ClearsRow(a, b) && ClearsRow(b, c)
    ensures ClearsRow(a, c)
  {
  }

  lemma VisitKeyOnlyClears(schema: Schema, init: seq<RowState>, p: Preparation, i: nat, fk: ForeignKey)
    requires Known(schema, p.states) && OnlyClears(init, p.states) && i < |init| && p.states[i].excluded.None?
    ensures OnlyClears(init, VisitKey(schema, p, i, fk).states)
  {
    var q := VisitKey(schema, p, i, fk);
    assert ClearsRow(p.states[i], q.states[i]);
    ClearsRowComposes(init[i], p.states[i], q.states[i]);
    assert forall k :: 0 <= k < |init| && k != i ==> q.states[k] == p.states[k];
  }

  lemma {:induction false} VisitRowOnlyClears(schema: Schema, init: seq<RowState>, p: Preparation, i: nat,
      keys: seq<ForeignKey>)
    requires Known(schema, p.states) && OnlyClears(init, p.states) && i < |init|
    ensures OnlyClears(init, VisitRow(schema, p, i, keys).states)
    decreases |keys|
  {
    if keys != [] && p.states[i].excluded.None? {
      VisitKeyOnlyClears(schema, init, p, i, keys[0]);
      VisitRowOnlyClears(schema, init, VisitKey(schema, p, i, keys[0]), i, keys[1..]);
    }
  }

  lemma {:induction false} PassOnlyClears(schema: Schema, init: seq<RowState>, p: Preparation, n: nat)
    requires Known(schema, p.states) && OnlyClears(init, p.states) && n <= |init|
    ensures OnlyClears(init, Pass(schema, p, n).states)
  {
    if n > 0 {
      PassOnlyClears(schema, init, p, n - 1);
      var q := Pass(schema, p, n - 1);
      VisitRowOnlyClears(schema, init, q, n - 1, Keys(schema, q.states, n - 1));
    }
  }

  lemma {:induction false} RunOnlyClears(schema: Schema, init: seq<RowState>, p: Preparation)
    requires Known(schema, p.states) && OnlyClears(init, p.states)
    ensures OnlyClears(init, Run(schema, p).states)
    decreases Measure(p.states)
  {
    PassProgress(schema, p, |p.states|);
    PassOnlyClears(schema, init, p, |p.states|);
    var q := Pass(schema, p, |p.states|);
    if q.states != p.states { RunOnlyClears(schema, init, q); }
  }

  lemma ClearedStaysUnmarked(schema: Schema, a: RowState, b: RowState)
    requires a.table in schema.tables && ClearsRow(a, b) && Marked(schema, b.table, b.row)
    ensures Marked(schema, a.table, a.row)
  {
    assert forall c :: Get(b.row, c).Text? ==> Get(b.row, c) == Get(a.row, c);
    assert forall c :: DemoCell(b.row, c) ==> DemoCell(a.row, c);
    assert DevelopmentUser(b.table, b.row) ==> DevelopmentUser(a.table, a.row);
  }

  lemma {:induction false} EligibleRow(states: seq<RowState>, table: string, r: Row) returns (i: nat)
    requires r in EligibleRows(states, table)
    ensures i < |states| && states[i].table == table && states[i].excluded.None? && states[i].row == r
  {
    if states[0].table == table && states[0].excluded.None? && states[0].row == r {
      i := 0;
    } else {
      var k := EligibleRow(states[1..], table, r);
      i := k + 1;
    }
  }

  /** No marked row is ever handed to the transfer. */
  lemma NoMarkedRowIsEligible(schema: Schema, rows: seq<(string, Row)>, table: string, r: Row)
    requires KnownRows(schema, rows) && r in EligibleRows(Run(schema, Start(schema, rows)).states, table)
    ensures table in schema.tables && !Marked(schema, table, r)
  {
    var p := Start(schema, rows);
    RunOnlyClears(schema, p.states, p);
    var i := EligibleRow(Run(schema, p).states, table, r);
    InitialExclusionExactly(schema, rows[i].0, rows[i].1);
    if Marked(schema, table, r) { ClearedStaysUnmarked(schema, p.states[i], Run(schema, p).states[i]); }
  }

  // ---------------------------------------------------------------- what is reported

  /** The primary key of a table is never null. */
  ghost predicate KeysAreSet(schema: Schema) {
    forall t, c :: t in schema.tables && c in schema.tables[t].primaryKey ==> c !in schema.tables[t].nullable
  }

  ghost function PrimaryKey(schema: Schema, rows: seq<(string, Row)>, i: nat): seq<Value>
    requires KnownRows(schema, rows) && i < |rows|
  {
    Read(rows[i].1, schema.tables[rows[i].0].primaryKey)
  }

  /** A report of a missing parent names a reference of a row that is not marked, and no row is its parent. */
  ghost predicate Reports(schema: Schema, rows: seq<(string, Row)>, m: Missing, i: nat, fk: ForeignKey)
    requires KnownRows(schema, rows)
  {
    && i < |rows| && !Marked(schema, rows[i].0, rows[i].1) && Parentless(schema, rows, i, fk)
    && m == Missing(rows[i].0, PrimaryKey(schema, rows, i), fk.parent, fk.parentColumns,
                    Read(rows[i].1, fk.childColumns))
  }

  /** A report of a cleared reference names an optional one whose parents all go. */
  ghost predicate Clears(schema: Schema, rows: seq<(string, Row)>, E: set<nat>, z: Sanitization, i: nat, fk: ForeignKey)
    requires KnownRows(schema, rows)
  {
    && i < |rows| && Optional(schema, rows[i].0, fk) && Orphaned(schema, rows, E, i, fk)
    && z == Sanitization(rows[i].0, PrimaryKey(schema, rows, i), fk.childColumns, "excluded_parent:" + fk.parent)
  }

  ghost predicate ReportsAreReal(schema: Schema, rows: seq<(string, Row)>, p: Preparation)
    requires KnownRows(schema, rows)
  {
    && (forall m :: m in p.missing ==> exists i, fk :: Reports(schema, rows, m, i, fk))
    && (forall z :: z in p.sanitizations ==> exists i, fk :: Clears(schema, rows, ExcludedSet(p.states), z, i, fk))
  }

  /** Every cell that was emptied is reported with its row. */
  ghost predicate EmptiedIsReported(schema: Schema, rows: seq<(string, Row)>, p: Preparation, i: nat, c: string)
    requires KnownRows(schema, rows) && i < |rows| == |p.states|
  {
    Get(p.states[i].row, c) != Get(rows[i].1, c) ==>
      exists z :: z in p.sanitizations && z.table == rows[i].0 && z.pk == PrimaryKey(schema, rows, i) && c in z.columns
  }

  /** The listed exclusions of a table are its excluded rows, with the reasons they were excluded for. */
  ghost function Entries(schema: Schema, states: seq<RowState>, table: string): multiset<Exclusion>
    requires Known(schema, states)
  {
    if states == [] then multiset{}
    else
      Entries(schema, states[1..], table) +
      (if states[0].table == table && states[0].excluded.Some?
       then multiset{Exclusion(Read(states[0].row, schema.tables[table].primaryKey), states[0].excluded.value)}
       else multiset{})
  }

  /** Why a row goes: it is marked, or a required parent is there and all such parents go. */
  ghost predicate GoesBecause(schema: Schema, rows: seq<(string, Row)>, E: set<nat>, i: nat, reason: string)
    requires KnownRows(schema, rows) && i < |rows|
  {
    var (table, row) := rows[i];
    if DevelopmentUser(table, row) then reason == "dev_identity_issuer"
    else if Marked(schema, table, row) then
      exists c :: c in schema.tables[table].identity && DemoCell(row, c) && reason == "demo_identifier:" + c
    else exists fk :: LosesParent(schema, rows, E, i, fk) && reason == "required_excluded_parent:" + fk.parent
  }

  ghost predicate LosesParent(schema: Schema, rows: seq<(string, Row)>, E: set<nat>, i: nat, fk: ForeignKey)
    requires KnownRows(schema, rows) && i < |rows|
  {
    Orphaned(schema, rows, E, i, fk) && !Optional(schema, rows[i].0, fk)
  }

  ghost predicate ReasonIsTrue(schema: Schema, rows: seq<(string, Row)>, p: Preparation, i: nat)
    requires KnownRows(schema, rows) && i < |rows| == |p.states|
  {
    p.states[i].excluded.Some? ==>
      GoesBecause(schema, rows, ExcludedSet(p.states), i, p.states[i].excluded.value)
  }

  ghost predicate ReasonsAreTrue(schema: Schema, rows: seq<(string, Row)>, p: Preparation)
    requires KnownRows(schema, rows) && |p.states| == |rows|
  {
    forall i: nat :: i < |rows| ==> ReasonIsTrue(schema, rows, p, i)
  }

  ghost predicate Listed(schema: Schema, p: Preparation)
    requires Known(schema, p.states)
  {
    forall t :: multiset(ExcludedOf(p, t)) == Entries(schema, p.states, t)
  }

  ghost predicate Accounted(schema: Schema, rows: seq<(string, Row)>, p: Preparation)
    requires KnownRows(schema, rows)
  {
    && Known(schema, p.states) && Explained(schema, Start(schema, rows).states, p.states)
    && ReportsAreReal(schema, rows, p) && Listed(schema, p) && ReasonsAreTrue(schema, rows, p)
    && forall i, c :: 0 <= i < |rows| ==> EmptiedIsReported(schema, rows, p, i, c)
  }

  lemma {:induction false} EntriesUpdate(schema: Schema, states: seq<RowState>, i: nat, st: RowState, t: string)
    requires Known(schema, states) && i < |states| && st.table == states[i].table && states[i].excluded.None?
    ensures Known(schema, states[i := st])
    ensures Entries(schema, states[i := st], t) ==
            Entries(schema, states, t) +
            (if st.table == t && st.excluded.Some?
             then multiset{Exclusion(Read(st.row, schema.tables[t].primaryKey), st.excluded.value)} else multiset{})
  {
    if i > 0 {
      EntriesUpdate(schema, states[1..], i - 1, st, t);
      assert states[i := st][1..] == states[1..][i - 1 := st];
    } else {
      assert states[i := st][1..] == states[1..];
    }
  }

  lemma ExclusionLists(schema: Schema, p: Preparation, q: Preparation, i: nat, reason: string)
    requires Known(schema, p.states) && i < |p.states| && p.states[i].excluded.None? && Listed(schema, p)
    requires q.states == p.states[i := p.states[i].(excluded := Some(reason))] && Known(schema, q.states)
    requires q.exclusions == Add(p.exclusions, p.states[i].table,
             Exclusion(Read(p.states[i].row, schema.tables[p.states[i].table].primaryKey), reason))
    ensures Listed(schema, q)
  {
    forall t ensures multiset(ExcludedOf(q, t)) == Entries(schema, q.states, t) {
      assert multiset(ExcludedOf(p, t)) == Entries(schema, p.states, t);
      EntriesUpdate(schema, p.states, i, q.states[i], t);
    }
  }

  lemma ClearingLists(schema: Schema, p: Preparation, q: Preparation, i: nat, row: Row)
    requires Known(schema, p.states) && i < |p.states| && p.states[i].excluded.None? && Listed(schema, p)
    requires q.states == p.states[i := p.states[i].(row := row)] && Known(schema, q.states)
    requires q.exclusions == p.exclusions
    ensures Listed(schema, q)
  {
    forall t ensures multiset(ExcludedOf(q, t)) == Entries(schema, q.states, t) {
      assert multiset(ExcludedOf(p, t)) == Entries(schema, p.states, t);
      EntriesUpdate(schema, p.states, i, q.states[i], t);
    }
  }

  lemma VisitKeyLists(schema: Schema, p: Preparation, i: nat, fk: ForeignKey)
    requires Known(schema, p.states) && i < |p.states| && p.states[i].excluded.None? && Listed(schema, p)
    ensures Listed(schema, VisitKey(schema, p, i, fk))
  {
    var q := VisitKey(schema, p, i, fk);
    if q.exclusions != p.exclusions {
      ExclusionLists(schema, p, q, i, "required_excluded_parent:" + fk.parent);
    } else if q.states == p.states {
      assert forall t :: ExcludedOf(q, t) == ExcludedOf(p, t);
    } else {
      VisitWithoutExclusion(schema, p, i, fk);
      ClearingLists(schema, p, q, i, Clear(p.states[i].row, fk.childColumns));
    }
  }

  lemma VisitWithoutExclusion(schema: Schema, p: Preparation, i: nat, fk: ForeignKey)
    requires Known(schema, p.states) && i < |p.states| && p.states[i].excluded.None?
    requires VisitKey(schema, p, i, fk).exclusions == p.exclusions && VisitKey(schema, p, i, fk).states != p.states
    ensures VisitKey(schema, p, i, fk).states ==
            p.states[i := p.states[i].(row := Clear(p.states[i].row, fk.childColumns))]
  {
    var st, reason := p.states[i], "required_excluded_parent:" + fk.parent;
    var e := Exclusion(Read(st.row, schema.tables[st.table].primaryKey), reason);
    AddGrows(p.exclusions, st.table, e);
  }

  lemma AddGrows(exclusions: map<string, seq<Exclusion>>, table: string, e: Exclusion)
    ensures Add(exclusions, table, e) != exclusions
  {
    assert |Add(exclusions, table, e)[table]| == (if table in exclusions then |exclusions[table]| else 0) + 1;
  }

  lemma PrimaryKeyStays(schema: Schema, rows: seq<(string, Row)>, states: seq<RowState>, i: nat)
    requires KnownRows(schema, rows) && Explained(schema, Start(schema, rows).states, states) && KeysAreSet(schema)
    requires i < |rows|
    ensures Read(states[i].row, schema.tables[rows[i].0].primaryKey) == PrimaryKey(schema, rows, i)
  {
    var init, pk := Start(schema, rows).states, schema.tables[rows[i].0].primaryKey;
    forall fk | fk in Keys(schema, init, i) ensures Separate(schema, init[i].table, fk, pk) {
    }
    UntouchedColumns(schema, init, states, i, pk);
  }

  /** What a visit that finds no parent reports. */
  lemma VisitReports(schema: Schema, rows: seq<(string, Row)>, p: Preparation, i: nat, fk: ForeignKey)
    requires KnownRows(schema, rows) && Accounted(schema, rows, p) && Independent(schema) && KeysAreSet(schema)
    requires i < |rows| && fk in Keys(schema, p.states, i) && p.states[i].excluded.None? && fk.parent in schema.keep
    requires var values := Read(p.states[i].row, fk.childColumns); !AllNull(values) && !HasMatch(p.states, fk, values)
    ensures Reports(schema, rows, MissingEntry(schema, p.states[i], fk), i, fk)
  {
    var init := Start(schema, rows).states;
    var values := Read(p.states[i].row, fk.childColumns);
    ReferenceAsAtStart(schema, init, p.states, i, fk);
    ParentsAsAtStart(schema, init, p.states, init[i].table, fk, values);
    PrimaryKeyStays(schema, rows, p.states, i);
    InitialExclusionExactly(schema, rows[i].0, rows[i].1);
    ReadsSet(rows[i].1, fk.childColumns);
    forall j: nat | j < |rows| ensures !RefersTo(rows, i, fk, j) {
      assert !Matches(p.states, fk, values, j) && !Matches(init, fk, values, j);
    }
  }

  /** What a visit that clears a reference reports. */
  lemma VisitClears(schema: Schema, rows: seq<(string, Row)>, p: Preparation, i: nat, fk: ForeignKey)
    requires KnownRows(schema, rows) && Accounted(schema, rows, p) && Independent(schema) && KeysAreSet(schema)
    requires i < |rows| && fk in Keys(schema, p.states, i) && p.states[i].excluded.None?
    requires Clearable(schema, p.states[i].table, fk)
    requires var values := Read(p.states[i].row, fk.childColumns);
             !AllNull(values) && HasMatch(p.states, fk, values) && !HasLiveMatch(p.states, fk, values)
    ensures Clears(schema, rows, ExcludedSet(p.states),
                   Sanitization(rows[i].0,
                       Read(Clear(p.states[i].row, fk.childColumns), schema.tables[rows[i].0].primaryKey),
                                fk.childColumns, "excluded_parent:" + fk.parent), i, fk)
  {
    var init := Start(schema, rows).states;
    FoundDangling(schema, init, p.states, i, fk);
    DanglingExactly(schema, rows, ExcludedSet(p.states), i, fk);
    ClearKeepsExplained(schema, init, p.states, i, fk);
    PrimaryKeyStays(schema, rows, p.states[i := p.states[i].(row := Clear(p.states[i].row, fk.childColumns))], i);
  }

  lemma ClearsGrows(schema: Schema, rows: seq<(string, Row)>, E: set<nat>, F: set<nat>, z: Sanitization, i: nat,
      fk: ForeignKey)
    requires KnownRows(schema, rows) && Clears(schema, rows, E, z, i, fk) && E <= F
    ensures Clears(schema, rows, F, z, i, fk)
  {
  }

  lemma RealStays(schema: Schema, rows: seq<(string, Row)>, p: Preparation, q: Preparation)
    requires KnownRows(schema, rows) && ReportsAreReal(schema, rows, p)
    requires ExcludedSet(p.states) <= ExcludedSet(q.states)
    requires forall m :: m in q.missing && m !in p.missing ==> exists i, fk :: Reports(schema, rows, m, i, fk)
    requires forall z :: z in q.sanitizations && z !in p.sanitizations ==>
             exists i, fk :: Clears(schema, rows, ExcludedSet(q.states), z, i, fk)
    ensures ReportsAreReal(schema, rows, q)
  {
    forall z | z in q.sanitizations ensures exists i, fk :: Clears(schema, rows, ExcludedSet(q.states), z, i, fk) {
      if z in p.sanitizations {
        var i, fk :| Clears(schema, rows, ExcludedSet(p.states), z, i, fk);
        ClearsGrows(schema, rows, ExcludedSet(p.states), ExcludedSet(q.states), z, i, fk);
      }
    }
  }

  lemma VisitKeyReports(schema: Schema, rows: seq<(string, Row)>, p: Preparation, i: nat, fk: ForeignKey)
    requires KnownRows(schema, rows) && Accounted(schema, rows, p) && Independent(schema) && KeysAreSet(schema)
    requires i < |rows| && fk in Keys(schema, p.states, i) && p.states[i].excluded.None?
    ensures ReportsAreReal(schema, rows, VisitKey(schema, p, i, fk))
  {
    var q, values := VisitKey(schema, p, i, fk), Read(p.states[i].row, fk.childColumns);
    assert ExcludedSet(p.states) <= ExcludedSet(q.states);
    if fk.parent in schema.keep && !AllNull(values) {
      if !HasMatch(p.states, fk, values) {
        VisitReports(schema, rows, p, i, fk);
      } else if !HasLiveMatch(p.states, fk, values) && Nullable(schema.tables[p.states[i].table], fk) {
        VisitClears(schema, rows, p, i, fk);
        assert ExcludedSet(q.states) == ExcludedSet(p.states);
      }
    }
    RealStays(schema, rows, p, q);
  }

  lemma VisitKeyEmpties(schema: Schema, rows: seq<(string, Row)>, p: Preparation, i: nat, fk: ForeignKey)
    requires KnownRows(schema, rows) && Accounted(schema, rows, p) && Independent(schema) && KeysAreSet(schema)
    requires i < |rows| && fk in Keys(schema, p.states, i) && p.states[i].excluded.None?
    ensures forall k, c :: 0 <= k < |rows| ==> EmptiedIsReported(schema, rows, VisitKey(schema, p, i, fk), k, c)
  {
    var q := VisitKey(schema, p, i, fk);
    assert forall z :: z in p.sanitizations ==> z in q.sanitizations;
    forall k, c | 0 <= k < |rows| ensures EmptiedIsReported(schema, rows, q, k, c) {
      assert EmptiedIsReported(schema, rows, p, k, c);
      if Get(q.states[k].row, c) != Get(p.states[k].row, c) {
        VisitClears(schema, rows, p, i, fk);
        assert k == i && c in fk.childColumns;
        var z := q.sanitizations[|q.sanitizations| - 1];
        assert z in q.sanitizations && c in z.columns;
      }
    }
  }

  lemma LossGrows(schema: Schema, rows: seq<(string, Row)>, E: set<nat>, F: set<nat>, i: nat, reason: string)
    requires KnownRows(schema, rows) && i < |rows| && E <= F && GoesBecause(schema, rows, E, i, reason)
    ensures GoesBecause(schema, rows, F, i, reason)
  {
    var (table, row) := rows[i];
    if !DevelopmentUser(table, row) && !Marked(schema, table, row) {
      var fk :| LosesParent(schema, rows, E, i, fk) && reason == "required_excluded_parent:" + fk.parent;
      assert LosesParent(schema, rows, F, i, fk);
    }
  }

  /** The reason with which a visit excludes a row. */
  lemma VisitExcludes(schema: Schema, rows: seq<(string, Row)>, p: Preparation, i: nat, fk: ForeignKey)
    requires KnownRows(schema, rows) && Accounted(schema, rows, p) && Independent(schema)
    requires i < |rows| && fk in Keys(schema, p.states, i) && p.states[i].excluded.None?
    requires VisitKey(schema, p, i, fk).states[i].excluded.Some?
    ensures GoesBecause(schema, rows, ExcludedSet(p.states), i, "required_excluded_parent:" + fk.parent)
  {
    FoundDangling(schema, Start(schema, rows).states, p.states, i, fk);
    DanglingExactly(schema, rows, ExcludedSet(p.states), i, fk);
    InitialExclusionExactly(schema, rows[i].0, rows[i].1);
    assert LosesParent(schema, rows, ExcludedSet(p.states), i, fk);
  }

  lemma VisitKeyReasons(schema: Schema, rows: seq<(string, Row)>, p: Preparation, i: nat, fk: ForeignKey)
    requires KnownRows(schema, rows) && Accounted(schema, rows, p) && Independent(schema)
    requires i < |rows| && fk in Keys(schema, p.states, i) && p.states[i].excluded.None?
    ensures ReasonsAreTrue(schema, rows, VisitKey(schema, p, i, fk))
  {
    var q := VisitKey(schema, p, i, fk);
    assert ExcludedSet(p.states) <= ExcludedSet(q.states);
    forall k: nat | k < |rows| ensures ReasonIsTrue(schema, rows, q, k) {
      assert ReasonIsTrue(schema, rows, p, k);
      if q.states[k].excluded.Some? {
        if k == i { VisitExcludes(schema, rows, p, i, fk); }
        LossGrows(schema, rows, ExcludedSet(p.states), ExcludedSet(q.states), k, q.states[k].excluded.value);
      }
    }
  }

  lemma StartReasons(schema: Schema, rows: seq<(string, Row)>)
    requires KnownRows(schema, rows)
    ensures ReasonsAreTrue(schema, rows, Start(schema, rows))
  {
    var p := Start(schema, rows);
    forall i: nat | i < |rows| ensures ReasonIsTrue(schema, rows, p, i) {
      InitialExclusionExactly(schema, rows[i].0, rows[i].1);
    }
  }

  lemma VisitKeyAccounts(schema: Schema, rows: seq<(string, Row)>, p: Preparation, i: nat, fk: ForeignKey)
    requires KnownRows(schema, rows) && Accounted(schema, rows, p) && Independent(schema) && KeysAreSet(schema)
    requires i < |rows| && fk in Keys(schema, p.states, i) && p.states[i].excluded.None?
    ensures Accounted(schema, rows, VisitKey(schema, p, i, fk))
  {
    VisitKeyExplained(schema, Start(schema, rows).states, p, i, fk);
    VisitKeyReports(schema, rows, p, i, fk);
    VisitKeyEmpties(schema, rows, p, i, fk);
    VisitKeyLists(schema, p, i, fk);
    VisitKeyReasons(schema, rows, p, i, fk);
  }

  lemma {:induction false} VisitRowAccounts(schema: Schema, rows: seq<(string, Row)>, p: Preparation, i: nat,
      keys: seq<ForeignKey>)
    requires KnownRows(schema, rows) && Accounted(schema, rows, p) && Independent(schema) && KeysAreSet(schema)
    requires i < |rows| && forall fk :: fk in keys ==> fk in Keys(schema, p.states, i)
    ensures Accounted(schema, rows, VisitRow(schema, p, i, keys))
    decreases |keys|
  {
    if keys != [] && p.states[i].excluded.None? {
      VisitKeyAccounts(schema, rows, p, i, keys[0]);
      VisitRowAccounts(schema, rows, VisitKey(schema, p, i, keys[0]), i, keys[1..]);
    }
  }

  lemma {:induction false} PassAccounts(schema: Schema, rows: seq<(string, Row)>, p: Preparation, n: nat)
    requires KnownRows(schema, rows) && Accounted(schema, rows, p) && Independent(schema) && KeysAreSet(schema)
    requires n <= |rows|
    ensures Accounted(schema, rows, Pass(schema, p, n))
  {
    if n > 0 {
      PassAccounts(schema, rows, p, n - 1);
      var q := Pass(schema, p, n - 1);
      VisitRowAccounts(schema, rows, q, n - 1, Keys(schema, q.states, n - 1));
    }
  }

  lemma {:induction false} RunAccounts(schema: Schema, rows: seq<(string, Row)>, p: Preparation)
    requires KnownRows(schema, rows) && Accounted(schema, rows, p) && Independent(schema) && KeysAreSet(schema)
    ensures Accounted(schema, rows, Run(schema, p))
    decreases Measure(p.states)
  {
    PassProgress(schema, p, |p.states|);
    PassAccounts(schema, rows, p, |rows|);
    var q := Pass(schema, p, |p.states|);
    if q.states != p.states { RunAccounts(schema, rows, q); }
  }

  lemma {:induction false} EntriesSnoc(schema: Schema, states: seq<RowState>, st: RowState, t: string)
    requires Known(schema, states + [st]) && st.table in schema.tables
    ensures Known(schema, states)
    ensures Entries(schema, states + [st], t) ==
            Entries(schema, states, t) +
            (if st.table == t && st.excluded.Some?
             then multiset{Exclusion(Read(st.row, schema.tables[t].primaryKey), st.excluded.value)} else multiset{})
  {
    assert forall i :: 0 <= i < |states| ==> (states + [st])[i] == states[i];
    if states != [] {
      assert (states + [st])[1..] == states[1..] + [st];
      assert forall i :: 0 <= i < |states| ==> (states[1..] + [st])[i] == (states + [st])[i + 1];
      EntriesSnoc(schema, states[1..], st, t);
    } else {
      assert (states + [st])[1..] == [];
    }
  }

  lemma {:induction false} StartLists(schema: Schema, rows: seq<(string, Row)>)
    requires KnownRows(schema, rows)
    ensures Listed(schema, Start(schema, rows)) && Start(schema, rows).missing == [] &&
            Start(schema, rows).sanitizations == []
  {
    if rows != [] {
      var before := rows[..|rows| - 1];
      StartLists(schema, before);
      var p, q, st := Start(schema, before), Start(schema, rows), StartRow(schema, rows[|rows| - 1]);
      forall t ensures multiset(ExcludedOf(q, t)) == Entries(schema, q.states, t) {
        assert multiset(ExcludedOf(p, t)) == Entries(schema, p.states, t);
        EntriesSnoc(schema, p.states, st, t);
      }
    }
  }

  /** The reports of the preparation: a missing parent is reported only for a reference that has none, of a row that is
      not marked, and always if that row stays; a cleared reference is an optional one whose parents all go, and every
      emptied cell is reported; and the exclusions listed for a table are its rows that go, each with its reason. */
  lemma PreparationReports(schema: Schema, rows: seq<(string, Row)>)
    requires KnownRows(schema, rows) && ProgramShaped(schema) && KeysAreSet(schema)
    ensures var q := Run(schema, Start(schema, rows));
            && Accounted(schema, rows, q)
            && forall i, fk :: 0 <= i < |rows| && i !in ExcludedSet(q.states) && Parentless(schema, rows, i, fk) ==>
                 exists m :: m in q.missing && Reports(schema, rows, m, i, fk)
  {
    var p := Start(schema, rows);
    var q := Run(schema, p);
    ProgramSchemasAreIndependent(schema);
    StartLists(schema, rows);
    StartReasons(schema, rows);
    RunAccounts(schema, rows, p);
    EligibleRowsAreClosed(schema, p);
    forall i, fk | 0 <= i < |rows| && i !in ExcludedSet(q.states) && Parentless(schema, rows, i, fk)
      ensures exists m :: m in q.missing && Reports(schema, rows, m, i, fk)
    {
      assert Settled(schema, q, i, fk);
      StayingParentlessIsReported(schema, rows, q, i, fk);
    }
  }

  lemma ParentlessIsNeverCleared(schema: Schema, rows: seq<(string, Row)>, states: seq<RowState>, i: nat,
      fk: ForeignKey)
    requires KnownRows(schema, rows) && Explained(schema, Start(schema, rows).states, states) && Independent(schema)
    requires i < |rows| && Parentless(schema, rows, i, fk)
    ensures !AllNull(Read(states[i].row, fk.childColumns))
  {
    var init := Start(schema, rows).states;
    var c :| c in fk.childColumns && Get(rows[i].1, c) != Null;
    assert CellExplained(schema, init, states, i, c);
    if Get(states[i].row, c) != Get(init[i].row, c) {
      var g :| g in Keys(schema, init, i) && c in g.childColumns && Clearable(schema, init[i].table, g)
               && Cleared(states[i].row, g.childColumns) && Dangling(init, ExcludedSet(states), i, g);
      ColumnOwner(schema, init[i].table, g, fk, c);
      DanglingExactly(schema, rows, ExcludedSet(states), i, fk);
    }
    ReadsSet(states[i].row, fk.childColumns);
  }

  lemma StayingParentlessIsReported(schema: Schema, rows: seq<(string, Row)>, q: Preparation, i: nat, fk: ForeignKey)
    requires KnownRows(schema, rows) && Accounted(schema, rows, q) && Independent(schema) && KeysAreSet(schema)
    requires i < |rows| && q.states[i].excluded.None? && Parentless(schema, rows, i, fk) && Settled(schema, q, i, fk)
    ensures exists m :: m in q.missing && Reports(schema, rows, m, i, fk)
  {
    var init := Start(schema, rows).states;
    var values := Read(q.states[i].row, fk.childColumns);
    ParentlessIsNeverCleared(schema, rows, q.states, i, fk);
    ReferenceAsAtStart(schema, init, q.states, i, fk);
    ParentsAsAtStart(schema, init, q.states, init[i].table, fk, values);
    forall j ensures !Matches(q.states, fk, values, j) {
      if 0 <= j < |rows| { assert !RefersTo(rows, i, fk, j) && !Matches(init, fk, values, j); }
    }
    VisitReports(schema, rows, q, i, fk);
  }

  /** What becomes of the rows read: E goes, the rest stays, and the reports say so. */
  ghost predicate Prepares(schema: Schema, rows: seq<(string, Row)>, E: set<nat>, q: Preparation)
    requires KnownRows(schema, rows)
  {
    && Goes(schema, rows, E) && E == ExcludedSet(q.states)
    && (forall t :: Stay(schema, rows, E, t, EligibleRows(q.states, t)))
    && Known(schema, q.states) && ReportsAreReal(schema, rows, q) && Listed(schema, q) && |q.states| == |rows|
    && (forall i, c :: 0 <= i < |rows| ==> EmptiedIsReported(schema, rows, q, i, c))
    && (forall i, fk :: 0 <= i < |rows| && i !in E && Parentless(schema, rows, i, fk) ==>
         exists m :: m in q.missing && Reports(schema, rows, m, i, fk))
  }

  /** Every reference of a row that is not marked has a parent. */
  ghost predicate ParentsPresent(schema: Schema, rows: seq<(string, Row)>)
    requires KnownRows(schema, rows)
  {
    forall i, fk :: 0 <= i < |rows| && !Marked(schema, rows[i].0, rows[i].1) ==> !Parentless(schema, rows, i, fk)
  }

  lemma NothingMissing(schema: Schema, rows: seq<(string, Row)>, E: set<nat>, q: Preparation)
    requires KnownRows(schema, rows) && Prepares(schema, rows, E, q)
    ensures ParentsPresent(schema, rows) ==> q.missing == []
    ensures q.missing == [] ==>
              forall i, fk :: 0 <= i < |rows| && i !in E ==> !Parentless(schema, rows, i, fk)
  {
    forall m | m in q.missing ensures !ParentsPresent(schema, rows) {
      var i, fk :| Reports(schema, rows, m, i, fk);
    }
    if q.missing != [] { assert q.missing[0] in q.missing; }
  }

  /** _prepare_keep_rows. */
  method PrepareKeepRows(schema: Schema, rows: seq<(string, Row)>) returns (preparation: RowPreparation)
    requires KnownRows(schema, rows)
    ensures fresh(preparation) && preparation.Valid() && preparation.View() == Run(schema, Start(schema, rows))
    ensures forall t, r :: r in EligibleRows(preparation.states, t) ==> t in schema.tables && !Marked(schema, t, r)
    ensures ProgramShaped(schema) && KeysAreSet(schema) ==>
              Prepares(schema, rows, ExcludedSet(preparation.states), preparation.View())
  {
    preparation := new RowPreparation(schema, rows);
    preparation.Prepare();
    forall t, r | r in EligibleRows(preparation.states, t) ensures t in schema.tables && !Marked(schema, t, r) {
      NoMarkedRowIsEligible(schema, rows, t, r);
    }
    if ProgramShaped(schema) && KeysAreSet(schema) {
      ghost var E := PreparationKeeps(schema, rows);
      PreparationReports(schema, rows);
    }
  }
}
