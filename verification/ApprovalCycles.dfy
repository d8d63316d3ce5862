/** Approval cycles: the frozen requirements of a submitted demand and the fingerprint of its subject
    (app/application/approval_cycles.py, app/domain/approval_cycles.py).

    The hash of the canonical subject is taken as injective, so a fingerprint is the canonical value
    itself. The main result says exactly when a stored cycle still matches the current subject. */
module ApprovalCycles {
  import opened Options
  import opened ApprovalRouting
  import opened ApprovalAuthority

  datatype Authorization = Authorization(identity: string, competencies: seq<string>, content: string)

  datatype SubjectRecord = SubjectRecord(
    requestId: string, projectId: string, priority: Option<string>, siteClient: Option<string>,
    location: Option<string>, lineMode: bool, authorization: seq<Authorization>)

  /** A routing input: one row per active line. */
  datatype RoutingRow = RoutingRow(
    lineId: string, task: Option<string>, scopeIds: seq<string>, proposed: Option<string>, kind: string,
    periods: seq<(string, Option<string>)>, assetType: Option<string>, asset: Option<string>)

  /** What the repositories read about one demand: `rows` are the routing inputs of the cycle repository,
      `lines` what the scope repository reads for a line id. */
  datatype Subject = Subject(
    record: SubjectRecord, activeLines: seq<string>, rows: seq<RoutingRow>, lines: map<string, Line>)

  datatype Requirement = Requirement(
    lineId: string, task: Option<string>, scope: Option<string>, resource: Option<string>, sources: set<Source>,
    approvers: map<string, set<Source>>, assetType: Option<string>, asset: Option<string>)

  datatype CycleError =
    | NoActiveLine
    | RoutingIncomplete(lineId: string)
    | LineNotFound(lineId: string)
    | RoutingBlocked(lineId: string)
    | PeriodRoutingIncompatible(lineId: string)

  datatype Result<T> = Ok(value: T) | Err(error: CycleError)

  // ---------------------------------------------------------------- the canonical subject

  datatype Entry = Entry(
    lineId: string, task: Option<string>, scopeIds: seq<string>, sources: set<Source>, resource: Option<string>,
    asset: Option<string>, periods: seq<(string, Option<string>)>)

  datatype CanonicalEntry = CanonicalEntry(
    task: Option<string>, scopeIds: set<string>, sources: set<Source>, resource: Option<string>,
    periods: multiset<(string, Option<string>)>, asset: Option<Option<string>>)

  datatype CanonicalAuthorization = CanonicalAuthorization(competencies: set<string>, content: string)

  /** Entries are listed by authorization identity and by line, keeping the order of equal keys. */
  datatype Fingerprint = Fingerprint(
    requestId: string, projectId: string, priority: Option<string>, siteClient: Option<string>,
    location: Option<string>, lineMode: bool,
    authorization: map<string, seq<CanonicalAuthorization>>, routing: map<string, seq<CanonicalEntry>>)

  function NonBlank(ids: seq<string>): set<string> {
    set i | i in ids && i != ""
  }

  /** A proposed resource counts only if it gave an approver, a proposed asset only on asset cycles. */
  function Canonical(e: Entry): CanonicalEntry {
    CanonicalEntry(e.task, NonBlank(e.scopeIds), e.sources, if ProposedResource in e.sources then e.resource else None,
                   multiset(e.periods), if AssetTypeSource in e.sources then Some(e.asset) else None)
  }

  function EntriesOf(entries: seq<Entry>, lineId: string): seq<CanonicalEntry> {
    if entries == [] then []
    else (if entries[0].lineId == lineId then [Canonical(entries[0])] else []) + EntriesOf(entries[1..], lineId)
  }

  function AuthorizationsOf(entries: seq<Authorization>, identity: string): seq<CanonicalAuthorization> {
    if entries == [] then []
    else
      (if entries[0].identity == identity
          then [CanonicalAuthorization(NonBlank(entries[0].competencies), entries[0].content)] else [])
         + AuthorizationsOf(entries[1..], identity)
  }

  function CanonicalAuthorizations(entries: seq<Authorization>): map<string, seq<CanonicalAuthorization>> {
    map i | i in (set a | a in entries :: a.identity) :: AuthorizationsOf(entries, i)
  }

  function LinesOf(entries: seq<Entry>): set<string> {
    set e | e in entries :: e.lineId
  }

  function CanonicalRouting(entries: seq<Entry>): map<string, seq<CanonicalEntry>> {
    map l | l in LinesOf(entries) :: EntriesOf(entries, l)
  }

  function SubjectFingerprint(record: SubjectRecord, entries: seq<Entry>): Fingerprint {
    Fingerprint(record.requestId, record.projectId, record.priority, record.siteClient, record.location,
        record.lineMode,
                CanonicalAuthorizations(record.authorization), CanonicalRouting(entries))
  }

  // ---------------------------------------------------------------- building a cycle

  function RowOf(rows: seq<RoutingRow>, lineId: string): Option<RoutingRow> {
    if rows == [] then None
    else if rows[|rows| - 1].lineId == lineId then Some(rows[|rows| - 1])
    else RowOf(rows[..|rows| - 1], lineId)
  }

  /** The proposals to resolve: one per period, or that of the line. */
  function Proposals(row: RoutingRow): (r: seq<Option<string>>)
    ensures r != []
  {
    if row.periods != [] then seq(|row.periods|, i requires 0 <= i < |row.periods| => row.periods[i].1)
        else [row.proposed]
  }

  /** The resource common to all periods, or that of a line without periods. */
  function EffectiveResource(row: RoutingRow): Option<string> {
    if row.periods == [] then row.proposed
    else if forall p :: p in row.periods ==> p.1 == row.periods[0].1 then row.periods[0].1
    else None
  }

  function ApproverSources(approvers: map<string, set<Source>>): set<Source> {
    set u, s | u in approvers && s in approvers[u] :: s
  }

  function SourceKinds(routed: Routed, line: Line, row: RoutingRow): set<Source> {
    ApproverSources(routed.approvers) + (if line.task.None? then routed.sources else {}) +
        (if row.kind == "ASSET" then {AssetTypeSource} else {})
  }

  ghost function RequirementFor(dir: Directory, subject: Subject, lineId: string): Result<Requirement> {
    var row := RowOf(subject.rows, lineId);
    if row.None? then Err(RoutingIncomplete(lineId))
    else if lineId !in subject.lines then Err(LineNotFound(lineId))
    else
      var line := subject.lines[lineId];
      match RouteProposals(dir, line, Proposals(row.value))
      case Blocked(_, _) => Err(RoutingBlocked(lineId))
      case PeriodsIncompatible(_) => Err(PeriodRoutingIncompatible(lineId))
      case Accepted(routed) =>
        Ok(Requirement(lineId, line.task, Some(routed.scope), EffectiveResource(row.value),
            SourceKinds(routed, line, row.value),
                       routed.approvers, row.value.assetType, row.value.asset))
  }

  /** All values, or the first error. */
  function Collect<T>(attempts: seq<Result<T>>): Result<seq<T>> {
    if attempts == [] then Ok([])
    else
      var before, last := Collect(attempts[..|attempts| - 1]), attempts[|attempts| - 1];
      if before.Err? then before else if last.Err? then Err(last.error) else Ok(before.value + [last.value])
  }

  lemma {:induction false} CollectedAll<T>(attempts: seq<Result<T>>)
    requires Collect(attempts).Ok?
    ensures |Collect(attempts).value| == |attempts|
    ensures forall i :: 0 <= i < |attempts| ==> attempts[i] == Ok(Collect(attempts).value[i])
  {
    if attempts != [] { CollectedAll(attempts[..|attempts| - 1]); }
  }

  lemma {:induction false} FirstErrorStays<T>(attempts: seq<Result<T>>, i: nat)
    requires i <= |attempts| && Collect(attempts[..i]).Err?
    ensures Collect(attempts) == Collect(attempts[..i])
    decreases |attempts|
  {
    if i < |attempts| {
      assert attempts[..|attempts| - 1][..i] == attempts[..i];
      FirstErrorStays(attempts[..|attempts| - 1], i);
    } else {
      assert attempts[..i] == attempts;
    }
  }

  ghost function Attempts(dir: Directory, subject: Subject): (r: seq<Result<Requirement>>)
    ensures |r| == |subject.activeLines|
    ensures forall i :: 0 <= i < |r| ==> r[i] == RequirementFor(dir, subject, subject.activeLines[i])
  {
    seq(|subject.activeLines|,
        i requires 0 <= i < |subject.activeLines| => RequirementFor(dir, subject, subject.activeLines[i]))
  }

  function SubmittedEntry(r: Requirement, row: RoutingRow): Entry
    requires r.scope.Some?
  {
    Entry(r.lineId, r.task, [r.scope.value], r.sources, r.resource, row.asset, row.periods)
  }

  function SubmittedEntries(reqs: seq<Requirement>, rows: seq<RoutingRow>): seq<Entry>
    requires forall r :: r in reqs ==> r.scope.Some? && RowOf(rows, r.lineId).Some?
  {
    if reqs == [] then []
    else
      var r := reqs[|reqs| - 1];
      SubmittedEntries(reqs[..|reqs| - 1], rows) + [SubmittedEntry(r, RowOf(rows, r.lineId).value)]
  }

  /** What create_cycle stores: the frozen requirements and the fingerprint they were submitted under. */
  datatype Snapshot = Snapshot(requirements: seq<Requirement>, fingerprint: Fingerprint)

  lemma RequirementIsFaithful(dir: Directory, subject: Subject, lineId: string)
    requires RequirementFor(dir, subject, lineId).Ok?
    ensures IsRequirement(subject, lineId, RequirementFor(dir, subject, lineId).value)
  {
    var row := RowOf(subject.rows, lineId).value;
    AcceptedLine(dir, subject.lines[lineId], Proposals(row));
  }

  /** A requirement freezes the task the line was resolved with, its scope, and what it proposed; it has approvers. */
  ghost predicate IsRequirement(subject: Subject, lineId: string, r: Requirement) {
    && lineId in subject.lines && RowOf(subject.rows, lineId).Some?
    && r.lineId == lineId && r.scope.Some? && r.approvers != map[]
    && r.task == subject.lines[lineId].task
    && var row := RowOf(subject.rows, lineId).value;
       r.resource == EffectiveResource(row) && (AssetTypeSource in r.sources <==> row.kind == "ASSET")
  }

  lemma AttemptsMatchLines(dir: Directory, subject: Subject)
    requires Collect(Attempts(dir, subject)).Ok?
    ensures AreRequirements(subject, Collect(Attempts(dir, subject)).value)
  {
    var attempts := Attempts(dir, subject);
    CollectedAll(attempts);
    forall i | 0 <= i < |attempts| ensures IsRequirement(subject, subject.activeLines[i], Collect(attempts).value[i]) {
      RequirementIsFaithful(dir, subject, subject.activeLines[i]);
    }
  }

  ghost predicate AreRequirements(subject: Subject, reqs: seq<Requirement>) {
    |reqs| == |subject.activeLines| && forall i :: 0 <= i < |reqs| ==>
        IsRequirement(subject, subject.activeLines[i], reqs[i])
  }

  /** The requirements are those of the active lines, and the fingerprint that of their entries. */
  ghost predicate IsCycleOf(cycle: Snapshot, subject: Subject) {
    && AreRequirements(subject, cycle.requirements)
    && cycle.fingerprint == SubjectFingerprint(subject.record, SubmittedEntries(cycle.requirements, subject.rows))
  }

  ghost function NewCycle(dir: Directory, subject: Subject): (r: Result<Snapshot>)
    ensures r.Ok? ==> IsCycleOf(r.value, subject) && r.value.requirements != []
  {
    if subject.activeLines == [] then Err(NoActiveLine)
    else
      var reqs := Collect(Attempts(dir, subject));
      if reqs.Err? then Err(reqs.error)
      else
        AttemptsMatchLines(dir, subject);
        Ok(Snapshot(reqs.value, SubjectFingerprint(subject.record, SubmittedEntries(reqs.value, subject.rows))))
  }

  // ---------------------------------------------------------------- what a requirement freezes

  /** The routing input of a line: the last one, if there are several. */
  ghost predicate LastRow(rows: seq<RoutingRow>, lineId: string, k: nat) {
    k < |rows| && rows[k].lineId == lineId && forall j :: k < j < |rows| ==> rows[j].lineId != lineId
  }

  lemma {:induction false} LastRowFound(rows: seq<RoutingRow>, lineId: string)
    ensures forall k: nat :: LastRow(rows, lineId, k) ==> RowOf(rows, lineId) == Some(rows[k])
    ensures RowOf(rows, lineId).Some? ==> exists k: nat :: LastRow(rows, lineId, k)
  {
    if rows != [] {
      var before := rows[..|rows| - 1];
      LastRowFound(before, lineId);
      if rows[|rows| - 1].lineId == lineId {
        assert LastRow(rows, lineId, |rows| - 1);
      } else {
        forall k: nat | LastRow(rows, lineId, k) ensures LastRow(before, lineId, k) && before[k] == rows[k] {
        }
        if k: nat :| LastRow(before, lineId, k) { assert LastRow(rows, lineId, k); }
      }
    }
  }

  /** What is proposed: by each period, or by the line if it has no periods. */
  ghost predicate ProposedIn(row: RoutingRow, p: Option<string>) {
    if row.periods == [] then p == row.proposed else exists k :: 0 <= k < |row.periods| && row.periods[k].1 == p
  }

  lemma ProposalsExactly(row: RoutingRow, p: Option<string>)
    ensures p in Proposals(row) <==> ProposedIn(row, p)
  {
    if row.periods != [] {
      if k :| 0 <= k < |row.periods| && row.periods[k].1 == p { assert Proposals(row)[k] == p; }
    }
  }

  ghost predicate PeriodsDiffer(periods: seq<(string, Option<string>)>) {
    exists j, k :: 0 <= j < |periods| && 0 <= k < |periods| && periods[j].1 != periods[k].1
  }

  /** The resource of a requirement: the one that all periods propose. */
  ghost predicate Common(row: RoutingRow, resource: Option<string>) {
    if row.periods == [] then resource == row.proposed
    else
      || (forall k :: 0 <= k < |row.periods| ==> row.periods[k].1 == resource)
      || (resource == None && PeriodsDiffer(row.periods))
  }

  /** The line is known, and all that is proposed resolves to one scope. */
  ghost predicate LineRoutes(dir: Directory, subject: Subject, lineId: string, row: RoutingRow, scope: string) {
    lineId in subject.lines && forall p :: ProposedIn(row, p) ==> Resolves(dir, subject.lines[lineId], p, scope)
  }

  ghost predicate Routes(dir: Directory, subject: Subject, lineId: string) {
    exists k: nat, scope :: LastRow(subject.rows, lineId, k) && LineRoutes(dir, subject, lineId, subject.rows[k], scope)
  }

  /** The kinds of source: those of the approvers, what routed a line without a task, and the type of an asset. */
  ghost predicate Kinds(dir: Directory, line: Line, row: RoutingRow, r: Requirement) {
    forall s :: s in r.sources <==>
      || (exists u :: u in r.approvers && s in r.approvers[u])
      || (line.task.None? && exists routing :: RoutedBy(dir, line, Proposals(row), routing) && s in routing)
      || (s == AssetTypeSource && row.kind == "ASSET")
  }

  /** What a requirement freezes. */
  ghost predicate Freezes(dir: Directory, subject: Subject, lineId: string, r: Requirement) {
    exists k: nat :: LastRow(subject.rows, lineId, k) && FreezesRow(dir, subject, lineId, subject.rows[k], r)
  }

  ghost predicate FreezesRow(dir: Directory, subject: Subject, lineId: string, row: RoutingRow, r: Requirement) {
    && lineId in subject.lines && r.lineId == lineId && r.task == subject.lines[lineId].task
    && r.scope.Some? && LineRoutes(dir, subject, lineId, row, r.scope.value)
    && FrozenApprovers(dir, subject.lines[lineId], Proposals(row), r.scope.value, r.approvers)
    && Common(row, r.resource) && r.assetType == row.assetType && r.asset == row.asset
    && Kinds(dir, subject.lines[lineId], row, r)
  }

  /** Every proposal resolves to some scope. */
  ghost predicate EachResolves(dir: Directory, line: Line, row: RoutingRow) {
    forall p :: ProposedIn(row, p) ==> !Unresolved(dir, line, p)
  }

  /** Why a line has no requirement. */
  ghost predicate LineFails(dir: Directory, subject: Subject, lineId: string, e: CycleError) {
    match e
    case NoActiveLine => false
    case RoutingIncomplete(l) => l == lineId && forall k: nat :: !LastRow(subject.rows, lineId, k)
    case LineNotFound(l) => l == lineId && lineId !in subject.lines && exists k: nat :: LastRow(subject.rows, lineId, k)
    case RoutingBlocked(l) =>
      && l == lineId && lineId in subject.lines
      && exists k: nat, p ::
           LastRow(subject.rows, lineId, k) && ProposedIn(subject.rows[k], p) &&
               Unresolved(dir, subject.lines[lineId], p)
    case PeriodRoutingIncompatible(l) =>
      && l == lineId && lineId in subject.lines && !Routes(dir, subject, lineId)
      && exists k: nat ::
           LastRow(subject.rows, lineId, k) && EachResolves(dir, subject.lines[lineId], subject.rows[k])
  }

  lemma CommonExactly(row: RoutingRow)
    ensures Common(row, EffectiveResource(row))
  {
    if row.periods != [] && exists q :: q in row.periods && q.1 != row.periods[0].1 {
      var q :| q in row.periods && q.1 != row.periods[0].1;
      var k :| 0 <= k < |row.periods| && row.periods[k] == q;
      assert row.periods[0].1 != row.periods[k].1;
    }
  }

  lemma KindsExactly(dir: Directory, line: Line, row: RoutingRow, routed: Routed, r: Requirement)
    requires RoutedBy(dir, line, Proposals(row), routed.sources)
    requires r.approvers == routed.approvers && r.sources == SourceKinds(routed, line, row)
    ensures Kinds(dir, line, row, r)
  {
    forall s ensures s in ApproverSources(r.approvers) <==> exists u :: u in r.approvers && s in r.approvers[u] {
    }
    forall routing | RoutedBy(dir, line, Proposals(row), routing) ensures routing == routed.sources {
      forall s ensures s in routing <==>
          s in routed.sources { RoutingIsOne(dir, line, row, routing, routed.sources, s); }
    }
  }

  lemma RoutingIsOne(dir: Directory, line: Line, row: RoutingRow, x: set<Source>, y: set<Source>, s: Source)
    requires RoutedBy(dir, line, Proposals(row), x) && RoutedBy(dir, line, Proposals(row), y)
    ensures s in x <==> s in y
  {
    if s in x { assert s == RequiredResourceClass || s == ProposedResourceClass; }
    if s in y { assert s == RequiredResourceClass || s == ProposedResourceClass; }
  }

  lemma LineRoutesExactly(dir: Directory, subject: Subject, lineId: string, row: RoutingRow, scope: string)
    requires lineId in subject.lines
    ensures LineRoutes(dir, subject, lineId, row, scope) <==>
              RoutedTo(dir, subject.lines[lineId], Proposals(row), scope)
  {
    forall p ensures p in Proposals(row) <==> ProposedIn(row, p) { ProposalsExactly(row, p); }
  }

  lemma RequirementFreezes(dir: Directory, subject: Subject, lineId: string)
    requires RequirementFor(dir, subject, lineId).Ok?
    ensures Freezes(dir, subject, lineId, RequirementFor(dir, subject, lineId).value) && Routes(dir, subject, lineId)
  {
    var row, r := RowOf(subject.rows, lineId).value, RequirementFor(dir, subject, lineId).value;
    LastRowFound(subject.rows, lineId);
    var k: nat :| LastRow(subject.rows, lineId, k);
    var line := subject.lines[lineId];
    RoutingEndsSo(dir, line, Proposals(row));
    var routed := RouteProposals(dir, line, Proposals(row)).routed;
    LineRoutesExactly(dir, subject, lineId, row, routed.scope);
    CommonExactly(row);
    KindsExactly(dir, line, row, routed, r);
    assert FreezesRow(dir, subject, lineId, subject.rows[k], r);
  }

  lemma RequirementFails(dir: Directory, subject: Subject, lineId: string)
    requires RequirementFor(dir, subject, lineId).Err?
    ensures LineFails(dir, subject, lineId, RequirementFor(dir, subject, lineId).error)
    ensures !Routes(dir, subject, lineId)
  {
    LastRowFound(subject.rows, lineId);
    if RowOf(subject.rows, lineId).Some? {
      var k: nat :| LastRow(subject.rows, lineId, k);
      RowFails(dir, subject, lineId, k);
    }
  }

  lemma RowFails(dir: Directory, subject: Subject, lineId: string, k: nat)
    requires RequirementFor(dir, subject, lineId).Err? && LastRow(subject.rows, lineId, k)
    ensures LineFails(dir, subject, lineId, RequirementFor(dir, subject, lineId).error)
    ensures !Routes(dir, subject, lineId)
  {
    LastRowFound(subject.rows, lineId);
    var row := subject.rows[k];
    if lineId in subject.lines {
      var line := subject.lines[lineId];
      RoutingEndsSo(dir, line, Proposals(row));
      forall scope ensures !LineRoutes(dir, subject, lineId, row, scope) {
        LineRoutesExactly(dir, subject, lineId, row, scope);
      }
      forall p ensures p in Proposals(row) <==> ProposedIn(row, p) { ProposalsExactly(row, p); }
    }
  }

  lemma RequirementEnds(dir: Directory, subject: Subject, lineId: string)
    ensures var r := RequirementFor(dir, subject, lineId);
            && (r.Ok? <==> Routes(dir, subject, lineId))
            && if r.Ok? then Freezes(dir, subject, lineId, r.value) else LineFails(dir, subject, lineId, r.error)
  {
    if RequirementFor(dir, subject, lineId).Ok? {
      RequirementFreezes(dir, subject, lineId);
    } else {
      RequirementFails(dir, subject, lineId);
    }
  }

  /** How the building of a cycle ends. */
  ghost predicate Built(dir: Directory, subject: Subject, result: Result<Snapshot>) {
    var lines := subject.activeLines;
    && (result.Ok? <==> lines != [] && forall l :: l in lines ==> Routes(dir, subject, l))
    && (result.Ok? ==>
         && |result.value.requirements| == |lines|
         && forall i :: 0 <= i < |lines| ==> Freezes(dir, subject, lines[i], result.value.requirements[i]))
    && (result == Err(NoActiveLine) <==> lines == [])
    && (result.Err? && lines != [] ==> exists i: nat :: FailsFirst(dir, subject, i, result.error))
  }

  /** The first line that fails, and why. */
  ghost predicate FailsFirst(dir: Directory, subject: Subject, i: nat, e: CycleError) {
    && i < |subject.activeLines| && LineFails(dir, subject, subject.activeLines[i], e)
    && forall j :: 0 <= j < i ==> Routes(dir, subject, subject.activeLines[j])
  }

  lemma {:induction false} FirstErrorFound<T>(attempts: seq<Result<T>>) returns (i: nat)
    requires Collect(attempts).Err?
    ensures i < |attempts| && attempts[i].Err? && Collect(attempts).error == attempts[i].error
    ensures forall j :: 0 <= j < i ==> attempts[j].Ok?
  {
    var before := attempts[..|attempts| - 1];
    if Collect(before).Err? {
      i := FirstErrorFound(before);
    } else {
      i := |attempts| - 1;
      CollectedAll(before);
    }
  }

  lemma CycleIsBuilt(dir: Directory, subject: Subject)
    ensures Built(dir, subject, NewCycle(dir, subject))
  {
    var attempts, result := Attempts(dir, subject), NewCycle(dir, subject);
    if result.Ok? {
      CollectedAll(attempts);
      forall i | 0 <= i < |attempts|
        ensures Freezes(dir, subject, subject.activeLines[i], result.value.requirements[i])
        ensures Routes(dir, subject, subject.activeLines[i])
      {
        RequirementFreezes(dir, subject, subject.activeLines[i]);
      }
    } else if subject.activeLines != [] {
      var i := FirstErrorFound(attempts);
      RequirementFails(dir, subject, subject.activeLines[i]);
      forall j | 0 <= j < i ensures Routes(dir, subject, subject.activeLines[j]) {
        RequirementFreezes(dir, subject, subject.activeLines[j]);
      }
      assert FailsFirst(dir, subject, i, result.error) && subject.activeLines[i] in subject.activeLines;
    }
  }

  method BuildRequirement(dir: Directory, subject: Subject, lineId: string) returns (result: Result<Requirement>)
    ensures result == RequirementFor(dir, subject, lineId)
  {
    var row := RowOf(subject.rows, lineId);
    if row.None? { return Err(RoutingIncomplete(lineId)); }
    if lineId !in subject.lines { return Err(LineNotFound(lineId)); }
    var line := subject.lines[lineId];
    var outcome := ResolveProposals(dir, line, Proposals(row.value));
    match outcome
    case Blocked(_, _) => result := Err(RoutingBlocked(lineId));
    case PeriodsIncompatible(_) => result := Err(PeriodRoutingIncompatible(lineId));
    case Accepted(routed) =>
      result := Ok(Requirement(lineId, line.task, Some(routed.scope), EffectiveResource(row.value),
          SourceKinds(routed, line, row.value),
                               routed.approvers, row.value.assetType, row.value.asset));
  }

  lemma CollectedNext<T>(attempts: seq<Result<T>>, i: nat, before: seq<T>)
    requires i < |attempts| && Collect(attempts[..i]) == Ok(before)
    ensures Collect(attempts[..i + 1]) ==
            if attempts[i].Err? then Err(attempts[i].error) else Ok(before + [attempts[i].value])
  {
    assert attempts[..i + 1][..i] == attempts[..i];
  }

  /** The requirements of the first lines, and their entries. */
  ghost predicate Collected(attempts: seq<Result<Requirement>>, rows: seq<RoutingRow>, i: nat,
      requirements: seq<Requirement>, entries: seq<Entry>)
    requires i <= |attempts|
  {
    && Collect(attempts[..i]) == Ok(requirements)
    && (forall r :: r in requirements ==> r.scope.Some? && RowOf(rows, r.lineId).Some?)
    && entries == SubmittedEntries(requirements, rows)
  }

  lemma CollectedStep(attempts: seq<Result<Requirement>>, rows: seq<RoutingRow>, i: nat,
      requirements: seq<Requirement>, entries: seq<Entry>, r: Requirement)
    requires i < |attempts| && Collected(attempts, rows, i, requirements, entries)
    requires attempts[i] == Ok(r) && r.scope.Some? && RowOf(rows, r.lineId).Some?
    ensures Collected(attempts, rows, i + 1, requirements + [r],
                      entries + [SubmittedEntry(r, RowOf(rows, r.lineId).value)])
  {
    CollectedNext(attempts, i, requirements);
    AppendRequirement(requirements, r, rows);
  }

  /** The routing loop and the fingerprint of initialize_cycle. */
  method CollectRequirements(dir: Directory, subject: Subject) returns (result: Result<Snapshot>)
    ensures result == NewCycle(dir, subject)
  {
    var lineIds := subject.activeLines;
    if lineIds == [] { return Err(NoActiveLine); }
    var requirements: seq<Requirement>, entries: seq<Entry> := [], [];
    ghost var attempts := Attempts(dir, subject);
    for i := 0 to |lineIds|
      invariant Collected(attempts, subject.rows, i, requirements, entries)
    {
      var r := BuildRequirement(dir, subject, lineIds[i]);
      if r.Err? {
        CollectedNext(attempts, i, requirements);
        FirstErrorStays(attempts, i + 1);
        return Err(r.error);
      }
      RequirementIsFaithful(dir, subject, lineIds[i]);
      CollectedStep(attempts, subject.rows, i, requirements, entries, r.value);
      requirements := requirements + [r.value];
      entries := entries + [SubmittedEntry(r.value, RowOf(subject.rows, lineIds[i]).value)];
    }
    assert attempts[..|lineIds|] == attempts;
    result := Ok(Snapshot(requirements, SubjectFingerprint(subject.record, entries)));
  }

  method BuildCycle(dir: Directory, subject: Subject) returns (result: Result<Snapshot>)
    ensures Built(dir, subject, result)
    ensures result.Ok? ==> IsCycleOf(result.value, subject)
    ensures result == NewCycle(dir, subject)
  {
    result := CollectRequirements(dir, subject);
    CycleIsBuilt(dir, subject);
  }

  lemma AppendRequirement(reqs: seq<Requirement>, r: Requirement, rows: seq<RoutingRow>)
    requires forall q :: q in reqs ==> q.scope.Some? && RowOf(rows, q.lineId).Some?
    requires r.scope.Some? && RowOf(rows, r.lineId).Some?
    ensures SubmittedEntries(reqs + [r], rows) ==
            SubmittedEntries(reqs, rows) + [SubmittedEntry(r, RowOf(rows, r.lineId).value)]
  {
    assert (reqs + [r])[..|reqs|] == reqs;
  }

  // ---------------------------------------------------------------- the current fingerprint

  function RequirementOf(reqs: seq<Requirement>, lineId: string): Option<Requirement> {
    if reqs == [] then None
    else if reqs[|reqs| - 1].lineId == lineId then Some(reqs[|reqs| - 1])
    else RequirementOf(reqs[..|reqs| - 1], lineId)
  }

  function CurrentEntry(reqs: seq<Requirement>, row: RoutingRow): Entry {
    var submitted := RequirementOf(reqs, row.lineId);
    Entry(row.lineId, row.task,
          if submitted.Some? && submitted.value.scope.Some? then [submitted.value.scope.value] else row.scopeIds,
          if submitted.Some? then submitted.value.sources else {},
          EffectiveResource(row), row.asset, row.periods)
  }

  function CurrentEntries(reqs: seq<Requirement>, rows: seq<RoutingRow>): (r: seq<Entry>)
    ensures |r| == |rows| && forall i :: 0 <= i < |rows| ==> r[i] == CurrentEntry(reqs, rows[i])
  {
    seq(|rows|, i requires 0 <= i < |rows| => CurrentEntry(reqs, rows[i]))
  }

  /** _current_fingerprint: a function of the frozen requirements and the current subject alone. */
  function CurrentFingerprint(reqs: seq<Requirement>, subject: Subject): Fingerprint {
    SubjectFingerprint(subject.record, CurrentEntries(reqs, subject.rows))
  }

  predicate Matches(cycle: Snapshot, subject: Subject) {
    CurrentFingerprint(cycle.requirements, subject) == cycle.fingerprint
  }

  // ---------------------------------------------------------------- what a match means

  ghost predicate DistinctLines(lineIds: seq<string>) {
    forall i, j :: 0 <= i < j < |lineIds| ==> lineIds[i] != lineIds[j]
  }

  ghost predicate DistinctEntries(entries: seq<Entry>) {
    forall i, j :: 0 <= i < j < |entries| ==> entries[i].lineId != entries[j].lineId
  }

  /** One routing input per active line, as both repositories read them. */
  ghost predicate Covered(subject: Subject) {
    && DistinctLines(subject.activeLines)
    && |subject.rows| == |subject.activeLines|
    && forall i :: 0 <= i < |subject.rows| ==> subject.rows[i].lineId == subject.activeLines[i]
  }

  lemma {:induction false} NoEntriesOf(entries: seq<Entry>, lineId: string)
    requires forall e :: e in entries ==> e.lineId != lineId
    ensures EntriesOf(entries, lineId) == []
  {
    if entries != [] { NoEntriesOf(entries[1..], lineId); }
  }

  lemma {:induction false} OneEntryOf(entries: seq<Entry>, i: nat)
    requires DistinctEntries(entries) && i < |entries|
    ensures EntriesOf(entries, entries[i].lineId) == [Canonical(entries[i])]
  {
    if i == 0 {
      NoEntriesOf(entries[1..], entries[0].lineId);
    } else {
      OneEntryOf(entries[1..], i - 1);
    }
  }

  /** The request fields and authorizations of two subjects agree. */
  ghost predicate SameRecord(a: SubjectRecord, b: SubjectRecord) {
    && a.requestId == b.requestId && a.projectId == b.projectId && a.priority == b.priority
    && a.siteClient == b.siteClient && a.location == b.location && a.lineMode == b.lineMode
    && SameAuthorizations(a.authorization, b.authorization)
  }

  /** The authorizations of one identity, in their order. */
  ghost function OfIdentity(entries: seq<Authorization>, identity: string): (r: seq<Authorization>)
    ensures forall x :: x in r ==> x.identity == identity
  {
    if entries == [] then []
    else (if entries[0].identity == identity then [entries[0]] else []) + OfIdentity(entries[1..], identity)
  }

  /** The same content, and the same competencies whatever their order, repetition and blanks. */
  ghost predicate SameAuthorization(x: Authorization, y: Authorization) {
    x.content == y.content && forall c :: c != "" ==> (c in x.competencies <==> c in y.competencies)
  }

  /** Identity by identity, the authorizations agree one by one. */
  ghost predicate SameAuthorizations(a: seq<Authorization>, b: seq<Authorization>) {
    forall identity :: SameOfIdentity(OfIdentity(a, identity), OfIdentity(b, identity))
  }

  ghost predicate SameOfIdentity(x: seq<Authorization>, y: seq<Authorization>) {
    |x| == |y| && forall k :: 0 <= k < |x| ==> SameAuthorization(x[k], y[k])
  }

  lemma {:induction false} AuthorizationsAt(entries: seq<Authorization>, identity: string)
    ensures var of := OfIdentity(entries, identity);
            && |AuthorizationsOf(entries, identity)| == |of|
            && (of != [] <==> exists a :: a in entries && a.identity == identity)
            && forall k :: 0 <= k < |of| ==>
                 AuthorizationsOf(entries, identity)[k] ==
                 CanonicalAuthorization(NonBlank(of[k].competencies), of[k].content)
  {
    if entries != [] {
      AuthorizationsAt(entries[1..], identity);
      assert entries == [entries[0]] + entries[1..];
    }
  }

  lemma SameCompetencies(x: Authorization, y: Authorization)
    ensures SameAuthorization(x, y) <==>
            CanonicalAuthorization(NonBlank(x.competencies), x.content) ==
            CanonicalAuthorization(NonBlank(y.competencies), y.content)
  {
    if NonBlank(x.competencies) == NonBlank(y.competencies) {
      forall c | c != "" ensures c in x.competencies <==> c in y.competencies {
        assert c in NonBlank(x.competencies) <==> c in NonBlank(y.competencies);
      }
    }
  }

  lemma SameOfIdentityExactly(a: seq<Authorization>, b: seq<Authorization>, identity: string)
    ensures AuthorizationsOf(a, identity) == AuthorizationsOf(b, identity) <==>
            SameOfIdentity(OfIdentity(a, identity), OfIdentity(b, identity))
  {
    var x, y := OfIdentity(a, identity), OfIdentity(b, identity);
    AuthorizationsAt(a, identity);
    AuthorizationsAt(b, identity);
    if |x| == |y| {
      forall k | 0 <= k < |x|
        ensures AuthorizationsOf(a, identity)[k] == AuthorizationsOf(b, identity)[k] <==> SameAuthorization(x[k], y[k])
      {
        SameCompetencies(x[k], y[k]);
      }
    }
  }

  /** The canonical authorizations are equal exactly if the authorizations agree. */
  lemma AuthorizationsExactly(a: seq<Authorization>, b: seq<Authorization>)
    ensures CanonicalAuthorizations(a) == CanonicalAuthorizations(b) <==> SameAuthorizations(a, b)
  {
    var x, y := CanonicalAuthorizations(a), CanonicalAuthorizations(b);
    forall i
      ensures i in x <==> OfIdentity(a, i) != []
      ensures i in y <==> OfIdentity(b, i) != []
      ensures AuthorizationsOf(a, i) == AuthorizationsOf(b, i) <==> SameOfIdentity(OfIdentity(a, i), OfIdentity(b, i))
    {
      AuthorizationsAt(a, i);
      AuthorizationsAt(b, i);
      SameOfIdentityExactly(a, b, i);
    }
    if x == y {
      forall i ensures SameOfIdentity(OfIdentity(a, i), OfIdentity(b, i)) {
        if i in x { assert x[i] == y[i]; }
      }
    }
    if SameAuthorizations(a, b) {
      forall i ensures i in x <==> i in y {
        assert SameOfIdentity(OfIdentity(a, i), OfIdentity(b, i));
      }
      assert x.Keys == y.Keys;
      forall i | i in x ensures x[i] == y[i] {
        assert SameOfIdentity(OfIdentity(a, i), OfIdentity(b, i));
      }
    }
  }

  /** What the canonical form of an entry says: its task, its scopes without order, repetition and blanks, its sources,
      its periods without order, and the proposals that its sources make count. */
  lemma CanonicalExactly(e: Entry, f: Entry)
    ensures Canonical(e) == Canonical(f) <==>
              && e.task == f.task && (forall i :: i != "" ==> (i in e.scopeIds <==> i in f.scopeIds))
              && e.sources == f.sources && multiset(e.periods) == multiset(f.periods)
              && (ProposedResource in e.sources ==> e.resource == f.resource)
              && (AssetTypeSource in e.sources ==> e.asset == f.asset)
  {
    if NonBlank(e.scopeIds) == NonBlank(f.scopeIds) {
      forall i | i != "" ensures i in e.scopeIds <==> i in f.scopeIds {
        assert i in NonBlank(e.scopeIds) <==> i in NonBlank(f.scopeIds);
      }
    }
  }

  ghost predicate SameEntries(x: seq<Entry>, y: seq<Entry>) {
    && LinesOf(x) == LinesOf(y)
    && (forall e, f :: e in x && f in y && e.lineId == f.lineId ==> Canonical(e) == Canonical(f))
  }

  lemma RoutingOfEntry(x: seq<Entry>, e: Entry)
    requires DistinctEntries(x) && e in x
    ensures e.lineId in CanonicalRouting(x) && CanonicalRouting(x)[e.lineId] == [Canonical(e)]
  {
    var i :| 0 <= i < |x| && x[i] == e;
    OneEntryOf(x, i);
  }

  /** Canonical routings are equal iff they have the same lines and agree on each. */
  lemma SameRoutingExactly(x: seq<Entry>, y: seq<Entry>)
    requires DistinctEntries(x) && DistinctEntries(y)
    ensures CanonicalRouting(x) == CanonicalRouting(y) <==> SameEntries(x, y)
  {
    var fx, fy := CanonicalRouting(x), CanonicalRouting(y);
    assert fx.Keys == LinesOf(x) && fy.Keys == LinesOf(y);
    forall e, f | e in x && f in y && e.lineId == f.lineId
      ensures fx[e.lineId] == fy[e.lineId] <==> Canonical(e) == Canonical(f)
    {
      RoutingOfEntry(x, e);
      RoutingOfEntry(y, f);
      assert [Canonical(e)] == [Canonical(f)] <==> Canonical(e) == Canonical(f);
    }
    if SameEntries(x, y) {
      forall l | l in fx ensures fx[l] == fy[l] {
        var e :| e in x && e.lineId == l;
        var f :| f in y && f.lineId == l;
      }
    }
  }

  // ---------------------------------------------------------------- the cycle and the subject

  /** What the fingerprint of a requirement's line sees of a routing row: its task, its periods, the resource
      proposed for the whole line if a proposed resource gave an approver, the asset on asset lines. */
  ghost predicate Unchanged(r: Requirement, before: RoutingRow, now: RoutingRow) {
    && now.task == r.task
    && multiset(now.periods) == multiset(before.periods)
    && (ProposedResource in r.sources && before.periods == [] ==> now.proposed == before.proposed)
    && (AssetTypeSource in r.sources ==> now.asset == before.asset)
  }

  lemma SameMembers(a: seq<(string, Option<string>)>, b: seq<(string, Option<string>)>)
    requires multiset(a) == multiset(b)
    ensures (forall p :: p in a <==> p in b) && (a == [] <==> b == [])
  {
    assert forall p :: p in a <==> p in multiset(a);
    assert forall p :: p in b <==> p in multiset(b);
    assert |multiset(a)| == |a| && |multiset(b)| == |b|;
  }

  lemma SamePeriodsSameResource(a: RoutingRow, b: RoutingRow)
    requires multiset(a.periods) == multiset(b.periods) && a.periods != []
    ensures EffectiveResource(a) == EffectiveResource(b)
  {
    SameMembers(a.periods, b.periods);
    assert a.periods[0] in a.periods && b.periods[0] in b.periods;
  }

  lemma EntryUnchangedExactly(r: Requirement, before: RoutingRow, reqs: seq<Requirement>, now: RoutingRow)
    requires r.scope.Some? && r.resource == EffectiveResource(before)
    requires now.lineId == r.lineId && RequirementOf(reqs, r.lineId) == Some(r)
    ensures Canonical(SubmittedEntry(r, before)) == Canonical(CurrentEntry(reqs, now)) <==> Unchanged(r, before, now)
  {
    if multiset(before.periods) == multiset(now.periods) {
      SameMembers(before.periods, now.periods);
      if before.periods != [] { SamePeriodsSameResource(before, now); }
    }
  }

  lemma {:induction false} RequirementFound(reqs: seq<Requirement>, i: nat)
    requires i < |reqs| && forall j, k :: 0 <= j < k < |reqs| ==> reqs[j].lineId != reqs[k].lineId
    ensures RequirementOf(reqs, reqs[i].lineId) == Some(reqs[i])
  {
    if i < |reqs| - 1 { RequirementFound(reqs[..|reqs| - 1], i); }
  }

  lemma {:induction false} RowFound(rows: seq<RoutingRow>, i: nat)
    requires i < |rows| && forall j, k :: 0 <= j < k < |rows| ==> rows[j].lineId != rows[k].lineId
    ensures RowOf(rows, rows[i].lineId) == Some(rows[i])
  {
    if i < |rows| - 1 { RowFound(rows[..|rows| - 1], i); }
  }

  lemma {:induction false} SubmittedEntriesAt(reqs: seq<Requirement>, rows: seq<RoutingRow>)
    requires forall r :: r in reqs ==> r.scope.Some? && RowOf(rows, r.lineId).Some?
    ensures |SubmittedEntries(reqs, rows)| == |reqs|
    ensures forall i :: 0 <= i < |reqs| ==>
            SubmittedEntries(reqs, rows)[i] == SubmittedEntry(reqs[i], RowOf(rows, reqs[i].lineId).value)
  {
    if reqs != [] { SubmittedEntriesAt(reqs[..|reqs| - 1], rows); }
  }

  /** Requirements, rows and lines of a covered subject correspond one to one. */
  lemma CycleShape(cycle: Snapshot, subject: Subject, i: nat)
    requires Covered(subject) && IsCycleOf(cycle, subject) && i < |subject.rows|
    ensures |cycle.requirements| == |subject.rows|
    ensures var r := cycle.requirements[i];
            && IsRequirement(subject, subject.rows[i].lineId, r)
            && RequirementOf(cycle.requirements, r.lineId) == Some(r)
            && RowOf(subject.rows, r.lineId) == Some(subject.rows[i])
  {
    var reqs := cycle.requirements;
    assert IsRequirement(subject, subject.activeLines[i], reqs[i]);
    forall j, k | 0 <= j < k < |reqs| ensures reqs[j].lineId != reqs[k].lineId {
      assert IsRequirement(subject, subject.activeLines[j], reqs[j]) &&
          IsRequirement(subject, subject.activeLines[k], reqs[k]);
    }
    RequirementFound(reqs, i);
    RowFound(subject.rows, i);
  }

  function LineSet(subject: Subject): set<string> {
    set r | r in subject.rows :: r.lineId
  }

  /** The lines of a later subject are those of the cycle, and each is unchanged. */
  ghost predicate SubjectUnchanged(cycle: Snapshot, before: Subject, now: Subject)
    requires |cycle.requirements| == |before.rows|
  {
    && SameRecord(before.record, now.record)
    && LineSet(before) == LineSet(now)
    && LinesUnchanged(cycle, before, now)
  }

  ghost predicate LinesUnchanged(cycle: Snapshot, before: Subject, now: Subject)
    requires |cycle.requirements| == |before.rows|
  {
    forall i, j :: 0 <= i < |before.rows| && 0 <= j < |now.rows| && now.rows[j].lineId == before.rows[i].lineId
      ==> Unchanged(cycle.requirements[i], before.rows[i], now.rows[j])
  }

  lemma EntriesAgreeExactly(cycle: Snapshot, before: Subject, now: Subject)
    requires Covered(before) && Covered(now) && IsCycleOf(cycle, before)
    ensures var x, y := SubmittedEntries(cycle.requirements, before.rows), CurrentEntries(cycle.requirements, now.rows);
            && |x| == |before.rows|
            && (forall i :: 0 <= i < |x| ==> x[i].lineId == before.rows[i].lineId)
            && forall i, j :: 0 <= i < |x| && 0 <= j < |y| && x[i].lineId == y[j].lineId ==>
                 (Canonical(x[i]) == Canonical(y[j]) <==> Unchanged(cycle.requirements[i], before.rows[i], now.rows[j]))
  {
    var reqs := cycle.requirements;
    SubmittedEntriesAt(reqs, before.rows);
    var x, y := SubmittedEntries(reqs, before.rows), CurrentEntries(reqs, now.rows);
    forall i | 0 <= i < |x|
        ensures x[i].lineId == before.rows[i].lineId && x[i] == SubmittedEntry(reqs[i], before.rows[i]) {
      CycleShape(cycle, before, i);
    }
    forall i, j | 0 <= i < |x| && 0 <= j < |y| && x[i].lineId == y[j].lineId
      ensures Canonical(x[i]) == Canonical(y[j]) <==> Unchanged(reqs[i], before.rows[i], now.rows[j])
    {
      CycleShape(cycle, before, i);
      EntryUnchangedExactly(reqs[i], before.rows[i], reqs, now.rows[j]);
    }
  }

  lemma LinesOfEntries(x: seq<Entry>, subject: Subject)
    requires |x| == |subject.rows| && forall i :: 0 <= i < |x| ==> x[i].lineId == subject.rows[i].lineId
    ensures LinesOf(x) == LineSet(subject)
  {
    forall l | l in LinesOf(x) ensures l in LineSet(subject) {
      var i :| 0 <= i < |x| && x[i].lineId == l;
      assert subject.rows[i] in subject.rows;
    }
    forall l | l in LineSet(subject) ensures l in LinesOf(x) {
      var i :| 0 <= i < |x| && subject.rows[i].lineId == l;
      assert x[i] in x;
    }
  }

  /** A stored cycle matches a later subject exactly while the subject is unchanged: the request fields and
      authorizations, the set of lines, and what the fingerprint sees of each line. */
  lemma MatchesExactlyWhileUnchanged(cycle: Snapshot, before: Subject, now: Subject)
    requires Covered(before) && Covered(now) && IsCycleOf(cycle, before)
    ensures Matches(cycle, now) <==> SubjectUnchanged(cycle, before, now)
  {
    var x, y := SubmittedEntries(cycle.requirements, before.rows), CurrentEntries(cycle.requirements, now.rows);
    EntriesAgreeExactly(cycle, before, now);
    AuthorizationsExactly(before.record.authorization, now.record.authorization);
    LinesOfEntries(x, before);
    LinesOfEntries(y, now);
    SameRoutingExactly(x, y);
    if SameEntries(x, y) {
      forall i, j | 0 <= i < |x| && 0 <= j < |y| && x[i].lineId == y[j].lineId
          ensures Canonical(x[i]) == Canonical(y[j]) {
        assert x[i] in x && y[j] in y;
      }
    }
    if LinesUnchanged(cycle, before, now) {
      forall e, f | e in x && f in y && e.lineId == f.lineId ensures Canonical(e) == Canonical(f) {
        var i :| 0 <= i < |x| && x[i] == e;
        var j :| 0 <= j < |y| && y[j] == f;
      }
    }
  }

  /** The task the cycle repository sees on each line is the task the line was resolved with. */
  ghost predicate TasksAgree(subject: Subject) {
    forall i :: 0 <= i < |subject.rows| && subject.rows[i].lineId in subject.lines ==>
        subject.rows[i].task == subject.lines[subject.rows[i].lineId].task
  }

  /** Hence a fresh cycle matches its own subject iff the two repositories agree on the tasks. */
  lemma FreshCycleMatchesExactly(cycle: Snapshot, subject: Subject)
    requires Covered(subject) && IsCycleOf(cycle, subject)
    ensures Matches(cycle, subject) <==> TasksAgree(subject)
  {
    MatchesExactlyWhileUnchanged(cycle, subject, subject);
    forall i, j | 0 <= i < |subject.rows| && 0 <= j < |subject.rows| && subject.rows[j].lineId == subject.rows[i].lineId
      ensures i == j && subject.rows[i].lineId in subject.lines
      ensures Unchanged(cycle.requirements[i], subject.rows[i], subject.rows[j]) <==>
              subject.rows[i].task == subject.lines[subject.rows[i].lineId].task
    {
      assert subject.activeLines[i] == subject.activeLines[j];
      CycleShape(cycle, subject, i);
    }
  }

  /** Later changes to the scope configuration never change the fingerprint of a subject whose lines all
      have a requirement. */
  lemma ScopeConfigurationIsIrrelevant(reqs: seq<Requirement>, a: Subject, b: Subject)
    requires a.record == b.record && |a.rows| == |b.rows|
    requires forall i :: 0 <= i < |a.rows| ==> b.rows[i] == a.rows[i].(scopeIds := b.rows[i].scopeIds)
    requires forall i :: 0 <= i < |a.rows| ==>
             RequirementOf(reqs, a.rows[i].lineId).Some? && RequirementOf(reqs, a.rows[i].lineId).value.scope.Some?
    ensures CurrentFingerprint(reqs, a) == CurrentFingerprint(reqs, b)
  {
    var x, y := CurrentEntries(reqs, a.rows), CurrentEntries(reqs, b.rows);
    assert x == y;
  }

  /** A line without a task, routed by its class, whose work package carries the task "t". */
  function PackageTaskSubject(): Subject {
    var line := Line(true, "WORKFORCE", None, Some("A"), None, None);
    var row := RoutingRow("l", Some("t"), [], None, "WORKFORCE", [], None, None);
    Subject(SubjectRecord("d", "p", None, None, None, true, []), ["l"], [row], map["l" := line])
  }

  lemma PackageTaskLineIsRouted()
    ensures RequirementFor(TwoClassDirectory(), PackageTaskSubject(), "l").Ok?
  {
    var dir, subject := TwoClassDirectory(), PackageTaskSubject();
    var line := subject.lines["l"];
    OneScope(dir, Scope("sa", true));
    assert UpperAscii("WORKFORCE")[0] == 'W';
    var rs := Resolutions(dir, line, [None]);
    assert rs[0] == ResolveLine(dir, line, None) && rs[0].resolution.scope == Some("sa");
    forall s ensures s in Gather(rs).scopes <==> s == "sa" { GatheredScopes(rs, s); }
    CombineAccepted(rs, "sa");
    assert Proposals(subject.rows[0]) == [None];
    assert RowOf(subject.rows, "l") == Some(subject.rows[0]);
  }

  lemma OneAttempt<T>(attempts: seq<Result<T>>)
    requires |attempts| == 1 && attempts[0].Ok?
    ensures Collect(attempts).Ok?
  {
    assert attempts[..|attempts| - 1] == [];
  }

  lemma OneLineCycle(dir: Directory, subject: Subject)
    requires |subject.activeLines| == 1 && RequirementFor(dir, subject, subject.activeLines[0]).Ok?
    ensures NewCycle(dir, subject).Ok?
  {
    OneAttempt(Attempts(dir, subject));
  }

  lemma OtherTaskMismatches(dir: Directory, cycle: Result<Snapshot>)
    requires cycle == NewCycle(dir, PackageTaskSubject()) && cycle.Ok?
    ensures Covered(PackageTaskSubject()) && !Matches(cycle.value, PackageTaskSubject())
  {
    var subject := PackageTaskSubject();
    assert IsCycleOf(cycle.value, subject);
    assert subject.rows[0].task == Some("t") && subject.lines["l"].task == None;
    FreshCycleMatchesExactly(cycle.value, subject);
  }

  /** The disagreement can happen: the scope repository reads the line's own task, the cycle repository that
      of its work package, and the cycle just built does not match the subject it was built from. */
  lemma FreshCycleCanMismatch()
    ensures Covered(PackageTaskSubject()) && NewCycle(TwoClassDirectory(), PackageTaskSubject()).Ok?
    ensures !Matches(NewCycle(TwoClassDirectory(), PackageTaskSubject()).value, PackageTaskSubject())
  {
    PackageTaskLineIsRouted();
    OneLineCycle(TwoClassDirectory(), PackageTaskSubject());
    OtherTaskMismatches(TwoClassDirectory(), NewCycle(TwoClassDirectory(), PackageTaskSubject()));
  }
}
