/** The commands of a demand that open, close and replace approval cycles (app/application/demand_service.py,
    app/application/business_contact_admin.py, app/application/approval_cycles.py and their SQL repositories).

    A command checks the demand it read, writes the row of the demand, and then calls a hook on its cycles. The
    flush of the row locks it, so all that follows in the transaction is one step; a refusal leaves the demand
    as it was. Permissions, the cancellation policy and the validation of the fields are parameters. */
module ApprovalLifecycle {
  import opened Options
  import opened ApprovalRouting
  import opened ApprovalCycles
  import opened ApprovalVoting

  // ---------------------------------------------------------------- opening a cycle

  /** The stored requirements of a cycle, numbered from `first`. */
  function Ballots(reqs: seq<Requirement>, first: nat): (r: seq<Ballot>)
    ensures |r| == |reqs|
    ensures forall i :: 0 <= i < |r| ==> r[i] == Ballot(first + i, reqs[i].lineId, reqs[i].approvers.Keys)
  {
    seq(|reqs|, i requires 0 <= i < |reqs| => Ballot(first + i, reqs[i].lineId, reqs[i].approvers.Keys))
  }

  function CycleOf(d: Demand, snapshot: Snapshot): Cycle {
    Cycle(d.nextId, Open, snapshot, Ballots(snapshot.requirements, d.nextId + 1), d.version, None)
  }

  /** create_cycle. */
  function Opened(d: Demand, snapshot: Snapshot): Demand {
    d.(version := d.version + 1,
       cycles := d.cycles + [CycleOf(d, snapshot)],
       nextId := d.nextId + 1 + |snapshot.requirements|)
  }

  ghost function InitializeCycle(dir: Directory, d: Demand, expected: int): Attempt<Demand> {
    if d.status != Submitted then Failed(RequestNotSubmitted)
    else
      match ActiveCycle(d)
      case Failed(e) => Failed(e)
      case Done(Some(_)) => Failed(CycleAlreadyActive)
      case Done(None) =>
        match NewCycle(dir, d.subject)
        case Err(e) => Failed(RoutingFailed(e))
        case Ok(snapshot) => if d.version != expected then Failed(SubmittedVersionConflict)
            else Done(Opened(d, snapshot))
  }

  // ---------------------------------------------------------------- hooks

  /** _initialize_approval_cycle_after_submission. */
  ghost function InitializeAfterSubmission(dir: Directory, d: Demand): Attempt<Demand> {
    if d.status != Submitted then Done(d)
    else
      match ActiveCycle(d)
      case Failed(e) => Failed(e)
      case Done(Some(_)) => Done(d)
      case Done(None) => InitializeCycle(dir, d, d.version)
  }

  /** _refresh_submitted_approval_cycle_if_subject_changed. */
  ghost function RefreshCycle(dir: Directory, d: Demand): Attempt<Demand> {
    if d.status != Submitted then Done(d)
    else
      match ActiveCycle(d)
      case Failed(e) => Failed(e)
      case Done(None) => Done(d)
      case Done(Some(i)) =>
        if Matches(d.cycles[i].snapshot, d.subject) then Done(d)
        else
          match InvalidateCycle(d, d.version)
          case Failed(e) => Failed(e)
          case Done(invalidated) => InitializeCycle(dir, invalidated, invalidated.version)
  }

  /** A new cycle after a change of contact, on a demand that had cycles but has no active one. */
  ghost function RenewCycle(dir: Directory, d: Demand): Attempt<Demand> {
    match ActiveCycle(d)
    case Failed(e) => Failed(e)
    case Done(Some(_)) => Done(d)
    case Done(None) => if d.cycles == [] then Done(d) else InitializeCycle(dir, d, d.version)
  }

  /** What a command does with the cycles once its row is written; `ReopenHook` follows mark_reapproval_required. */
  datatype Hook = NoHook | OpenHook | ReopenHook | RefreshHook | CloseHook | RenewHook

  ghost function Hooked(dir: Directory, d: Demand, hook: Hook): Attempt<Demand> {
    match hook
    case NoHook => Done(d)
    case OpenHook => InitializeAfterSubmission(dir, d)
    case ReopenHook => InitializeAfterSubmission(dir, d.(status := Submitted, approvedAt := false))
    case RefreshHook => RefreshCycle(dir, d)
    case CloseHook => InvalidateCycle(d, d.version)
    case RenewHook => RenewCycle(dir, d)
  }

  // ---------------------------------------------------------------- commands

  /** What the approved envelope says of an edit of a planned demand; NoPolicy is a service without one. */
  datatype Envelope = NoPolicy | Within | Reapprove | Refused

  /** `permitted`: permission, business blocks and the validation of the fields. `subject`: the subject after
      the edit. `relevant`: a business field is edited. `changed`: the edit differs from what is stored. */
  datatype Command =
    | Submit(permitted: bool, expected: Option<int>, subject: Subject)
    | Modify(permitted: bool, expected: Option<int>, subject: Subject, relevant: bool, withLines: bool,
             envelope: Envelope)
    | ReplacePeriods(permitted: bool, expected: Option<int>, subject: Subject, changed: bool, envelope: Envelope)
    | SelectAlternative(permitted: bool, subject: Subject, changed: bool, operational: bool)
    | Correct(permitted: bool, expected: Option<int>, commented: bool)
    | Cancel(permitted: bool, expected: Option<int>)
    | RequestCancellation(permitted: bool, expected: Option<int>, commented: bool)
    | OverrideContact(permitted: bool, version: int, changed: bool)

  /** _assert_workflow_action. */
  function Workflow(d: Demand, expected: Option<int>, permitted: bool, statuses: set<Status>): Option<Refusal> {
    if expected.Some? && expected.value != d.version then Some(DemandVersionConflict)
    else if !permitted || d.status !in statuses then Some(NotPermitted)
    else None
  }

  const EDITABLE := {Draft, ToCorrect, Submitted, Planned}

  /** The checks a command makes on the demand it read. */
  function Refusing(d: Demand, c: Command): Option<Refusal> {
    match c
    case Submit(permitted, expected, _) => Workflow(d, expected, permitted, {Draft, ToCorrect})
    case Modify(permitted, expected, _, _, withLines, _) =>
      var refusal := Workflow(d, expected, permitted, EDITABLE);
      if refusal.None? && withLines && expected.None? then Some(VersionRequired) else refusal
    case ReplacePeriods(permitted, expected, _, _, _) =>
      if expected.None? then Some(VersionRequired) else Workflow(d, expected, permitted, EDITABLE)
    case SelectAlternative(permitted, _, _, _) => Workflow(d, None, permitted, EDITABLE)
    case Correct(permitted, expected, commented) =>
      if !commented then Some(CommentRequired) else Workflow(d, expected, permitted, {Submitted})
    case Cancel(permitted, expected) => Workflow(d, expected, permitted, EDITABLE)
    case RequestCancellation(permitted, expected, commented) =>
      if !commented then Some(CommentRequired)
      else if expected.None? then Some(VersionRequired)
      else Workflow(d, expected, permitted, EDITABLE)
    case OverrideContact(permitted, version, _) =>
      if version < 1 then Some(VersionInvalid)
      else if version != d.version then Some(DemandVersionConflict)
      else if !permitted then Some(NotPermitted)
      else None
  }

  /** A command that finds nothing to change in the demand. */
  predicate Idle(c: Command) {
    match c
    case ReplacePeriods(_, _, _, changed, _) => !changed
    case SelectAlternative(_, _, changed, operational) => operational || !changed
    case OverrideContact(_, _, changed) => !changed
    case _ => false
  }

  /** The version a command hands to the compare-and-swap of the row. Without one it writes the version it read,
      plus one. */
  function SwapVersion(c: Command): Option<int> {
    match c
    case Modify(_, expected, _, _, withLines, _) => if withLines then expected else None
    case ReplacePeriods(_, expected, _, _, _) => expected
    case Cancel(_, expected) => expected
    case RequestCancellation(_, expected, _) => expected
    case _ => None
  }

  /** What a command writes in the row, besides its fields: a status, the withdrawal of the approval; and its hook. */
  datatype Effect = Effect(status: Option<Status>, withdraws: bool, hook: Hook)

  const PLAIN := Effect(None, false, NoHook)

  /** The effect of an edit of a demand read in a given status. */
  function EditEffect(before: Status, relevant: bool, envelope: Envelope): Attempt<Effect> {
    if before == Planned && relevant then
      match envelope
      case NoPolicy => Done(Effect(Some(Submitted), true, NoHook))
      case Within => Done(PLAIN)
      case Refused => Failed(EnvelopeRefused)
      case Reapprove => Done(PLAIN.(hook := ReopenHook))
    else if before == Submitted && relevant then Done(PLAIN.(hook := RefreshHook))
    else Done(PLAIN)
  }

  function EffectOf(c: Command, before: Status): Attempt<Effect> {
    match c
    case Submit(_, _, _) => Done(Effect(Some(Submitted), false, OpenHook))
    case Modify(_, _, _, relevant, withLines, envelope) => EditEffect(before, relevant || withLines, envelope)
    case ReplacePeriods(_, _, _, _, envelope) => EditEffect(before, true, envelope)
    case SelectAlternative(_, _, _, _) => Done(PLAIN)
    case Correct(_, _, _) => Done(Effect(Some(ToCorrect), false, CloseHook))
    case Cancel(_, _) => Done(Effect(Some(Cancelled), false, CloseHook))
    case RequestCancellation(_, _, _) => Done(PLAIN.(hook := CloseHook))
    case OverrideContact(_, _, _) => Done(if before == Planned then Effect(Some(Submitted), true, RenewHook) else PLAIN)
  }

  function Edited(c: Command, subject: Subject): Subject {
    if c.Submit? || c.Modify? || c.ReplacePeriods? || c.SelectAlternative? then c.subject else subject
  }

  /** The row as flushed by a session that holds `row`: a status is written only where it differs from the one
      held, and the version is that of the compare-and-swap or the held one plus one. */
  function Flushed(d: Demand, row: Demand, c: Command, effect: Effect): Demand {
    d.(version := (if SwapVersion(c).Some? then d.version else row.version) + 1,
       status := if effect.status.Some? && effect.status.value != row.status then effect.status.value else d.status,
       approvedAt := d.approvedAt && !effect.withdraws,
       subject := Edited(c, d.subject))
  }

  /** A command that nothing interrupts. */
  ghost function Run(dir: Directory, d: Demand, c: Command): Attempt<Demand> {
    if Refusing(d, c).Some? then Failed(Refusing(d, c).value)
    else if Idle(c) then Done(d)
    else if c.SelectAlternative? then
      if d.status == Submitted then RefreshCycle(dir, d.(subject := c.subject)) else Done(d.(subject := c.subject))
    else
      match EffectOf(c, d.status)
      case Failed(e) => Failed(e)
      case Done(effect) => Hooked(dir, Flushed(d, d, c, effect), effect.hook)
  }

  // ---------------------------------------------------------------- what every stored demand satisfies

  /** A cycle and its requirements are numbered one after the other. */
  ghost predicate Numbered(c: Cycle, limit: nat) {
    c.id + |c.ballots| < limit && forall k :: 0 <= k < |c.ballots| ==> c.ballots[k].id == c.id + 1 + k
  }

  ghost predicate Ordered(cycles: seq<Cycle>, limit: nat) {
    && (forall i :: 0 <= i < |cycles| ==> Numbered(cycles[i], limit))
    && (forall i, j :: 0 <= i < j < |cycles| ==> cycles[i].id + |cycles[i].ballots| < cycles[j].id)
  }

  ghost predicate FrozenApprover(c: Cycle, x: Decision) {
    exists k :: 0 <= k < |c.ballots| && c.ballots[k].id == x.requirement && x.user in c.ballots[k].approvers
  }

  ghost predicate Legitimate(cycles: seq<Cycle>, x: Decision) {
    x.approve && exists i :: 0 <= i < |cycles| && FrozenApprover(cycles[i], x)
  }

  /** Every decision is an approval by a frozen approver of its requirement. */
  ghost predicate Coherent(d: Demand) {
    d.version >= 1 && Ordered(d.cycles, d.nextId) && forall x :: x in d.decisions ==> Legitimate(d.cycles, x)
  }

  /** Only the last cycle can be open. */
  ghost predicate OneOpen(cycles: seq<Cycle>) {
    forall i :: 0 <= i < |cycles| && cycles[i].state == Open ==> i == |cycles| - 1
  }

  ghost predicate OpenIsSubmitted(d: Demand) {
    forall i :: 0 <= i < |d.cycles| && d.cycles[i].state == Open ==> d.status == Submitted
  }

  ghost predicate WellFormed(d: Demand) {
    Coherent(d) && OneOpen(d.cycles) && OpenIsSubmitted(d)
  }

  /** What every later state keeps of a cycle: what was frozen in it, that it is closed, and its revision. */
  ghost predicate Follows(a: Cycle, b: Cycle) {
    && a.id == b.id && a.snapshot == b.snapshot && a.ballots == b.ballots && a.submittedVersion == b.submittedVersion
    && (a.state != Open ==> b.state != Open && b.revision == a.revision)
  }

  /** Cycles and decisions are only added. */
  ghost predicate Grows(a: Demand, b: Demand) {
    && a.nextId <= b.nextId && a.decisions <= b.decisions
    && |a.cycles| <= |b.cycles| && forall i :: 0 <= i < |a.cycles| ==> Follows(a.cycles[i], b.cycles[i])
  }

  /** And a closed cycle is final. */
  ghost predicate Kept(a: Cycle, b: Cycle) {
    Follows(a, b) && (a.state != Open ==> a == b)
  }

  ghost predicate Lasts(a: Demand, b: Demand) {
    && a.nextId <= b.nextId && a.decisions <= b.decisions
    && |a.cycles| <= |b.cycles| && forall i :: 0 <= i < |a.cycles| ==> Kept(a.cycles[i], b.cycles[i])
  }

  ghost predicate SameState(a: Demand, b: Demand) {
    a.cycles == b.cycles && a.decisions == b.decisions && a.status == b.status
  }

  /** And whoever changes cycles, decisions or status moves the version. */
  ghost predicate Evolves(a: Demand, b: Demand) {
    Lasts(a, b) && a.version <= b.version && (a.version == b.version ==> SameState(a, b))
  }

  ghost function CompletedIds(cycles: seq<Cycle>): set<nat> {
    set c | c in cycles && c.state == Completed :: c.id
  }

  /** How a hook leaves a demand: closed cycles are final, and none is completed. */
  ghost predicate Tended(a: Demand, b: Demand) {
    Lasts(a, b) && a.version <= b.version && CompletedIds(b.cycles) <= CompletedIds(a.cycles)
  }

  lemma LastingGrows(a: Demand, b: Demand)
    requires Lasts(a, b)
    ensures Grows(a, b)
  {
    forall i | 0 <= i < |a.cycles| ensures Follows(a.cycles[i], b.cycles[i]) {
      assert Kept(a.cycles[i], b.cycles[i]);
    }
  }

  lemma GrowthComposes(a: Demand, b: Demand, c: Demand)
    requires Grows(a, b) && Grows(b, c)
    ensures Grows(a, c)
  {
    forall i | 0 <= i < |a.cycles| ensures Follows(a.cycles[i], c.cycles[i]) {
      assert Follows(a.cycles[i], b.cycles[i]) && Follows(b.cycles[i], c.cycles[i]);
    }
  }

  lemma LastingComposes(a: Demand, b: Demand, c: Demand)
    requires Lasts(a, b) && Lasts(b, c)
    ensures Lasts(a, c)
  {
    forall i | 0 <= i < |a.cycles| ensures Kept(a.cycles[i], c.cycles[i]) {
      assert Kept(a.cycles[i], b.cycles[i]) && Kept(b.cycles[i], c.cycles[i]);
    }
  }

  lemma EvolutionComposes(a: Demand, b: Demand, c: Demand)
    requires Evolves(a, b) && Evolves(b, c)
    ensures Evolves(a, c)
  {
    LastingComposes(a, b, c);
  }

  /** If only the last cycle can be open, it is the active one when it is. */
  lemma ActiveIsLast(d: Demand)
    requires OneOpen(d.cycles)
    ensures ActiveCycle(d) ==
              Done(if d.cycles != [] && d.cycles[|d.cycles| - 1].state == Open then Some(|d.cycles| - 1) else None)
  {
    if d.cycles != [] { NoneOpen(d.cycles[..|d.cycles| - 1]); }
  }

  lemma {:induction false} NoneOpen(cycles: seq<Cycle>)
    requires forall i :: 0 <= i < |cycles| ==> cycles[i].state != Open
    ensures OpenCycles(cycles) == []
  {
    if cycles != [] { NoneOpen(cycles[..|cycles| - 1]); }
  }

  lemma ApproversStayFrozen(a: seq<Cycle>, b: seq<Cycle>, x: Decision)
    requires |a| <= |b| && forall i :: 0 <= i < |a| ==> a[i].ballots == b[i].ballots
    requires Legitimate(a, x)
    ensures Legitimate(b, x)
  {
    var i :| 0 <= i < |a| && FrozenApprover(a[i], x);
    assert FrozenApprover(b[i], x);
  }

  /** Opening a cycle next to closed ones. */
  lemma OpeningKeeps(d: Demand, snapshot: Snapshot)
    requires Coherent(d)
    ensures Coherent(Opened(d, snapshot)) && Tended(d, Opened(d, snapshot))
    ensures ActiveCycle(d) == Done(None) ==>
              OneOpen(Opened(d, snapshot).cycles) && ActiveCycle(Opened(d, snapshot)) == Done(Some(|d.cycles|))
  {
    var e := Opened(d, snapshot);
    forall x | x in e.decisions ensures Legitimate(e.cycles, x) {
      ApproversStayFrozen(d.cycles, e.cycles, x);
    }
    assert forall i :: 0 <= i < |d.cycles| ==> e.cycles[i] == d.cycles[i];
    ActiveCycleExactly(d);
    if ActiveCycle(d) == Done(None) { ActiveIsLast(e); }
  }

  /** Closing a cycle, whatever is known of it: if it was closed before, its revision must stay. */
  lemma ClosingGrows(d: Demand, i: nat, state: CycleState, revision: Option<nat>)
    requires Coherent(d) && i < |d.cycles| && state != Open
    requires d.cycles[i].state == Open || revision == d.cycles[i].revision
    ensures Coherent(Closed(d, i, state, revision)) && Grows(d, Closed(d, i, state, revision))
    ensures OneOpen(d.cycles) ==> OneOpen(Closed(d, i, state, revision).cycles)
  {
    var e := Closed(d, i, state, revision);
    forall x | x in e.decisions ensures Legitimate(e.cycles, x) {
      ApproversStayFrozen(d.cycles, e.cycles, x);
    }
    assert forall j :: 0 <= j < |d.cycles| ==>
        e.cycles[j].id == d.cycles[j].id && e.cycles[j].ballots == d.cycles[j].ballots;
  }

  /** Closing the active cycle leaves none, and closed cycles are final. */
  lemma ClosingKeeps(d: Demand, i: nat, state: CycleState, revision: Option<nat>)
    requires Coherent(d) && ActiveCycle(d) == Done(Some(i)) && state != Open
    ensures var e := Closed(d, i, state, revision);
            && Coherent(e) && Lasts(d, e) && ActiveCycle(e) == Done(None) && OneOpen(e.cycles) && OpenIsSubmitted(e)
  {
    var e := Closed(d, i, state, revision);
    ActiveCycleExactly(d);
    ClosingGrows(d, i, state, revision);
    assert forall j :: 0 <= j < |e.cycles| ==> e.cycles[j].state != Open;
    NoneOpen(e.cycles);
  }

  /** Invalidating at the version just read closes the active cycle, if any. */
  lemma InvalidatingKeeps(d: Demand)
    requires Coherent(d) && ActiveCycle(d).Done?
    ensures var r := InvalidateCycle(d, d.version);
            && r.Done? && Coherent(r.value) && Tended(d, r.value) && ActiveCycle(r.value) == Done(None)
            && OneOpen(r.value.cycles) && OpenIsSubmitted(r.value)
            && r.value.status == d.status && r.value.subject == d.subject && r.value.decisions == d.decisions
            && r.value.version == d.version + (if ActiveCycle(d) == Done(None) then 0 else 1)
            && |r.value.cycles| == |d.cycles|
  {
    ActiveCycleExactly(d);
    if ActiveCycle(d).value.Some? {
      var i := ActiveCycle(d).value.value;
      ClosingKeeps(d.(version := d.version + 1), i, Invalidated, d.cycles[i].revision);
    }
  }

  lemma InitializingKeeps(dir: Directory, d: Demand, expected: int)
    requires Coherent(d) && InitializeCycle(dir, d, expected).Done?
    ensures var r := InitializeCycle(dir, d, expected).value;
            && NewCycle(dir, d.subject).Ok? && r == Opened(d, NewCycle(dir, d.subject).value)
            && WellFormed(r) && Tended(d, r) && ActiveCycle(r) == Done(Some(|d.cycles|))
  {
    OpeningKeeps(d, NewCycle(dir, d.subject).value);
  }

  lemma TendingComposes(a: Demand, b: Demand, c: Demand)
    requires Tended(a, b) && Tended(b, c)
    ensures Tended(a, c)
  {
    LastingComposes(a, b, c);
  }

  lemma SubmissionKeeps(dir: Directory, d: Demand)
    requires Coherent(d) && InitializeAfterSubmission(dir, d).Done?
    ensures var r := InitializeAfterSubmission(dir, d).value;
            && Coherent(r) && Tended(d, r) && r.status == d.status && (OneOpen(d.cycles) ==> OneOpen(r.cycles))
            && (r == d || WellFormed(r))
  {
    if d.status == Submitted && ActiveCycle(d) == Done(None) { InitializingKeeps(dir, d, d.version); }
  }

  lemma RenewalKeeps(dir: Directory, d: Demand)
    requires Coherent(d) && RenewCycle(dir, d).Done?
    ensures var r := RenewCycle(dir, d).value;
            && Coherent(r) && Tended(d, r) && r.status == d.status && (OneOpen(d.cycles) ==> OneOpen(r.cycles))
            && (r == d || WellFormed(r))
  {
    if ActiveCycle(d) == Done(None) && d.cycles != [] { InitializingKeeps(dir, d, d.version); }
  }

  /** A refresh keeps the demand, or replaces its cycle and moves the version twice. */
  lemma RefreshKeeps(dir: Directory, d: Demand)
    requires Coherent(d) && RefreshCycle(dir, d).Done?
    ensures var r := RefreshCycle(dir, d).value;
            && Coherent(r) && Tended(d, r) && r.status == d.status && (OneOpen(d.cycles) ==> OneOpen(r.cycles))
            && (r == d || (WellFormed(r) && r.version == d.version + 2))
  {
    if d.status == Submitted && ActiveCycle(d).value.Some? {
      var i := ActiveCycle(d).value.value;
      if !Matches(d.cycles[i].snapshot, d.subject) {
        InvalidatingKeeps(d);
        var e := InvalidateCycle(d, d.version).value;
        InitializingKeeps(dir, e, e.version);
        TendingComposes(d, e, RefreshCycle(dir, d).value);
      }
    }
  }

  /** A hook keeps the demand coherent with at most one open cycle, completes no cycle and touches no closed one.
      It restores well-formedness when it closes, and keeps it otherwise. */
  lemma HooksKeep(dir: Directory, d: Demand, hook: Hook)
    requires Coherent(d) && Hooked(dir, d, hook).Done?
    ensures var r := Hooked(dir, d, hook).value;
            && Coherent(r) && Tended(d, r) && (OneOpen(d.cycles) ==> OneOpen(r.cycles))
            && (OpenIsSubmitted(d) || hook == CloseHook ==> OpenIsSubmitted(r))
            && r.status == (if hook == ReopenHook then Submitted else d.status)
  {
    match hook
    case NoHook =>
    case OpenHook => SubmissionKeeps(dir, d);
    case ReopenHook => SubmissionKeeps(dir, d.(status := Submitted, approvedAt := false));
    case RefreshHook => RefreshKeeps(dir, d);
    case CloseHook => InvalidatingKeeps(d);
    case RenewHook => RenewalKeeps(dir, d);
  }

  /** A command that leaves the submitted status closes the cycle. */
  lemma LeavingCloses(c: Command, before: Status)
    requires EffectOf(c, before).Done?
    ensures var effect := EffectOf(c, before).value;
            effect.status.None? || effect.status == Some(Submitted) || effect.hook == CloseHook
  {
  }

  lemma FlushKeeps(d: Demand, row: Demand, c: Command, effect: Effect)
    requires Coherent(d)
    ensures Coherent(Flushed(d, row, c, effect)) && Lasts(d, Flushed(d, row, c, effect))
    ensures Flushed(d, row, c, effect).cycles == d.cycles
  {
  }

  /** Every command that nothing interrupts keeps a demand well-formed: at most one open cycle, only on a
      submitted demand, and every decision by a frozen approver; closed cycles and recorded decisions are never
      touched again, and no command completes a cycle. */
  lemma CommandsKeep(dir: Directory, d: Demand, c: Command)
    requires WellFormed(d) && Run(dir, d, c).Done?
    ensures WellFormed(Run(dir, d, c).value) && Evolves(d, Run(dir, d, c).value)
    ensures CompletedIds(Run(dir, d, c).value.cycles) <= CompletedIds(d.cycles)
  {
    if c.SelectAlternative? {
      if d.status == Submitted && !Idle(c) { RefreshKeeps(dir, d.(subject := c.subject)); }
    } else if !Idle(c) {
      WritingKeeps(dir, d, d.status, c, EffectOf(c, d.status).value);
    }
  }

  /** Whatever the status the command was checked in. */
  lemma WritingKeeps(dir: Directory, d: Demand, before: Status, c: Command, effect: Effect)
    requires WellFormed(d) && EffectOf(c, before) == Done(effect)
    requires Hooked(dir, Flushed(d, d, c, effect), effect.hook).Done?
    ensures var r := Hooked(dir, Flushed(d, d, c, effect), effect.hook).value;
            && WellFormed(r) && Evolves(d, r) && r.version > d.version &&
                 CompletedIds(r.cycles) <= CompletedIds(d.cycles)
  {
    var flushed := Flushed(d, d, c, effect);
    LeavingCloses(c, before);
    FlushKeeps(d, d, c, effect);
    HooksKeep(dir, flushed, effect.hook);
    LastingComposes(d, flushed, Hooked(dir, flushed, effect.hook).value);
  }

  // ---------------------------------------------------------------- the cycle after an edit

  /** No decision recorded before counts for a new cycle. */
  lemma NewCycleHasNoVotes(d: Demand, snapshot: Snapshot)
    requires Coherent(d)
    ensures QuorumOf(Ballots(snapshot.requirements, d.nextId + 1), d.decisions).satisfied == {}
  {
    var ballots := Ballots(snapshot.requirements, d.nextId + 1);
    forall b | b in ballots ensures !Satisfied(b, d.decisions) {
      if Satisfied(b, d.decisions) { VotesAreOld(d, b.id); }
    }
  }

  lemma VotesAreOld(d: Demand, requirement: nat)
    requires Coherent(d) && exists u :: ApprovedBy(d.decisions, requirement, u)
    ensures requirement < d.nextId
  {
    var u :| ApprovedBy(d.decisions, requirement, u);
    var k :| 0 <= k < |d.decisions| && d.decisions[k].approve && d.decisions[k].requirement == requirement &&
        d.decisions[k].user == u;
    assert d.decisions[k] in d.decisions;
    var i :| 0 <= i < |d.cycles| && FrozenApprover(d.cycles[i], d.decisions[k]);
    assert Numbered(d.cycles[i], d.nextId);
  }

  /** The active cycle of a demand and whether it matches the subject. */
  ghost predicate HasMatchingCycle(d: Demand) {
    ActiveCycle(d).Done? && ActiveCycle(d).value.Some? &&
        Matches(d.cycles[ActiveCycle(d).value.value].snapshot, d.subject)
  }

  /** A new cycle without any vote, the old one being invalidated. */
  ghost predicate Replaced(before: Demand, after: Demand) {
    && |after.cycles| == |before.cycles| + 1 > 1
    && ActiveCycle(after) == Done(Some(|before.cycles|)) && after.cycles[|before.cycles| - 1].state == Invalidated
    && QuorumOf(after.cycles[|before.cycles|].ballots, after.decisions).satisfied == {}
    && IsCycleOf(after.cycles[|before.cycles|].snapshot, after.subject)
  }

  /** What a refresh leaves on a submitted demand with an open cycle: the same cycle if it still matches, or
      else its replacement. */
  ghost predicate Refreshed(before: Demand, after: Demand) {
    && |before.cycles| > 0 && after.status == Submitted && after.decisions == before.decisions
    && if Matches(before.cycles[|before.cycles| - 1].snapshot, after.subject)
       then ActiveCycle(after) == Done(Some(|before.cycles| - 1)) && after.cycles == before.cycles
       else Replaced(before, after)
  }

  lemma InitializedWith(dir: Directory, d: Demand, expected: int) returns (snapshot: Snapshot)
    requires InitializeCycle(dir, d, expected).Done?
    ensures InitializeCycle(dir, d, expected).value == Opened(d, snapshot) && IsCycleOf(snapshot, d.subject)
  {
    snapshot := NewCycle(dir, d.subject).value;
  }

  lemma NewCycleReplaces(d: Demand, e: Demand, snapshot: Snapshot)
    requires |d.cycles| == |e.cycles| > 0 && e.cycles[|d.cycles| - 1].state == Invalidated && WellFormed(e)
    requires e.status == Submitted && ActiveCycle(e) == Done(None) && IsCycleOf(snapshot, e.subject)
    ensures Replaced(d, Opened(e, snapshot))
  {
    OpeningKeeps(e, snapshot);
    NewCycleHasNoVotes(e, snapshot);
  }

  lemma RefreshReplaces(dir: Directory, d: Demand)
    requires WellFormed(d) && d.status == Submitted && RefreshCycle(dir, d).Done?
    requires ActiveCycle(d).Done? && ActiveCycle(d).value.Some?
    ensures Refreshed(d, RefreshCycle(dir, d).value) && RefreshCycle(dir, d).value.subject == d.subject
  {
    ActiveIsLast(d);
    if !Matches(d.cycles[|d.cycles| - 1].snapshot, d.subject) {
      InvalidatingKeeps(d);
      var e := InvalidateCycle(d, d.version).value;
      var snapshot := InitializedWith(dir, e, e.version);
      NewCycleReplaces(d, e, snapshot);
    }
  }

  /** The edits that refresh: a business field of a submitted demand, its periods, a chosen alternative. */
  ghost predicate Refreshing(d: Demand, c: Command) {
    && d.status == Submitted && !Idle(c)
    && match c
       case Modify(_, _, _, relevant, withLines, _) => relevant || withLines
       case ReplacePeriods(_, _, _, _, _) => true
       case SelectAlternative(_, _, _, _) => true
       case _ => false
  }

  /** The demand the refresh of such an edit finds. */
  function Subjected(d: Demand, c: Command): Demand {
    if c.SelectAlternative? then d.(subject := Edited(c, d.subject)) else Flushed(d, d, c, PLAIN)
  }

  /** Such an edit of a demand with an open cycle leaves an open cycle: the old one iff it matches the edited
      subject, else a fresh one on which no earlier vote counts. The cycle matches the edited subject if it
      was kept, and if it is fresh exactly when the two repositories agree on the tasks of the lines. */
  lemma EditsLeaveAMatchingCycle(dir: Directory, d: Demand, c: Command)
    requires WellFormed(d) && ActiveCycle(d).Done? && ActiveCycle(d).value.Some?
    requires Refreshing(d, c) && Run(dir, d, c).Done? && Covered(c.subject)
    ensures var r := Run(dir, d, c).value;
            && r.subject == c.subject && Refreshed(d, r)
            && (HasMatchingCycle(r) <==> Matches(d.cycles[|d.cycles| - 1].snapshot, r.subject) || TasksAgree(r.subject))
  {
    var u := Subjected(d, c);
    EditIsRefresh(dir, d, c);
    SubjectedKeeps(d, c);
    RefreshReplaces(dir, u);
    MatchAfterRefresh(u, RefreshCycle(dir, u).value);
    ReplacedSince(d, u, RefreshCycle(dir, u).value);
  }

  /** An edit of a submitted demand that names no business field leaves its cycles alone: the open one matches
      afterwards exactly if it matches the subject as edited. */
  lemma PlainEditsKeepTheCycle(dir: Directory, d: Demand, c: Command)
    requires WellFormed(d) && d.status == Submitted && ActiveCycle(d).Done? && ActiveCycle(d).value.Some?
    requires c.Modify? && !c.relevant && !c.withLines && Refusing(d, c).None?
    ensures var r := Run(dir, d, c);
            && r.Done? && r.value.cycles == d.cycles && r.value.decisions == d.decisions && r.value.status == Submitted
            && r.value.version == d.version + 1 && r.value.subject == c.subject &&
                 ActiveCycle(r.value) == ActiveCycle(d)
            && (HasMatchingCycle(r.value) <==> Matches(d.cycles[|d.cycles| - 1].snapshot, c.subject))
  {
    var r := Run(dir, d, c).value;
    ActiveIsLast(d);
    assert ActiveCycle(r) == ActiveCycle(d);
  }

  lemma SubjectedKeeps(d: Demand, c: Command)
    requires WellFormed(d) && Refreshing(d, c)
    ensures var u := Subjected(d, c);
            && WellFormed(u) && u.status == Submitted && ActiveCycle(u) == ActiveCycle(d) && u.subject == c.subject
            && u.cycles == d.cycles && u.decisions == d.decisions
  {
    ActiveIsLast(d);
    ActiveIsLast(Subjected(d, c));
  }

  lemma ReplacedSince(d: Demand, u: Demand, r: Demand)
    requires Refreshed(u, r) && u.cycles == d.cycles && u.decisions == d.decisions
    ensures Refreshed(d, r)
  {
  }

  lemma EditIsRefresh(dir: Directory, d: Demand, c: Command)
    requires Refreshing(d, c) && Run(dir, d, c).Done?
    ensures Run(dir, d, c) == RefreshCycle(dir, Subjected(d, c))
  {
  }

  lemma MatchAfterRefresh(before: Demand, after: Demand)
    requires Refreshed(before, after) && Covered(after.subject)
    ensures HasMatchingCycle(after) <==>
              Matches(before.cycles[|before.cycles| - 1].snapshot, after.subject) || TasksAgree(after.subject)
  {
    if !Matches(before.cycles[|before.cycles| - 1].snapshot, after.subject) {
      FreshCycleMatchesExactly(after.cycles[|before.cycles|].snapshot, after.subject);
    }
  }

  // ---------------------------------------------------------------- closing and submitting

  function ClosedStatus(d: Demand, c: Command): Status {
    if c.Correct? then ToCorrect else if c.Cancel? then Cancelled else d.status
  }

  /** A correction, a cancellation or its request leaves no active cycle. */
  lemma ClosingCommandsLeaveNoCycle(dir: Directory, d: Demand, c: Command)
    requires WellFormed(d) && Run(dir, d, c).Done? && (c.Correct? || c.Cancel? || c.RequestCancellation?)
    ensures var r := Run(dir, d, c).value;
            && ActiveCycle(r) == Done(None) && r.status == ClosedStatus(d, c)
            && r.subject == d.subject && r.decisions == d.decisions
            && r.version == d.version + (if ActiveCycle(d) == Done(None) then 1 else 2)
  {
    var flushed := Flushed(d, d, c, EffectOf(c, d.status).value);
    FlushKeeps(d, d, c, EffectOf(c, d.status).value);
    ActiveIsLast(d);
    assert ActiveCycle(flushed) == ActiveCycle(d);
    InvalidatingKeeps(flushed);
  }

  /** A submission, an edit of a planned demand that the envelope sends back for approval, or a change of contact
      of a planned demand that had cycles. */
  ghost predicate Resubmits(d: Demand, c: Command) {
    && !Idle(c)
    && match c
       case Submit(_, _, _) => true
       case Modify(_, _, _, relevant, withLines, envelope) =>
         d.status == Planned && (relevant || withLines) && envelope == Reapprove
       case ReplacePeriods(_, _, _, _, envelope) => d.status == Planned && envelope == Reapprove
       case OverrideContact(_, _, _) => d.status == Planned && d.cycles != []
       case _ => false
  }

  /** The demand such a command opens a cycle for. */
  function Resubmitted(d: Demand, c: Command): Demand {
    d.(version := d.version + 1, status := Submitted, approvedAt := d.approvedAt && c.Submit?, subject :=
        Edited(c, d.subject))
  }

  /** How such a command comes to its hook. */
  lemma ResubmissionEffect(d: Demand, c: Command) returns (effect: Effect)
    requires Resubmits(d, c) && Refusing(d, c).None?
    ensures EffectOf(c, d.status) == Done(effect) && d.status != Submitted && !c.SelectAlternative?
    ensures effect.hook in {OpenHook, ReopenHook, RenewHook} && (effect.hook == RenewHook ==> d.cycles != [])
    ensures Resubmitted(d, c) == (if effect.hook == ReopenHook
                                  then Flushed(d, d, c, effect).(status := Submitted, approvedAt := false)
                                  else Flushed(d, d, c, effect))
  {
    effect := EffectOf(c, d.status).value;
  }

  lemma HookInitializes(dir: Directory, d: Demand, hook: Hook, u: Demand)
    requires hook in {OpenHook, ReopenHook, RenewHook} && (hook == RenewHook ==> d.cycles != [])
    requires u == (if hook == ReopenHook then d.(status := Submitted, approvedAt := false) else d) &&
             u.status == Submitted
    requires ActiveCycle(u) == Done(None)
    ensures Hooked(dir, d, hook) == InitializeCycle(dir, u, u.version)
  {
    ActiveCycleExactly(u);
  }

  lemma ResubmissionIsInitialization(dir: Directory, d: Demand, c: Command)
    requires Resubmits(d, c) && Refusing(d, c).None? && ActiveCycle(d) == Done(None)
    ensures Run(dir, d, c) == InitializeCycle(dir, Resubmitted(d, c), d.version + 1) && d.status != Submitted
  {
    var effect := ResubmissionEffect(d, c);
    assert ActiveCycle(Resubmitted(d, c)) == ActiveCycle(d);
    HookInitializes(dir, Flushed(d, d, c, effect), effect.hook, Resubmitted(d, c));
  }

  /** It opens a cycle on the submitted subject, on which no earlier vote counts. */
  lemma SubmissionsOpenAFreshCycle(dir: Directory, d: Demand, c: Command)
    requires WellFormed(d) && Resubmits(d, c) && Run(dir, d, c).Done?
    ensures var r, n := Run(dir, d, c).value, |d.cycles|;
            && r.status == Submitted && r.subject == Edited(c, d.subject)
            && |r.cycles| == n + 1 && ActiveCycle(r) == Done(Some(n))
            && IsCycleOf(r.cycles[n].snapshot, r.subject)
            && QuorumOf(r.cycles[n].ballots, r.decisions).satisfied == {}
  {
    ActiveIsLast(d);
    var u := Resubmitted(d, c);
    ResubmissionIsInitialization(dir, d, c);
    assert ActiveCycle(u) == ActiveCycle(d);
    var snapshot := InitializedWith(dir, u, u.version);
    OpeningKeeps(u, snapshot);
    NewCycleHasNoVotes(u, snapshot);
  }
}
