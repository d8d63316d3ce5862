/** What a demand command does, in terms of the stored demand alone: when it is refused and why, and what it leaves
    otherwise (app/application/demand_service.py, app/application/business_contact_admin.py). */
module CommandPromises {
  import opened Options
  import opened ApprovalRouting
  import opened ApprovalCycles
  import opened ApprovalVoting
  import opened ApprovalLifecycle

  // ---------------------------------------------------------------- the checks

  /** The version a command names. */
  function VersionNamed(c: Command): Option<int> {
    match c
    case Submit(_, expected, _) => expected
    case Modify(_, expected, _, _, _, _) => expected
    case ReplacePeriods(_, expected, _, _, _) => expected
    case SelectAlternative(_, _, _, _) => None
    case Correct(_, expected, _) => expected
    case Cancel(_, expected) => expected
    case RequestCancellation(_, expected, _) => expected
    case OverrideContact(_, version, _) => Some(version)
  }

  /** The statuses in which a command may be given. */
  predicate StatusAllows(c: Command, status: Status) {
    match c
    case Submit(_, _, _) => status == Draft || status == ToCorrect
    case Correct(_, _, _) => status == Submitted
    case OverrideContact(_, _, _) => true
    case _ => status != Cancelled
  }

  predicate WithoutComment(c: Command) {
    (c.Correct? || c.RequestCancellation?) && !c.commented
  }

  /** A command that must name a version and does not. */
  predicate WithoutVersion(c: Command) {
    VersionNamed(c).None? && (c.ReplacePeriods? || c.RequestCancellation? || (c.Modify? && c.withLines))
  }

  /** The checks pass. */
  predicate Accepted(d: Demand, c: Command) {
    && !WithoutComment(c) && !WithoutVersion(c) && (c.OverrideContact? ==> c.version >= 1)
    && (VersionNamed(c).Some? ==> VersionNamed(c).value == d.version)
    && c.permitted && StatusAllows(c, d.status)
  }

  /** Why they do not: the first reason in this order, where an edit of lines is checked for its version last. */
  predicate NotAccepted(d: Demand, c: Command, e: Refusal) {
    match e
    case CommentRequired => WithoutComment(c)
    case VersionInvalid => c.OverrideContact? && c.version < 1
    case VersionRequired =>
      !WithoutComment(c) && WithoutVersion(c) && (c.Modify? ==> c.permitted && StatusAllows(c, d.status))
    case DemandVersionConflict =>
      && !WithoutComment(c) && VersionNamed(c).Some? && VersionNamed(c).value != d.version
      && (c.OverrideContact? ==> c.version >= 1)
    case NotPermitted =>
      && !WithoutComment(c) && (c.Modify? || !WithoutVersion(c)) && (c.OverrideContact? ==> c.version >= 1)
      && (VersionNamed(c).Some? ==> VersionNamed(c).value == d.version)
      && (!c.permitted || !StatusAllows(c, d.status))
    case _ => false
  }

  lemma ChecksExactly(d: Demand, c: Command)
    ensures Refusing(d, c).None? <==> Accepted(d, c)
    ensures forall e :: Refusing(d, c) == Some(e) <==> NotAccepted(d, c, e)
  {
  }

  /** A command that changes nothing. */
  predicate NothingToDo(c: Command) {
    || ((c.ReplacePeriods? || c.SelectAlternative? || c.OverrideContact?) && !c.changed)
    || (c.SelectAlternative? && c.operational)
  }

  lemma IdleExactly(c: Command)
    ensures Idle(c) <==> NothingToDo(c)
  {
  }

  // ---------------------------------------------------------------- cycles before and after

  ghost predicate HasOpen(d: Demand) {
    exists i :: 0 <= i < |d.cycles| && d.cycles[i].state == Open
  }

  /** The open cycle, if there is one, is invalidated; nothing else changes. */
  ghost predicate OpenInvalidated(before: seq<Cycle>, after: seq<Cycle>) {
    && |after| == |before|
    && forall i :: 0 <= i < |before| ==>
         after[i] == if before[i].state == Open then before[i].(state := Invalidated) else before[i]
  }

  /** A cycle that was just opened on a subject: what its routing freezes, and no decision. */
  ghost predicate FreshOn(dir: Directory, subject: Subject, c: Cycle, id: nat, version: nat) {
    && c.state == Open && c.revision == None && c.id == id && c.submittedVersion == version
    && NewCycle(dir, subject) == Ok(c.snapshot)
    && |c.ballots| == |c.snapshot.requirements|
    && forall k :: 0 <= k < |c.ballots| ==>
         && c.ballots[k].id == id + 1 + k && c.ballots[k].lineId == c.snapshot.requirements[k].lineId
         && c.ballots[k].approvers == c.snapshot.requirements[k].approvers.Keys
  }

  /** After the given cycles there is one more, just opened. */
  ghost predicate OpenedAfter(dir: Directory, cycles: seq<Cycle>, nextId: nat, e: Demand, version: nat) {
    && |e.cycles| == |cycles| + 1 && cycles <= e.cycles
    && FreshOn(dir, e.subject, e.cycles[|cycles|], nextId, version)
    && e.nextId == nextId + 1 + |e.cycles[|cycles|].ballots|
  }

  /** The row, with its cycles as they were. */
  ghost predicate RowIs(d: Demand, e: Demand, status: Status, approvedAt: bool, subject: Subject, steps: nat) {
    && e.status == status && e.approvedAt == approvedAt && e.subject == subject && e.version == d.version + steps
    && e.decisions == d.decisions
  }

  ghost predicate CyclesStay(d: Demand, e: Demand) {
    e.cycles == d.cycles && e.nextId == d.nextId
  }

  // ---------------------------------------------------------------- edits

  predicate IsEdit(c: Command) {
    c.Modify? || c.ReplacePeriods?
  }

  /** An edit of business fields, lines or periods. */
  predicate BusinessEdit(c: Command) {
    c.ReplacePeriods? || (c.Modify? && (c.relevant || c.withLines))
  }

  /** The open cycle of a submitted demand does not match a subject. */
  ghost predicate Outgrown(d: Demand, subject: Subject) {
    d.status == Submitted && exists i ::
      0 <= i < |d.cycles| && d.cycles[i].state == Open && !Matches(d.cycles[i].snapshot, subject)
  }

  /** A command that needs a new cycle, and the subject of that cycle. */
  ghost predicate NeedsCycle(d: Demand, c: Command, subject: Subject) {
    match c
    case Submit(_, _, s) => subject == s
    case Modify(_, _, s, _, _, envelope) => subject == s && BusinessEdit(c) && EditNeedsCycle(d, s, envelope)
    case ReplacePeriods(_, _, s, _, envelope) => subject == s && EditNeedsCycle(d, s, envelope)
    case SelectAlternative(_, s, _, _) => subject == s && Outgrown(d, s)
    case OverrideContact(_, _, _) => subject == d.subject && d.status == Planned && d.cycles != []
    case _ => false
  }

  ghost predicate EditNeedsCycle(d: Demand, subject: Subject, envelope: Envelope) {
    (d.status == Planned && envelope == Reapprove) || Outgrown(d, subject)
  }

  /** An edit of a planned demand that its approved envelope refuses. */
  predicate EnvelopeRefuses(d: Demand, c: Command) {
    IsEdit(c) && BusinessEdit(c) && d.status == Planned && c.envelope == Refused
  }

  /** What an edit of a planned demand leaves, by what the envelope says. */
  ghost predicate PlannedEdit(dir: Directory, d: Demand, subject: Subject, envelope: Envelope, e: Demand) {
    match envelope
    case NoPolicy => RowIs(d, e, Submitted, false, subject, 1) && CyclesStay(d, e)
    case Within => RowIs(d, e, Planned, d.approvedAt, subject, 1) && CyclesStay(d, e)
    case Refused => false
    case Reapprove =>
      RowIs(d, e, Submitted, false, subject, 2) && OpenedAfter(dir, d.cycles, d.nextId, e, d.version + 1)
  }

  /** What an edit leaves. `steps`: how often it moves the version without a new cycle. */
  ghost predicate Refreshed(dir: Directory, d: Demand, subject: Subject, steps: nat, e: Demand) {
    if Outgrown(d, subject) then
      && RowIs(d, e, d.status, d.approvedAt, subject, steps + 2)
      && exists closed :: OpenInvalidated(d.cycles, closed) &&
           OpenedAfter(dir, closed, d.nextId, e, d.version + steps + 1)
    else RowIs(d, e, d.status, d.approvedAt, subject, steps) && CyclesStay(d, e)
  }

  ghost predicate EditLeaves(dir: Directory, d: Demand, c: Command, e: Demand)
    requires IsEdit(c)
  {
    if !BusinessEdit(c) then RowIs(d, e, d.status, d.approvedAt, c.subject, 1) && CyclesStay(d, e)
    else if d.status == Planned then PlannedEdit(dir, d, c.subject, c.envelope, e)
    else Refreshed(dir, d, c.subject, 1, e)
  }

  // ---------------------------------------------------------------- every command

  /** The open cycle is closed, and the row has a status. */
  ghost predicate ClosedWith(d: Demand, status: Status, e: Demand) {
    && RowIs(d, e, status, d.approvedAt, d.subject, if HasOpen(d) then 2 else 1)
    && OpenInvalidated(d.cycles, e.cycles) && e.nextId == d.nextId
  }

  /** What an accepted command leaves. */
  ghost predicate Leaves(dir: Directory, d: Demand, c: Command, e: Demand) {
    if NothingToDo(c) then e == d
    else
      match c
      case Submit(_, _, subject) =>
        && RowIs(d, e, Submitted, d.approvedAt, subject, 2)
        && OpenedAfter(dir, d.cycles, d.nextId, e, d.version + 1)
      case Modify(_, _, _, _, _, _) => EditLeaves(dir, d, c, e)
      case ReplacePeriods(_, _, _, _, _) => EditLeaves(dir, d, c, e)
      case SelectAlternative(_, subject, _, _) => Refreshed(dir, d, subject, 0, e)
      case Correct(_, _, _) => ClosedWith(d, ToCorrect, e)
      case Cancel(_, _) => ClosedWith(d, Cancelled, e)
      case RequestCancellation(_, _, _) => ClosedWith(d, d.status, e)
      case OverrideContact(_, _, _) =>
        if d.status != Planned then RowIs(d, e, d.status, d.approvedAt, d.subject, 1) && CyclesStay(d, e)
        else if d.cycles == [] then RowIs(d, e, Submitted, false, d.subject, 1) && CyclesStay(d, e)
        else
          RowIs(d, e, Submitted, false, d.subject, 2) && OpenedAfter(dir, d.cycles, d.nextId, e, d.version + 1)
  }

  /** Why an accepted command is refused: by the envelope, or because the new cycle cannot be routed. */
  ghost predicate RefusedLater(dir: Directory, d: Demand, c: Command, e: Refusal) {
    && Accepted(d, c) && !NothingToDo(c)
    && match e
       case EnvelopeRefused => EnvelopeRefuses(d, c)
       case RoutingFailed(x) => exists subject :: NeedsCycle(d, c, subject) && NewCycle(dir, subject) == Err(x)
       case _ => false
  }

  /** How a command ends. */
  ghost predicate CommandEnds(dir: Directory, d: Demand, c: Command, r: Attempt<Demand>) {
    match r
    case Done(e) => Accepted(d, c) && Leaves(dir, d, c, e)
    case Failed(e) => NotAccepted(d, c, e) || RefusedLater(dir, d, c, e)
  }

  // ---------------------------------------------------------------- proofs

  lemma OpenedIsAfter(dir: Directory, u: Demand)
    requires NewCycle(dir, u.subject).Ok?
    ensures OpenedAfter(dir, u.cycles, u.nextId, Opened(u, NewCycle(dir, u.subject).value), u.version)
  {
    var snapshot := NewCycle(dir, u.subject).value;
    assert FreshOn(dir, u.subject, CycleOf(u, snapshot), u.nextId, u.version);
  }

  /** Opening a cycle on a submitted demand that has none open. */
  lemma OpeningEnds(dir: Directory, u: Demand)
    requires u.status == Submitted && ActiveCycle(u) == Done(None)
    ensures var r := InitializeCycle(dir, u, u.version);
            && (r.Done? ==> && RowIs(u, r.value, Submitted, u.approvedAt, u.subject, 1)
                            && OpenedAfter(dir, u.cycles, u.nextId, r.value, u.version))
            && (r.Failed? ==> r.error.RoutingFailed? && NewCycle(dir, u.subject) == Err(r.error.routing))
  {
    if NewCycle(dir, u.subject).Ok? { OpenedIsAfter(dir, u); }
  }

  lemma NotOpenHasNone(d: Demand)
    requires WellFormed(d)
    ensures ActiveCycle(d).Done?
    ensures ActiveCycle(d) == Done(None) <==> !HasOpen(d)
    ensures d.status != Submitted ==> ActiveCycle(d) == Done(None)
    ensures ActiveCycle(d) != Done(None) ==> ActiveCycle(d) == Done(Some(|d.cycles| - 1))
  {
    ActiveIsLast(d);
    ActiveCycleExactly(d);
  }

  lemma InvalidationEnds(d: Demand)
    requires OneOpen(d.cycles)
    ensures var r := InvalidateCycle(d, d.version);
            && r.Done? && r.value.status == d.status && r.value.approvedAt == d.approvedAt
            && r.value.subject == d.subject && r.value.decisions == d.decisions && r.value.nextId == d.nextId
            && r.value.version == d.version + (if HasOpen(d) then 1 else 0)
            && OpenInvalidated(d.cycles, r.value.cycles)
  {
    ActiveIsLast(d);
    ActiveCycleExactly(d);
  }

  /** The open cycle is invalidated and another opened. */
  lemma ReplacementEnds(dir: Directory, u: Demand, closed: Demand)
    requires WellFormed(u) && Outgrown(u, u.subject) && InvalidateCycle(u, u.version) == Done(closed)
    ensures var r := InitializeCycle(dir, closed, closed.version);
            && (r.Done? ==> Refreshed(dir, u, u.subject, 0, r.value))
            && (r.Failed? ==> r.error.RoutingFailed? && NewCycle(dir, u.subject) == Err(r.error.routing))
  {
    InvalidationEnds(u);
    InvalidatingKeeps(u);
    OpeningEnds(dir, closed);
  }

  lemma RefreshEnds(dir: Directory, u: Demand)
    requires WellFormed(u)
    ensures var r := RefreshCycle(dir, u);
            && (r.Done? ==> Refreshed(dir, u, u.subject, 0, r.value))
            && (r.Failed? ==>
                 && Outgrown(u, u.subject) && r.error.RoutingFailed?
                 && NewCycle(dir, u.subject) == Err(r.error.routing))
  {
    NotOpenHasNone(u);
    if u.status == Submitted && HasOpen(u) && !Matches(u.cycles[|u.cycles| - 1].snapshot, u.subject) {
      assert Outgrown(u, u.subject);
      InvalidationEnds(u);
      ReplacementEnds(dir, u, InvalidateCycle(u, u.version).value);
    }
  }

  /** The refresh of an edited demand. */
  lemma EditedRefreshEnds(dir: Directory, d: Demand, subject: Subject, steps: nat, u: Demand)
    requires WellFormed(d) && u == d.(version := d.version + steps, subject := subject)
    ensures var r := RefreshCycle(dir, u);
            && (r.Done? ==> Refreshed(dir, d, subject, steps, r.value))
            && (r.Failed? ==> Outgrown(d, subject) && r.error.RoutingFailed? &&
                              NewCycle(dir, subject) == Err(r.error.routing))
  {
    RefreshEnds(dir, u);
  }

  lemma ResubmissionEnds(dir: Directory, d: Demand, c: Command)
    requires WellFormed(d) && Accepted(d, c) && !NothingToDo(c) && Resubmits(d, c)
    ensures CommandEnds(dir, d, c, Run(dir, d, c))
  {
    ChecksExactly(d, c);
    NotOpenHasNone(d);
    ResubmissionIsInitialization(dir, d, c);
    var u := Resubmitted(d, c);
    assert ActiveCycle(u) == ActiveCycle(d);
    OpeningEnds(dir, u);
    assert NeedsCycle(d, c, u.subject);
  }

  lemma SelectionEnds(dir: Directory, d: Demand, c: Command)
    requires WellFormed(d) && Accepted(d, c) && !NothingToDo(c) && c.SelectAlternative?
    ensures CommandEnds(dir, d, c, Run(dir, d, c))
  {
    ChecksExactly(d, c);
    EditedRefreshEnds(dir, d, c.subject, 0, d.(subject := c.subject));
    assert Outgrown(d, c.subject) ==> NeedsCycle(d, c, c.subject);
  }

  lemma RefreshingEditEnds(dir: Directory, d: Demand, c: Command)
    requires WellFormed(d) && Accepted(d, c) && !NothingToDo(c) && IsEdit(c)
    requires BusinessEdit(c) && d.status == Submitted
    ensures CommandEnds(dir, d, c, Run(dir, d, c))
  {
    ChecksExactly(d, c);
    var u := d.(version := d.version + 1, subject := c.subject);
    assert Run(dir, d, c) == RefreshCycle(dir, u) by { assert Flushed(d, d, c, PLAIN.(hook := RefreshHook)) == u; }
    EditedRefreshEnds(dir, d, c.subject, 1, u);
    if Outgrown(d, c.subject) { assert NeedsCycle(d, c, c.subject); }
  }

  lemma PlannedEditEnds(dir: Directory, d: Demand, c: Command)
    requires WellFormed(d) && Accepted(d, c) && !NothingToDo(c) && IsEdit(c) && !Resubmits(d, c)
    requires BusinessEdit(c) && d.status == Planned
    ensures CommandEnds(dir, d, c, Run(dir, d, c))
  {
    ChecksExactly(d, c);
    assert !Outgrown(d, c.subject);
  }

  lemma PlainEditEnds(dir: Directory, d: Demand, c: Command)
    requires WellFormed(d) && Accepted(d, c) && !NothingToDo(c) && IsEdit(c)
    requires !BusinessEdit(c) || (d.status != Planned && d.status != Submitted)
    ensures CommandEnds(dir, d, c, Run(dir, d, c))
  {
    ChecksExactly(d, c);
    assert Run(dir, d, c) == Done(Flushed(d, d, c, PLAIN));
  }

  lemma EditEnds(dir: Directory, d: Demand, c: Command)
    requires WellFormed(d) && Accepted(d, c) && !NothingToDo(c) && IsEdit(c) && !Resubmits(d, c)
    ensures CommandEnds(dir, d, c, Run(dir, d, c))
  {
    if BusinessEdit(c) && d.status == Submitted { RefreshingEditEnds(dir, d, c); }
    else if BusinessEdit(c) && d.status == Planned { PlannedEditEnds(dir, d, c); }
    else { PlainEditEnds(dir, d, c); }
  }

  lemma ClosingEnds(dir: Directory, d: Demand, c: Command)
    requires WellFormed(d) && Accepted(d, c) && (c.Correct? || c.Cancel? || c.RequestCancellation?)
    ensures CommandEnds(dir, d, c, Run(dir, d, c))
  {
    ChecksExactly(d, c);
    InvalidationEnds(Flushed(d, d, c, EffectOf(c, d.status).value));
  }

  lemma ContactEnds(dir: Directory, d: Demand, c: Command)
    requires WellFormed(d) && Accepted(d, c) && !NothingToDo(c) && c.OverrideContact? && !Resubmits(d, c)
    ensures CommandEnds(dir, d, c, Run(dir, d, c))
  {
    ChecksExactly(d, c);
  }

  /** Every command on a well-formed demand ends so. */
  lemma CommandEndsSo(dir: Directory, d: Demand, c: Command)
    requires WellFormed(d)
    ensures CommandEnds(dir, d, c, Run(dir, d, c))
  {
    ChecksExactly(d, c);
    if Accepted(d, c) && !NothingToDo(c) {
      if Resubmits(d, c) { ResubmissionEnds(dir, d, c); }
      else {
        match c
        case Submit(_, _, _) =>
        case Modify(_, _, _, _, _, _) => EditEnds(dir, d, c);
        case ReplacePeriods(_, _, _, _, _) => EditEnds(dir, d, c);
        case SelectAlternative(_, _, _, _) => SelectionEnds(dir, d, c);
        case OverrideContact(_, _, _) => ContactEnds(dir, d, c);
        case Correct(_, _, _) => ClosingEnds(dir, d, c);
        case Cancel(_, _) => ClosingEnds(dir, d, c);
        case RequestCancellation(_, _, _) => ClosingEnds(dir, d, c);
      }
    }
  }
}
