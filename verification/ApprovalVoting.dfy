/** Quorum voting on the frozen requirements of one demand (app/application/approval_voting.py,
    app/application/approval_progress.py, app/infrastructure/sql/approval_cycle_repository.py).

    A vote first reads the demand without a lock and predicts whether it completes the quorum; if so it
    takes the planning guard. It then acquires the request version, reads again, records its decisions
    and, with a complete quorum, finalizes the cycle. Everything from the version on is one transaction:
    an error leaves the stored state as it was. The state below is that of one demand. */
module ApprovalVoting {
  import opened Options
  import opened ApprovalRouting
  import opened ApprovalCycles

  datatype Status = Draft | ToCorrect | Submitted | Planned | Cancelled

  datatype CycleState = Open | Invalidated | Completed

  /** A stored requirement: its line and its frozen approvers. */
  datatype Ballot = Ballot(id: nat, lineId: string, approvers: set<string>)

  datatype Cycle = Cycle(
    id: nat, state: CycleState, snapshot: Snapshot, ballots: seq<Ballot>, submittedVersion: nat, revision: Option<nat>)

  datatype Decision = Decision(requirement: nat, user: string, approve: bool, action: nat)

  /** Identifiers are drawn from a counter. */
  datatype Demand = Demand(
    status: Status, approvedAt: bool, version: nat, subject: Subject, cycles: seq<Cycle>, decisions: seq<Decision>,
    nextId: nat)

  /** A finalization: the cycle, the planning version acquired for it, the revision it produced. */
  datatype Materialization = Materialization(cycleId: nat, planningVersion: nat, revision: nat)

  datatype Store = Store(demand: Demand, activeUsers: set<string>, planning: nat, materialized: seq<Materialization>)

  datatype Actor = Actor(id: Option<string>, mayApprove: bool)

  datatype VoteCommand = VoteCommand(
    cycleId: nat, expectedVersion: int, requirementIds: set<nat>, lineIds: set<string>, approve: bool,
    expectedPlanning: Option<int>)

  datatype Refusal =
    | IdentityRequired | PermissionRequired | ActorInactive | VersionInvalid | DecisionUnsupported | RequestNotSubmitted
    | InitializationRequired | CycleMissing | CycleConflict | MultipleActive
    | TargetsRequired | TargetInvalid | ActorNotEligible
    | PlanningVersionInvalid | PlanningVersionConflict | DemandVersionConflict | SubjectChanged
    | QuorumGuardMissing | RevisionMissing
    | NotPermitted | VersionRequired | CommentRequired | EnvelopeRefused | CycleAlreadyActive | SubmittedVersionConflict
    | RoutingFailed(routing: CycleError)

  datatype Quorum = Quorum(total: nat, satisfied: set<nat>, remaining: set<nat>) {
    predicate Complete() { total > 0 && remaining == {} }
  }

  datatype Outcome =
    | Recorded(version: nat, quorum: Quorum)
    | Finalized(version: nat, quorum: Quorum, revision: nat, planningVersion: nat)
    | CycleInvalidated(version: nat, quorum: Quorum)

  datatype Attempt<T> = Done(value: T) | Failed(error: Refusal)

  // ---------------------------------------------------------------- quorum

  predicate ApprovedBy(decisions: seq<Decision>, requirement: nat, user: string) {
    exists i :: 0 <= i < |decisions| && decisions[i].approve && decisions[i].requirement == requirement &&
        decisions[i].user == user
  }

  /** Some frozen approver of the requirement approved it. */
  predicate Satisfied(b: Ballot, decisions: seq<Decision>) {
    exists u :: u in b.approvers && ApprovedBy(decisions, b.id, u)
  }

  function QuorumOf(ballots: seq<Ballot>, decisions: seq<Decision>): Quorum {
    Quorum(|ballots|, set b | b in ballots && Satisfied(b, decisions) :: b.id,
           set b | b in ballots && !Satisfied(b, decisions) :: b.id)
  }

  /** One of the decisions is an approval of the requirement by one of its frozen approvers. */
  predicate HasApproval(b: Ballot, decisions: seq<Decision>) {
    exists x :: x in decisions && x.approve && x.requirement == b.id && x.user in b.approvers
  }

  /** Every requirement counts, as satisfied with an approval and as remaining without. */
  ghost predicate Counts(ballots: seq<Ballot>, decisions: seq<Decision>, q: Quorum) {
    && q.total == |ballots|
    && (forall r :: r in q.satisfied <==> exists b :: b in ballots && b.id == r && HasApproval(b, decisions))
    && (forall r :: r in q.remaining <==> exists b :: b in ballots && b.id == r && !HasApproval(b, decisions))
  }

  lemma SatisfiedExactly(b: Ballot, decisions: seq<Decision>)
    ensures Satisfied(b, decisions) <==> HasApproval(b, decisions)
  {
    if x :| x in decisions && x.approve && x.requirement == b.id && x.user in b.approvers {
      var i :| 0 <= i < |decisions| && decisions[i] == x;
      assert ApprovedBy(decisions, b.id, x.user);
    }
    if u :| u in b.approvers && ApprovedBy(decisions, b.id, u) {
      var i :| 0 <= i < |decisions| && decisions[i].approve && decisions[i].requirement == b.id &&
          decisions[i].user == u;
      assert decisions[i] in decisions;
    }
  }

  lemma QuorumExactly(ballots: seq<Ballot>, decisions: seq<Decision>)
    ensures Counts(ballots, decisions, QuorumOf(ballots, decisions))
  {
    forall b | b in ballots ensures Satisfied(b, decisions) <==> HasApproval(b, decisions) {
      SatisfiedExactly(b, decisions);
    }
  }

  function Positive(positive: map<nat, set<string>>, requirement: nat): set<string> {
    if requirement in positive then positive[requirement] else {}
  }

  /** project_approval_quorum: positive decisions grouped by requirement, then one test per requirement. */
  method ProjectQuorum(ballots: seq<Ballot>, decisions: seq<Decision>) returns (q: Quorum)
    ensures q == QuorumOf(ballots, decisions) && Counts(ballots, decisions, q)
  {
    QuorumExactly(ballots, decisions);
    var positive: map<nat, set<string>> := map[];
    for i := 0 to |decisions|
      invariant forall r, u :: u in Positive(positive, r) <==> ApprovedBy(decisions[..i], r, u)
    {
      var d := decisions[i];
      ApprovedByLast(decisions[..i], d);
      assert decisions[..i + 1] == decisions[..i] + [d];
      if d.approve {
        positive := positive[d.requirement := Positive(positive, d.requirement) + {d.user}];
      }
    }
    assert decisions[..|decisions|] == decisions;
    var satisfied, remaining := {}, {};
    for i := 0 to |ballots|
      invariant satisfied == set b | b in ballots[..i] && Satisfied(b, decisions) :: b.id
      invariant remaining == set b | b in ballots[..i] && !Satisfied(b, decisions) :: b.id
    {
      var b := ballots[i];
      assert ballots[..i + 1] == ballots[..i] + [b];
      var approved := b.approvers * Positive(positive, b.id);
      if approved != {} {
        assert exists u :: u in approved;
        satisfied := satisfied + {b.id};
      } else {
        assert forall u :: u in b.approvers ==> u !in Positive(positive, b.id) || u in approved;
        remaining := remaining + {b.id};
      }
    }
    assert ballots[..|ballots|] == ballots;
    q := Quorum(|ballots|, satisfied, remaining);
  }

  lemma ApprovedByLast(decisions: seq<Decision>, d: Decision)
    ensures forall r, u :: ApprovedBy(decisions + [d], r, u) <==>
            ApprovedBy(decisions, r, u) || (d.approve && d.requirement == r && d.user == u)
  {
    var all := decisions + [d];
    forall r, u | ApprovedBy(decisions, r, u) || (d.approve && d.requirement == r && d.user == u)
        ensures ApprovedBy(all, r, u) {
      if d.approve && d.requirement == r && d.user == u {
        assert all[|decisions|] == d;
      } else {
        var i :| 0 <= i < |decisions| && decisions[i].approve && decisions[i].requirement == r &&
            decisions[i].user == u;
        assert all[i] == decisions[i];
      }
    }
  }

  /** Decisions only add up: what is satisfied stays satisfied. */
  lemma SatisfiedIsMonotone(b: Ballot, decisions: seq<Decision>, more: seq<Decision>)
    requires Satisfied(b, decisions) && decisions <= more
    ensures Satisfied(b, more)
  {
    var u :| u in b.approvers && ApprovedBy(decisions, b.id, u);
    var i :| 0 <= i < |decisions| && decisions[i].approve && decisions[i].requirement == b.id && decisions[i].user == u;
    assert more[i] == decisions[i];
  }

  /** list_decisions: those of the requirements of one cycle. */
  function ListDecisions(ballots: seq<Ballot>, decisions: seq<Decision>): seq<Decision> {
    if decisions == [] then []
    else
      var last := decisions[|decisions| - 1];
      ListDecisions(ballots, decisions[..|decisions| - 1]) +
          (if exists b :: b in ballots && b.id == last.requirement then [last] else [])
  }

  /** Reading only the decisions of the cycle gives the same quorum as reading all. */
  lemma {:induction false} OwnDecisionsSuffice(ballots: seq<Ballot>, decisions: seq<Decision>)
    ensures QuorumOf(ballots, ListDecisions(ballots, decisions)) == QuorumOf(ballots, decisions)
  {
    ListedApprovals(ballots, decisions);
    forall b | b in ballots ensures Satisfied(b, ListDecisions(ballots, decisions)) == Satisfied(b, decisions) {
    }
  }

  lemma {:induction false} ListedApprovals(ballots: seq<Ballot>, decisions: seq<Decision>)
    ensures forall b, u :: b in ballots ==>
            (ApprovedBy(ListDecisions(ballots, decisions), b.id, u) <==> ApprovedBy(decisions, b.id, u))
  {
    if decisions != [] {
      var before, last := decisions[..|decisions| - 1], decisions[|decisions| - 1];
      ListedApprovals(ballots, before);
      assert decisions == before + [last];
      ApprovedByLast(before, last);
      ApprovedByLast(ListDecisions(ballots, before), last);
      assert ListDecisions(ballots, before) + [] == ListDecisions(ballots, before);
    }
  }

  // ---------------------------------------------------------------- reading the active cycle

  function OpenCycles(cycles: seq<Cycle>): seq<nat> {
    if cycles == [] then []
    else OpenCycles(cycles[..|cycles| - 1]) + (if cycles[|cycles| - 1].state == Open then [|cycles| - 1] else [])
  }

  lemma {:induction false} OpenCyclesAreOpen(cycles: seq<Cycle>)
    ensures forall k :: 0 <= k < |OpenCycles(cycles)| ==>
            OpenCycles(cycles)[k] < |cycles| && cycles[OpenCycles(cycles)[k]].state == Open
    ensures forall i :: 0 <= i < |cycles| && cycles[i].state == Open ==> i in OpenCycles(cycles)
  {
    if cycles != [] { OpenCyclesAreOpen(cycles[..|cycles| - 1]); }
  }

  /** get_active_cycle: the position of the only OPEN cycle. */
  function ActiveCycle(d: Demand): (r: Attempt<Option<nat>>)
    ensures r.Done? && r.value.Some? ==> r.value.value < |d.cycles| && d.cycles[r.value.value].state == Open
  {
    OpenCyclesAreOpen(d.cycles);
    var open := OpenCycles(d.cycles);
    if |open| > 1 then Failed(MultipleActive) else Done(if open == [] then None else Some(open[0]))
  }

  lemma {:induction false} OpenCyclesIncrease(cycles: seq<Cycle>)
    ensures forall j, k :: 0 <= j < k < |OpenCycles(cycles)| ==> OpenCycles(cycles)[j] < OpenCycles(cycles)[k]
    ensures forall k :: 0 <= k < |OpenCycles(cycles)| ==> OpenCycles(cycles)[k] < |cycles|
  {
    if cycles != [] { OpenCyclesIncrease(cycles[..|cycles| - 1]); }
  }

  /** The active cycle is the only open one; there is none when no cycle is open, and a conflict when two are. */
  lemma ActiveCycleExactly(d: Demand)
    ensures match ActiveCycle(d)
            case Done(None) => forall i :: 0 <= i < |d.cycles| ==> d.cycles[i].state != Open
            case Done(Some(i)) =>
              && i < |d.cycles| && d.cycles[i].state == Open
              && forall j :: 0 <= j < |d.cycles| && d.cycles[j].state == Open ==> j == i
            case Failed(e) =>
              && e == MultipleActive
              && exists i, j :: 0 <= i < j < |d.cycles| && d.cycles[i].state == Open && d.cycles[j].state == Open
  {
    OpenCyclesAreOpen(d.cycles);
    OpenCyclesIncrease(d.cycles);
    var open := OpenCycles(d.cycles);
    if |open| > 1 { assert open[0] < open[1]; }
  }

  /** legacy_compatibility_state, when there is no active cycle. */
  function LegacyState(d: Demand): string {
    if d.status == Submitted then "SUBMITTED_REQUIRES_INITIALIZATION" else if d.approvedAt then "APPROVED_HISTORICAL"
        else "NONE"
  }

  /** _active_cycle: the active cycle must be the one the command names. */
  function NamedCycle(d: Demand, cycleId: nat): (r: Attempt<nat>)
    ensures r.Done? ==> r.value < |d.cycles| && d.cycles[r.value].state == Open && d.cycles[r.value].id == cycleId
  {
    match ActiveCycle(d)
    case Failed(e) => Failed(e)
    case Done(None) => Failed(if LegacyState(d) == "LEGACY_SUBMITTED" then InitializationRequired else CycleMissing)
    case Done(Some(i)) => if d.cycles[i].id != cycleId then Failed(CycleConflict) else Done(i)
  }

  /** The request for an explicit initialization compares with a state that is never reported, so a
      submitted demand without a cycle gets the plain "missing" refusal. */
  lemma InitializationIsNeverRequested(d: Demand, cycleId: nat)
    ensures NamedCycle(d, cycleId) != Failed(InitializationRequired)
    ensures ActiveCycle(d) == Done(None) ==> NamedCycle(d, cycleId) == Failed(CycleMissing)
  {
    assert |"LEGACY_SUBMITTED"| == 16 && |"SUBMITTED_REQUIRES_INITIALIZATION"| == 33 && |"APPROVED_HISTORICAL"| == 19 &&
        |"NONE"| == 4;
  }

  // ---------------------------------------------------------------- targets

  function LastOnLine(ballots: seq<Ballot>, lineId: string): Option<Ballot> {
    if ballots == [] then None
    else if ballots[|ballots| - 1].lineId == lineId then Some(ballots[|ballots| - 1])
    else LastOnLine(ballots[..|ballots| - 1], lineId)
  }

  function Ids(ballots: seq<Ballot>): set<nat> {
    set b | b in ballots :: b.id
  }

  /** _target_requirements: the named requirements and those of the named lines, all known. */
  function Targets(ballots: seq<Ballot>, cmd: VoteCommand): Attempt<set<nat>> {
    if cmd.requirementIds == {} && cmd.lineIds == {} then Failed(TargetsRequired)
    else if !(cmd.requirementIds <= Ids(ballots)) || !(cmd.lineIds <= set b | b in ballots :: b.lineId)
        then Failed(TargetInvalid)
    else
      Done(cmd.requirementIds + set b | b in ballots && b.lineId in cmd.lineIds &&
          LastOnLine(ballots, b.lineId) == Some(b) :: b.id)
  }

  lemma {:induction false} LastOnLineFound(ballots: seq<Ballot>, b: Ballot)
    requires b in ballots && forall i, j :: 0 <= i < j < |ballots| ==> ballots[i].lineId != ballots[j].lineId
    ensures LastOnLine(ballots, b.lineId) == Some(b)
  {
    var last := |ballots| - 1;
    if ballots[last].lineId == b.lineId {
      var i :| 0 <= i < |ballots| && ballots[i] == b;
    } else {
      assert ballots == ballots[..last] + [ballots[last]];
      LastOnLineFound(ballots[..last], b);
    }
  }

  /** With one requirement per line, the targets are exactly the named requirements and those of the named lines. */
  lemma TargetsExactly(ballots: seq<Ballot>, cmd: VoteCommand, b: Ballot)
    requires forall i, j :: 0 <= i < j < |ballots| ==>
             ballots[i].lineId != ballots[j].lineId && ballots[i].id != ballots[j].id
    requires b in ballots && Targets(ballots, cmd).Done?
    ensures b.id in Targets(ballots, cmd).value <==> b.id in cmd.requirementIds || b.lineId in cmd.lineIds
    ensures Targets(ballots, cmd).value <= Ids(ballots)
  {
    LastOnLineFound(ballots, b);
    forall c | c in ballots && c.id == b.id ensures c == b {
      var i :| 0 <= i < |ballots| && ballots[i] == b;
      var j :| 0 <= j < |ballots| && ballots[j] == c;
    }
  }

  /** _assert_actor_eligible. */
  predicate MayVote(ballots: seq<Ballot>, user: string, targets: set<nat>) {
    forall b :: b in ballots && b.id in targets ==> user in b.approvers
  }

  /** _eligible_requirements. */
  function OpenTo(ballots: seq<Ballot>, user: string): set<nat> {
    set b | b in ballots && user in b.approvers :: b.id
  }

  /** The decisions of one action: an approval of every target. */
  function Approvals(ballots: seq<Ballot>, targets: set<nat>, user: string, action: nat): seq<Decision> {
    if ballots == [] then []
    else
      var last := ballots[|ballots| - 1];
      Approvals(ballots[..|ballots| - 1], targets, user, action) +
          (if last.id in targets then [Decision(last.id, user, true, action)] else [])
  }

  lemma {:induction false} ApprovalsAreBallots(ballots: seq<Ballot>, targets: set<nat>, user: string, action: nat)
    ensures forall d :: d in Approvals(ballots, targets, user, action) ==>
              && d.user == user && d.approve && d.requirement in targets
              && exists b :: b in ballots && b.id == d.requirement
    ensures forall b :: b in ballots && b.id in targets ==>
            Decision(b.id, user, true, action) in Approvals(ballots, targets, user, action)
  {
    if ballots != [] {
      var prefix, last := ballots[..|ballots| - 1], ballots[|ballots| - 1];
      ApprovalsAreBallots(prefix, targets, user, action);
      assert ballots == prefix + [last];
      assert forall b :: b in ballots <==> b in prefix || b == last;
    }
  }

  // ---------------------------------------------------------------- the phases of a vote

  /** _actor_id. */
  function CheckedActor(activeUsers: set<string>, actor: Actor): Attempt<string> {
    if actor.id.None? then Failed(IdentityRequired)
    else if !actor.mayApprove then Failed(PermissionRequired)
    else if actor.id.value !in activeUsers then Failed(ActorInactive)
    else Done(actor.id.value)
  }

  /** The cycle and the targets a vote is about, or why it is refused. */
  datatype Reading = Stale(cycle: nat) | Ready(cycle: nat, targets: set<nat>)

  /** The checks made on the stored state, both before and after the version is acquired. */
  function ReadCycle(d: Demand, user: string, cmd: VoteCommand): (r: Attempt<Reading>)
    ensures r.Done? ==> r.value.cycle < |d.cycles| && d.cycles[r.value.cycle].state == Open
  {
    match NamedCycle(d, cmd.cycleId)
    case Failed(e) => Failed(e)
    case Done(i) =>
      if !Matches(d.cycles[i].snapshot, d.subject) then Done(Stale(i))
      else
        match Targets(d.cycles[i].ballots, cmd)
        case Failed(e) => Failed(e)
        case Done(targets) => if !MayVote(d.cycles[i].ballots, user, targets) then Failed(ActorNotEligible)
            else Done(Ready(i, targets))
  }

  /** What a command does after its first reading: close a stale cycle, or record with the predicted completion. */
  datatype Plan = Close | Record(complete: bool)

  function PredictedQuorum(d: Demand, user: string, r: Reading): Quorum
    requires r.Ready? && r.cycle < |d.cycles|
  {
    var ballots := d.cycles[r.cycle].ballots;
    QuorumOf(ballots, d.decisions + Approvals(ballots, r.targets, user, 0))
  }

  /** The unlocked reading phase. */
  function BeginVote(store: Store, actor: Actor, cmd: VoteCommand): Attempt<Plan> {
    match CheckedActor(store.activeUsers, actor)
    case Failed(e) => Failed(e)
    case Done(user) =>
      if cmd.expectedVersion < 1 then Failed(VersionInvalid)
      else if !cmd.approve then Failed(DecisionUnsupported)
      else if store.demand.status != Submitted then Failed(RequestNotSubmitted)
      else
        match ReadCycle(store.demand, user, cmd)
        case Failed(e) => Failed(e)
        case Done(Stale(_)) => Done(Close)
        case Done(Ready(i, targets)) => Done(Record(PredictedQuorum(store.demand, user, Ready(i, targets)).Complete()))
  }

  /** acquire: the planning version after its compare-and-swap. */
  function AcquirePlanning(planning: nat, expected: Option<int>): Attempt<nat> {
    var wanted := if expected.None? then planning else expected.value;
    if wanted < 1 then Failed(PlanningVersionInvalid)
    else if wanted != planning then Failed(PlanningVersionConflict)
    else Done(planning + 1)
  }

  /** acquire_request_aggregate_version. */
  function AcquireVersion(d: Demand, expected: int): Attempt<Demand> {
    if d.version != expected then Failed(DemandVersionConflict) else Done(d.(version := d.version + 1))
  }

  function Closed(d: Demand, i: nat, state: CycleState, revision: Option<nat>): Demand
    requires i < |d.cycles|
  {
    d.(cycles := d.cycles[i := d.cycles[i].(state := state, revision := revision)])
  }

  /** invalidate_cycle: nothing without an active cycle, else a compare-and-swap and the INVALIDATED state. */
  function InvalidateCycle(d: Demand, expected: int): Attempt<Demand> {
    match ActiveCycle(d)
    case Failed(e) => Failed(e)
    case Done(None) => Done(d)
    case Done(Some(i)) =>
      match AcquireVersion(d, expected)
      case Failed(e) => Failed(e)
      case Done(acquired) => Done(Closed(acquired, i, Invalidated, acquired.cycles[i].revision))
  }

  function Recording(d: Demand, user: string, r: Reading): Demand
    requires r.Ready? && r.cycle < |d.cycles|
  {
    d.(decisions := d.decisions + Approvals(d.cycles[r.cycle].ballots, r.targets, user, d.nextId), nextId :=
        d.nextId + 1)
  }

  function CurrentQuorum(d: Demand, i: nat): Quorum
    requires i < |d.cycles|
  {
    QuorumOf(d.cycles[i].ballots, d.decisions)
  }

  /** The decisions of an accepted vote and, with a complete quorum, the finalization of the cycle. `guard` is
      the planning version taken before, `revision` the revision the materialization leaves active. */
  function RecordVote(store: Store, user: string, i: nat, targets: set<nat>, guard: Option<nat>,
      revision: Option<nat>): Attempt<(Store, Outcome)>
    requires i < |store.demand.cycles|
  {
    var voted := Recording(store.demand, user, Ready(i, targets));
    var quorum := CurrentQuorum(voted, i);
    if !quorum.Complete() then Done((store.(demand := voted), Recorded(voted.version, quorum)))
    else if guard.None? then Failed(QuorumGuardMissing)
    else if voted.status != Submitted then Failed(RequestNotSubmitted)
    else if revision.None? then Failed(RevisionMissing)
    else
      var closed := Closed(voted, i, Completed, revision).(status := Planned, approvedAt := true);
      Done((store.(demand := closed, planning := guard.value,
                   materialized := store.materialized +
                       [Materialization(voted.cycles[i].id, guard.value, revision.value)]),
            Finalized(closed.version, quorum, revision.value, guard.value)))
  }

  /** Everything from the compare-and-swap on, in one transaction: an error is a rollback. */
  function FinishVote(store: Store, user: string, cmd: VoteCommand, guard: Option<nat>,
      revision: Option<nat>): Attempt<(Store, Outcome)> {
    match AcquireVersion(store.demand, cmd.expectedVersion)
    case Failed(e) => Failed(e)
    case Done(d) =>
      match ReadCycle(d, user, cmd)
      case Failed(e) => Failed(e)
      case Done(Stale(_)) => Failed(SubjectChanged)
      case Done(Ready(i, targets)) => RecordVote(store.(demand := d), user, i, targets, guard, revision)
  }

  /** The outcome of a vote on a stale cycle, named by the command. */
  function FinishStale(store: Store, cmd: VoteCommand, ballots: seq<Ballot>): Attempt<(Store, Outcome)> {
    match InvalidateCycle(store.demand, cmd.expectedVersion)
    case Failed(e) => Failed(e)
    case Done(d) => Done((store.(demand := d), CycleInvalidated(d.version, QuorumOf(ballots, d.decisions))))
  }

  /** vote, alone in the database. */
  function Vote(store: Store, actor: Actor, cmd: VoteCommand, revision: Option<nat>): Attempt<(Store, Outcome)> {
    match BeginVote(store, actor, cmd)
    case Failed(e) => Failed(e)
    case Done(Close) =>
      var i := ReadCycle(store.demand, actor.id.value, cmd).value.cycle;
      FinishStale(store, cmd, store.demand.cycles[i].ballots)
    case Done(Record(complete)) =>
      if !complete then FinishVote(store, actor.id.value, cmd, None, revision)
      else
        match AcquirePlanning(store.planning, cmd.expectedPlanning)
        case Failed(e) => Failed(e)
        case Done(guard) => FinishVote(store, actor.id.value, cmd, Some(guard), revision)
  }

  /** approve_all_eligible: a vote on every requirement of the active cycle the actor may approve. */
  function AllEligible(d: Demand, user: string, cycleId: nat): Attempt<set<nat>> {
    match NamedCycle(d, cycleId)
    case Failed(e) => Failed(e)
    case Done(i) => if OpenTo(d.cycles[i].ballots, user) == {} then Failed(ActorNotEligible)
        else Done(OpenTo(d.cycles[i].ballots, user))
  }

  function ApproveAllEligible(
    store: Store, actor: Actor, cycleId: nat, expectedVersion: int, expectedPlanning: Option<int>,
        revision: Option<nat>): Attempt<(Store, Outcome)>
  {
    match CheckedActor(store.activeUsers, actor)
    case Failed(e) => Failed(e)
    case Done(user) =>
      match AllEligible(store.demand, user, cycleId)
      case Failed(e) => Failed(e)
      case Done(targets) => Vote(store, actor,
          VoteCommand(cycleId, expectedVersion, targets, {}, true, expectedPlanning), revision)
  }
}
