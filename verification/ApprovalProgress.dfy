/** The read model of an approval cycle (app/application/approval_progress.py) and its agreement with the
    voting commands. */
module ApprovalProgress {
  import opened Options
  import opened ApprovalCycles
  import opened ApprovalVoting

  datatype Progress = Progress(cycle: nat, quorum: Quorum, requirementIds: seq<nat>, lineIds: seq<string>)

  /** The users the view looks up: the frozen approvers and those who decided. */
  function Involved(ballots: seq<Ballot>, decisions: seq<Decision>): set<string> {
    (set b, u | b in ballots && u in b.approvers :: u) + set d | d in decisions :: d.user
  }

  /** The cycle shown: the active one, or else the latest. */
  function ShownCycle(d: Demand): (r: Attempt<Option<nat>>)
    ensures r.Done? && r.value.Some? ==> r.value.value < |d.cycles|
  {
    var active := ActiveCycle(d);
    if active.Failed? || active.value.Some? then active else Done(if d.cycles == [] then None else Some(|d.cycles| - 1))
  }

  predicate Authorized(d: Demand, activeUsers: set<string>, actor: Actor, i: nat)
    requires i < |d.cycles|
  {
    && actor.id.Some? && actor.id.value in Involved(d.cycles[i].ballots,
         ListDecisions(d.cycles[i].ballots, d.decisions))
    && actor.id.value in activeUsers && actor.mayApprove && d.cycles[i].state == Open && d.status == Submitted
  }

  /** The requirements still unsatisfied that the user may approve, in the order of the cycle. */
  function Approvable(ballots: seq<Ballot>, satisfied: set<nat>, user: string): seq<Ballot> {
    if ballots == [] then []
    else
      var last := ballots[|ballots| - 1];
      Approvable(ballots[..|ballots| - 1], satisfied, user) +
          (if last.id !in satisfied && user in last.approvers then [last] else [])
  }

  function IdsInOrder(ballots: seq<Ballot>): (ids: seq<nat>)
    ensures |ids| == |ballots| && forall i :: 0 <= i < |ids| ==> ids[i] == ballots[i].id
  {
    seq(|ballots|, i requires 0 <= i < |ballots| => ballots[i].id)
  }

  function LinesInOrder(ballots: seq<Ballot>): (lines: seq<string>)
    ensures |lines| == |ballots| && forall i :: 0 <= i < |lines| ==> lines[i] == ballots[i].lineId
  {
    seq(|ballots|, i requires 0 <= i < |ballots| => ballots[i].lineId)
  }

  function ProgressView(d: Demand, activeUsers: set<string>, actor: Actor): Attempt<Option<Progress>> {
    match ShownCycle(d)
    case Failed(e) => Failed(e)
    case Done(None) => Done(None)
    case Done(Some(i)) =>
      var ballots := d.cycles[i].ballots;
      var quorum := QuorumOf(ballots, d.decisions);
      var mine := if Authorized(d, activeUsers, actor, i) then Approvable(ballots, quorum.satisfied, actor.id.value)
          else [];
      Done(Some(Progress(i, quorum, IdsInOrder(mine), LinesInOrder(mine))))
  }

  /** get: one pass over the requirements of the cycle. */
  method ReadProgress(d: Demand, activeUsers: set<string>, actor: Actor) returns (view: Attempt<Option<Progress>>)
    ensures view == ProgressView(d, activeUsers, actor)
  {
    var shown := ShownCycle(d);
    if shown.Failed? { return Failed(shown.error); }
    if shown.value.None? { return Done(None); }
    var i := shown.value.value;
    var ballots := d.cycles[i].ballots;
    var decisions := ListDecisions(ballots, d.decisions);
    var quorum := ProjectQuorum(ballots, decisions);
    OwnDecisionsSuffice(ballots, d.decisions);
    var authorized := Authorized(d, activeUsers, actor, i);
    var ids: seq<nat>, lines: seq<string> := [], [];
    for k := 0 to |ballots|
      invariant !authorized ==> ids == [] && lines == []
      invariant authorized ==>
                  && ids == IdsInOrder(Approvable(ballots[..k], quorum.satisfied, actor.id.value))
                  && lines == LinesInOrder(Approvable(ballots[..k], quorum.satisfied, actor.id.value))
    {
      var b := ballots[k];
      if authorized { ApprovableSnoc(ballots, k, quorum.satisfied, actor.id.value); }
      if authorized && b.id !in quorum.satisfied && actor.id.value in b.approvers {
        ids, lines := ids + [b.id], lines + [b.lineId];
      }
    }
    assert ballots[..|ballots|] == ballots;
    view := Done(Some(Progress(i, quorum, ids, lines)));
  }

  lemma ApprovableSnoc(ballots: seq<Ballot>, k: nat, satisfied: set<nat>, user: string)
    requires k < |ballots|
    ensures var before, after :=
            Approvable(ballots[..k], satisfied, user), Approvable(ballots[..k + 1], satisfied, user);
            if ballots[k].id !in satisfied && user in ballots[k].approvers
            then IdsInOrder(after) == IdsInOrder(before) + [ballots[k].id] &&
                LinesInOrder(after) == LinesInOrder(before) + [ballots[k].lineId]
            else after == before
  {
    assert ballots[..k + 1][..k] == ballots[..k];
  }

  ghost predicate DistinctIds(ballots: seq<Ballot>) {
    forall i, j :: 0 <= i < j < |ballots| ==> ballots[i].id != ballots[j].id
  }

  lemma {:induction false} ApprovableExactly(ballots: seq<Ballot>, satisfied: set<nat>, user: string)
    ensures forall b :: b in Approvable(ballots, satisfied, user) <==>
            b in ballots && b.id !in satisfied && user in b.approvers
  {
    if ballots != [] {
      var before, last := ballots[..|ballots| - 1], ballots[|ballots| - 1];
      ApprovableExactly(before, satisfied, user);
      assert ballots == before + [last];
    }
  }

  lemma InOrder(ballots: seq<Ballot>, r: nat)
    ensures r in IdsInOrder(ballots) <==> r in Ids(ballots)
  {
    if r in Ids(ballots) {
      var b :| b in ballots && b.id == r;
      var i :| 0 <= i < |ballots| && ballots[i] == b;
      assert IdsInOrder(ballots)[i] == r;
    }
  }

  // ---------------------------------------------------------------- what a vote adds

  /** After an action exactly the targets the user is an approver of are satisfied in addition. */
  lemma VotingAddsExactly(ballots: seq<Ballot>, decisions: seq<Decision>, targets: set<nat>, user: string, action: nat,
      b: Ballot)
    requires b in ballots
    ensures Satisfied(b, decisions + Approvals(ballots, targets, user, action)) <==>
              Satisfied(b, decisions) || (b.id in targets && user in b.approvers)
  {
    var added := Approvals(ballots, targets, user, action);
    forall u ensures ApprovedBy(decisions + added, b.id, u) <==>
        ApprovedBy(decisions, b.id, u) || (b.id in targets && u == user) {
      ApprovedInEither(decisions, added, b.id, u);
      ApprovedByAction(ballots, targets, user, action, b, u);
    }
  }

  lemma ApprovedInEither(x: seq<Decision>, y: seq<Decision>, r: nat, u: string)
    ensures ApprovedBy(x + y, r, u) <==> ApprovedBy(x, r, u) || ApprovedBy(y, r, u)
  {
    if ApprovedBy(x, r, u) {
      var i :| 0 <= i < |x| && x[i].approve && x[i].requirement == r && x[i].user == u;
      assert (x + y)[i] == x[i];
    }
    if ApprovedBy(y, r, u) {
      var i :| 0 <= i < |y| && y[i].approve && y[i].requirement == r && y[i].user == u;
      assert (x + y)[|x| + i] == y[i];
    }
  }

  lemma ApprovedByAction(ballots: seq<Ballot>, targets: set<nat>, user: string, action: nat, b: Ballot, u: string)
    requires b in ballots
    ensures ApprovedBy(Approvals(ballots, targets, user, action), b.id, u) <==> b.id in targets && u == user
  {
    var added := Approvals(ballots, targets, user, action);
    ApprovalsAreBallots(ballots, targets, user, action);
    if b.id in targets && u == user {
      var i :| 0 <= i < |added| && added[i] == Decision(b.id, user, true, action);
    }
    if ApprovedBy(added, b.id, u) {
      var i :| 0 <= i < |added| && added[i].approve && added[i].requirement == b.id && added[i].user == u;
      assert added[i] in added;
    }
  }

  /** The quorum after an action does not depend on its identifier: the prediction, made before there is
      one, is exact on the state it was made on. */
  lemma ActionIsIrrelevant(ballots: seq<Ballot>, decisions: seq<Decision>, targets: set<nat>, user: string, x: nat,
      y: nat)
    ensures QuorumOf(ballots, decisions + Approvals(ballots, targets, user, x)) ==
            QuorumOf(ballots, decisions + Approvals(ballots, targets, user, y))
  {
    forall b | b in ballots
      ensures Satisfied(b, decisions + Approvals(ballots, targets, user, x)) ==
              Satisfied(b, decisions + Approvals(ballots, targets, user, y))
    {
      VotingAddsExactly(ballots, decisions, targets, user, x, b);
      VotingAddsExactly(ballots, decisions, targets, user, y, b);
    }
  }

  /** Reading a demand depends on its cycles and its subject only. */
  lemma ReadingIgnoresVersion(d: Demand, e: Demand, user: string, cmd: VoteCommand)
    requires d.cycles == e.cycles && d.subject == e.subject
    ensures ReadCycle(d, user, cmd) == ReadCycle(e, user, cmd)
  {
    InitializationIsNeverRequested(d, cmd.cycleId);
    InitializationIsNeverRequested(e, cmd.cycleId);
  }

  /** Alone in the database and at the current version, a vote that passes the reading phase is recorded,
      finalized with a planning version, or refused by the planning guard or for a missing revision. */
  lemma AcceptedReadingSucceeds(store: Store, actor: Actor, cmd: VoteCommand, revision: Option<nat>, complete: bool)
    requires BeginVote(store, actor, cmd) == Done(Record(complete)) && cmd.expectedVersion == store.demand.version
    ensures var r := Vote(store, actor, cmd, revision);
            if !complete then r.Done? && r.value.1.Recorded?
            else if AcquirePlanning(store.planning, cmd.expectedPlanning).Failed?
                then r == Failed(AcquirePlanning(store.planning, cmd.expectedPlanning).error)
            else if revision.None? then r == Failed(RevisionMissing)
            else r.Done? && r.value.1.Finalized? && r.value.1.planningVersion == store.planning + 1
  {
    var d := store.demand;
    var user := actor.id.value;
    var acquired := d.(version := d.version + 1);
    ReadingIgnoresVersion(d, acquired, user, cmd);
    var r := ReadCycle(d, user, cmd).value;
    ActionIsIrrelevant(d.cycles[r.cycle].ballots, d.decisions, r.targets, user, 0, d.nextId);
  }

  // ---------------------------------------------------------------- agreement

  /** A vote on one requirement. */
  function SingleVote(d: Demand, i: nat, r: nat, expected: int, planning: Option<int>): VoteCommand
    requires i < |d.cycles|
  {
    VoteCommand(d.cycles[i].id, expected, {r}, {}, true, planning)
  }

  lemma OnlyTarget(ballots: seq<Ballot>, b: Ballot, user: string)
    requires DistinctIds(ballots) && b in ballots
    ensures MayVote(ballots, user, {b.id}) <==> user in b.approvers
  {
    forall c | c in ballots && c.id == b.id ensures c == b {
      var i :| 0 <= i < |ballots| && ballots[i] == b;
      var j :| 0 <= j < |ballots| && ballots[j] == c;
    }
  }

  /** The reading phase of a single vote on a requirement of the active cycle. */
  lemma SingleVoteReads(store: Store, actor: Actor, b: Ballot, expected: int, planning: Option<int>)
    requires ActiveCycle(store.demand).Done? && ActiveCycle(store.demand).value.Some?
    requires var i := ActiveCycle(store.demand).value.value;
             DistinctIds(store.demand.cycles[i].ballots) && b in store.demand.cycles[i].ballots
    requires expected >= 1
    ensures var i := ActiveCycle(store.demand).value.value;
            var begun := BeginVote(store, actor, SingleVote(store.demand, i, b.id, expected, planning));
            if CheckedActor(store.activeUsers, actor).Failed?
                then begun == Failed(CheckedActor(store.activeUsers, actor).error)
            else if store.demand.status != Submitted then begun == Failed(RequestNotSubmitted)
            else if !Matches(store.demand.cycles[i].snapshot, store.demand.subject) then begun == Done(Close)
            else if actor.id.value !in b.approvers then begun == Failed(ActorNotEligible)
            else && begun == Done(Record(PredictedQuorum(store.demand, actor.id.value, Ready(i, {b.id})).Complete()))
                 && ReadCycle(store.demand, actor.id.value, SingleVote(store.demand, i, b.id, expected, planning)) ==
                      Done(Ready(i, {b.id}))
  {
    var i := ActiveCycle(store.demand).value.value;
    var ballots := store.demand.cycles[i].ballots;
    var cmd := SingleVote(store.demand, i, b.id, expected, planning);
    assert b.id in Ids(ballots);
    assert Targets(ballots, cmd) == Done({b.id}) by {
      assert {b.id} + (set c | c in ballots && c.lineId in cmd.lineIds &&
          LastOnLine(ballots, c.lineId) == Some(c) :: c.id) == {b.id};
    }
    if actor.id.Some? { OnlyTarget(ballots, b, actor.id.value); }
  }

  /** A requirement of the active cycle is shown as approvable iff the demand is submitted, it is not satisfied
      and its frozen approvers include the actor, who is active and has the permission. */
  lemma ShownExactly(d: Demand, activeUsers: set<string>, actor: Actor, b: Ballot)
    requires ActiveCycle(d).Done? && ActiveCycle(d).value.Some?
    requires var i := ActiveCycle(d).value.value; DistinctIds(d.cycles[i].ballots) && b in d.cycles[i].ballots
    ensures var i := ActiveCycle(d).value.value;
            && ProgressView(d, activeUsers, actor).Done? && ProgressView(d, activeUsers, actor).value.Some?
            && (b.id in ProgressView(d, activeUsers, actor).value.value.requirementIds <==>
                 && d.status == Submitted && !Satisfied(b, d.decisions)
                 && CheckedActor(activeUsers, actor).Done? && actor.id.value in b.approvers)
  {
    var i := ActiveCycle(d).value.value;
    var ballots := d.cycles[i].ballots;
    var quorum := QuorumOf(ballots, d.decisions);
    forall c | c in ballots && c.id == b.id ensures c == b {
      var j :| 0 <= j < |ballots| && ballots[j] == b;
      var k :| 0 <= k < |ballots| && ballots[k] == c;
    }
    if actor.id.Some? {
      var mine := Approvable(ballots, quorum.satisfied, actor.id.value);
      ApprovableExactly(ballots, quorum.satisfied, actor.id.value);
      InOrder(mine, b.id);
      assert b.id in Ids(mine) <==> b in mine;
    }
  }

  /** The view and the command agree, both ways: an unsatisfied requirement is shown as approvable exactly
      when a vote on it at the current version passes every check on the actor, the cycle and the target. */
  lemma ViewAgreesWithVote(store: Store, actor: Actor, b: Ballot, planning: Option<int>)
    requires ActiveCycle(store.demand).Done? && ActiveCycle(store.demand).value.Some?
    requires var i := ActiveCycle(store.demand).value.value;
             DistinctIds(store.demand.cycles[i].ballots) && b in store.demand.cycles[i].ballots
    requires store.demand.version >= 1
    requires Matches(store.demand.cycles[ActiveCycle(store.demand).value.value].snapshot, store.demand.subject)
    ensures var i := ActiveCycle(store.demand).value.value;
            var view := ProgressView(store.demand, store.activeUsers, actor);
            && view.Done? && view.value.Some?
            && (b.id in view.value.value.requirementIds <==>
                 !Satisfied(b, store.demand.decisions) &&
                     BeginVote(store, actor, SingleVote(store.demand, i, b.id, store.demand.version, planning)).Done?)
  {
    SingleVoteReads(store, actor, b, store.demand.version, planning);
    ShownExactly(store.demand, store.activeUsers, actor, b);
  }

  /** Every requirement shown as approvable is accepted by a vote at the current version, or finds the
      subject changed and closes the cycle; only the planning guard and the materialization can refuse it. */
  lemma ShownIsAccepted(store: Store, actor: Actor, b: Ballot, planning: Option<int>, revision: Option<nat>)
    requires ActiveCycle(store.demand).Done? && ActiveCycle(store.demand).value.Some?
    requires var i := ActiveCycle(store.demand).value.value;
             DistinctIds(store.demand.cycles[i].ballots) && b in store.demand.cycles[i].ballots
    requires store.demand.version >= 1
    requires ProgressView(store.demand, store.activeUsers, actor).Done?
    requires ProgressView(store.demand, store.activeUsers, actor).value.Some?
    requires b.id in ProgressView(store.demand, store.activeUsers, actor).value.value.requirementIds
    ensures var i := ActiveCycle(store.demand).value.value;
            var r := Vote(store, actor, SingleVote(store.demand, i, b.id, store.demand.version, planning), revision);
            if !Matches(store.demand.cycles[i].snapshot, store.demand.subject)
            then r.Done? && r.value.1.CycleInvalidated? && r.value.0.demand.cycles[i].state == Invalidated
            else || (r.Done? && (r.value.1.Recorded? || r.value.1.Finalized?) && b.id in r.value.1.quorum.satisfied)
                 || r in {Failed(PlanningVersionInvalid), Failed(PlanningVersionConflict), Failed(RevisionMissing)}
  {
    var d := store.demand;
    var i := ActiveCycle(d).value.value;
    var cmd := SingleVote(d, i, b.id, d.version, planning);
    ShownExactly(d, store.activeUsers, actor, b);
    SingleVoteReads(store, actor, b, store.demand.version, planning);
    if Matches(d.cycles[i].snapshot, d.subject) {
      AcceptedReadingSucceeds(store, actor, cmd, revision, BeginVote(store, actor, cmd).value.complete);
      VoteSatisfiesTargets(store, actor, cmd, revision, b);
    }
  }

  /** A recorded or finalized vote satisfies every requirement it targets. */
  lemma VoteSatisfiesTargets(store: Store, actor: Actor, cmd: VoteCommand, revision: Option<nat>, b: Ballot)
    requires var i := NamedCycle(store.demand, cmd.cycleId); i.Done? && b in store.demand.cycles[i.value].ballots
    requires b.id in cmd.requirementIds
    ensures var r := Vote(store, actor, cmd, revision);
            r.Done? && !r.value.1.CycleInvalidated? ==>
                b.id in r.value.1.quorum.satisfied && Satisfied(b, r.value.0.demand.decisions)
  {
    var d := store.demand;
    var result := Vote(store, actor, cmd, revision);
    if result.Done? && !result.value.1.CycleInvalidated? {
      var user := actor.id.value;
      var acquired := d.(version := d.version + 1);
      ReadingIgnoresVersion(d, acquired, user, cmd);
      var r := ReadCycle(d, user, cmd).value;
      var ballots := d.cycles[r.cycle].ballots;
      assert b.id in r.targets && user in b.approvers;
      VotingAddsExactly(ballots, d.decisions, r.targets, user, d.nextId, b);
    }
  }

  /** approve_all_eligible is refused for eligibility exactly when no requirement of the cycle is open to the
      actor: the vote it makes is never refused for its targets or for eligibility. */
  lemma ApproveAllIsEligible(store: Store, actor: Actor, cycleId: nat, expected: int, planning: Option<int>,
      revision: Option<nat>)
    requires forall i :: 0 <= i < |store.demand.cycles| ==> DistinctIds(store.demand.cycles[i].ballots)
    ensures var r := ApproveAllEligible(store, actor, cycleId, expected, planning, revision);
            && r !in {Failed(TargetsRequired), Failed(TargetInvalid)}
            && (r == Failed(ActorNotEligible) <==>
                 && CheckedActor(store.activeUsers, actor).Done? && NamedCycle(store.demand, cycleId).Done?
                 && OpenTo(store.demand.cycles[NamedCycle(store.demand, cycleId).value].ballots, actor.id.value) == {})
  {
    if CheckedActor(store.activeUsers, actor).Done? && NamedCycle(store.demand, cycleId).Done? {
      var d := store.demand;
      var user := actor.id.value;
      var ballots := d.cycles[NamedCycle(d, cycleId).value].ballots;
      var targets := OpenTo(ballots, user);
      if targets != {} {
        var cmd := VoteCommand(cycleId, expected, targets, {}, true, planning);
        EligibleTargets(ballots, user, cmd);
        TargetsAreNotRefused(store, actor, cmd, revision);
      }
    }
  }

  /** What can refuse a vote whose targets are known and open to the actor. */
  lemma TargetsAreNotRefused(store: Store, actor: Actor, cmd: VoteCommand, revision: Option<nat>)
    requires CheckedActor(store.activeUsers, actor).Done? && NamedCycle(store.demand, cmd.cycleId).Done?
    requires var ballots := store.demand.cycles[NamedCycle(store.demand, cmd.cycleId).value].ballots;
             Targets(ballots, cmd).Done? && MayVote(ballots, actor.id.value, Targets(ballots, cmd).value)
    ensures Vote(store, actor, cmd, revision) !in {Failed(TargetsRequired), Failed(TargetInvalid),
            Failed(ActorNotEligible)}
  {
    var d := store.demand;
    assert ReadCycle(d, actor.id.value, cmd).Done?;
    ReadingIgnoresVersion(d, d.(version := d.version + 1), actor.id.value, cmd);
  }

  lemma EligibleTargets(ballots: seq<Ballot>, user: string, cmd: VoteCommand)
    requires DistinctIds(ballots) && cmd.requirementIds == OpenTo(ballots, user) != {} && cmd.lineIds == {}
    ensures Targets(ballots, cmd) == Done(OpenTo(ballots, user)) && MayVote(ballots, user, OpenTo(ballots, user))
  {
    var mine := OpenTo(ballots, user);
    assert mine + (set b | b in ballots && b.lineId in cmd.lineIds &&
        LastOnLine(ballots, b.lineId) == Some(b) :: b.id) == mine;
    forall b | b in ballots && b.id in mine ensures user in b.approvers {
      var c :| c in ballots && user in c.approvers && c.id == b.id;
      var i :| 0 <= i < |ballots| && ballots[i] == b;
      var j :| 0 <= j < |ballots| && ballots[j] == c;
    }
  }
}
