/** The approval services over the stored demand they update step by step: voting, the hooks that open, close
    and replace cycles, and the demand commands. Each public method is one transaction that nothing interrupts, so
    what its phases read is current; it restores the stored state when it is refused. Interleaved transactions are
    the subject of ApprovalRuns (app/application/approval_voting.py, app/application/approval_cycles.py,
    app/application/demand_service.py, app/application/business_contact_admin.py). */
module ApprovalService {
  import opened Options
  import opened ApprovalRouting
  import opened ApprovalCycles
  import V = ApprovalVoting
  import P = ApprovalProgress
  import L = ApprovalLifecycle
  import R = ApprovalRuns
  import O = ApprovalOrder
  import W = ApprovalPromises
  import C = CommandPromises

  // ---------------------------------------------------------------- what the services promise

  /** What a transaction leaves, in plain terms: only the last cycle can be open, and only on a submitted demand;
      every decision is by a frozen approver; each finalization had its complete quorum and is of a cycle of its
      own, still completed; nothing satisfied is lost, and a closed cycle is never touched. */
  ghost predicate Promised(before: V.Store, after: V.Store) {
    && (forall i :: 0 <= i < |after.demand.cycles| && after.demand.cycles[i].state == V.Open ==>
          i == |after.demand.cycles| - 1 && after.demand.status == V.Submitted)
    && (forall x :: x in after.demand.decisions ==> L.Legitimate(after.demand.cycles, x))
    && (forall m :: m in after.materialized ==>
          R.Finalized(after.demand, m) && m.cycleId in L.CompletedIds(after.demand.cycles))
    && (forall j, k :: 0 <= j < k < |after.materialized| ==>
         after.materialized[j].cycleId != after.materialized[k].cycleId)
    && |before.demand.cycles| <= |after.demand.cycles| && before.materialized <= after.materialized
    && (forall i {:trigger before.demand.cycles[i]} :: 0 <= i < |before.demand.cycles| ==>
          && V.CurrentQuorum(before.demand, i).satisfied <= V.CurrentQuorum(after.demand, i).satisfied
          && (before.demand.cycles[i].state != V.Open ==> after.demand.cycles[i] == before.demand.cycles[i]))
  }

  lemma SoundnessPromises(before: V.Store, after: V.Store)
    requires O.Sound(after) && O.StoreEvolves(before, after)
    ensures Promised(before, after)
  {
    forall i | 0 <= i < |before.demand.cycles|
      ensures V.CurrentQuorum(before.demand, i).satisfied <= V.CurrentQuorum(after.demand, i).satisfied
      ensures before.demand.cycles[i].state != V.Open ==> after.demand.cycles[i] == before.demand.cycles[i]
    {
      L.LastingGrows(before.demand, after.demand);
      R.SatisfiedNeverShrinks(before.demand, after.demand, i);
      assert L.Kept(before.demand.cycles[i], after.demand.cycles[i]);
    }
  }

  lemma StaleVoteIsSound(store: V.Store, cmd: V.VoteCommand, ballots: seq<V.Ballot>)
    requires O.Sound(store) && V.FinishStale(store, cmd, ballots).Done?
    ensures var r := V.FinishStale(store, cmd, ballots).value;
            O.Sound(r.0) && O.StoreEvolves(store, r.0) && r.1.CycleInvalidated? &&
                r.0.materialized == store.materialized
  {
    var after := V.FinishStale(store, cmd, ballots).value.0;
    L.ActiveIsLast(store.demand);
    L.InvalidatingKeeps(store.demand);
    assert after.demand == V.InvalidateCycle(store.demand, store.demand.version).value;
    O.SoundnessStays(store, after);
  }

  lemma RecordedVoteIsSound(store: V.Store, user: string, cmd: V.VoteCommand, guard: Option<nat>, revision: Option<nat>)
    requires O.Sound(store) && V.FinishVote(store, user, cmd, guard, revision).Done?
    requires guard.Some? ==> guard.value == store.planning + 1
    ensures var r := V.FinishVote(store, user, cmd, guard, revision).value;
            && O.Sound(r.0) && O.StoreEvolves(store, r.0) && !r.1.CycleInvalidated?
            && |r.0.materialized| == |store.materialized| + if r.1.Finalized? then 1 else 0
  {
    O.VotesAreSound(store, user, cmd, guard, revision);
    var voted, i, targets := R.VoteResult(store, user, cmd, guard, revision);
  }

  /** A vote keeps the store sound, and adds a finalization exactly when it reports one. */
  lemma VoteIsSound(store: V.Store, actor: V.Actor, cmd: V.VoteCommand, revision: Option<nat>)
    requires O.Sound(store) && V.Vote(store, actor, cmd, revision).Done?
    ensures var r := V.Vote(store, actor, cmd, revision).value;
            && O.Sound(r.0) && O.StoreEvolves(store, r.0)
            && |r.0.materialized| == |store.materialized| + if r.1.Finalized? then 1 else 0
  {
    var plan := V.BeginVote(store, actor, cmd).value;
    if plan.Close? {
      var i := V.ReadCycle(store.demand, actor.id.value, cmd).value.cycle;
      StaleVoteIsSound(store, cmd, store.demand.cycles[i].ballots);
    } else {
      var guard := if plan.complete then Some(V.AcquirePlanning(store.planning, cmd.expectedPlanning).value) else None;
      RecordedVoteIsSound(store, actor.id.value, cmd, guard, revision);
    }
  }

  /** A command, refused or not, keeps the store sound and what the services promise. */
  lemma CommandIsSound(dir: Directory, store: V.Store, c: L.Command, r: V.Attempt<V.Demand>)
    requires O.Sound(store) && r == L.Run(dir, store.demand, c)
    ensures var after := if r.Done? then store.(demand := r.value) else store; O.Sound(after) && Promised(store, after)
  {
    if r.Done? {
      L.CommandsKeep(dir, store.demand, c);
      O.SoundnessStays(store, store.(demand := r.value));
    }
    SoundnessPromises(store, if r.Done? then store.(demand := r.value) else store);
  }

  /** The targets of a vote are known and open to its actor. */
  ghost predicate Entitled(store: V.Store, actor: V.Actor, cmd: V.VoteCommand) {
    && V.CheckedActor(store.activeUsers, actor).Done? && V.NamedCycle(store.demand, cmd.cycleId).Done?
    && var ballots := store.demand.cycles[V.NamedCycle(store.demand, cmd.cycleId).value].ballots;
       V.Targets(ballots, cmd).Done? && V.MayVote(ballots, actor.id.value, V.Targets(ballots, cmd).value)
  }

  /** Refusals about targets and eligibility. */
  const TARGET_REFUSALS := {V.TargetsRequired, V.TargetInvalid, V.ActorNotEligible}

  lemma EntitledIsNotRefused(store: V.Store, actor: V.Actor, cmd: V.VoteCommand, revision: Option<nat>)
    requires Entitled(store, actor, cmd)
    ensures var r := V.Vote(store, actor, cmd, revision); r.Failed? ==> r.error !in TARGET_REFUSALS
  {
    P.TargetsAreNotRefused(store, actor, cmd, revision);
  }

  /** An accepted edit of the business fields, lines or periods of a planned demand: refused by the envelope exactly
      if it says so, and with nothing changed; inside it the demand stays planned with its cycles; without a policy it
      is submitted again, without its approval. A change of contact outside the planned status moves the version. */
  ghost predicate EditPromised(dir: Directory, d: V.Demand, c: L.Command, error: Option<V.Refusal>, after: V.Demand) {
    && (C.IsEdit(c) && C.BusinessEdit(c) && !C.NothingToDo(c) && C.Accepted(d, c) && d.status == V.Planned ==>
          && (error == Some(V.EnvelopeRefused) <==> c.envelope == L.Refused)
          && (c.envelope == L.Refused ==> after == d)
          && (c.envelope == L.Within ==> error == None && after == d.(version := d.version + 1, subject := c.subject))
          && (c.envelope == L.NoPolicy ==>
                && error == None
                && after == d.(version := d.version + 1, subject := c.subject, status := V.Submitted,
                               approvedAt := false)))
    && (c.OverrideContact? && c.changed && C.Accepted(d, c) && d.status != V.Planned ==>
          error == None && after == d.(version := d.version + 1))
  }

  lemma EditKeepsPromise(dir: Directory, d: V.Demand, c: L.Command)
    requires L.WellFormed(d)
    ensures var r := L.Run(dir, d, c);
            EditPromised(dir, d, c, if r.Done? then None else Some(r.error), if r.Done? then r.value else d)
  {
    C.CommandEndsSo(dir, d, c);
  }

  /** What a vote hands back, with the store it leaves. */
  function Ended(after: V.Store, r: V.Attempt<V.Outcome>): V.Attempt<(V.Store, V.Outcome)> {
    if r.Done? then V.Done((after, r.value)) else V.Failed(r.error)
  }

  lemma SoundIsNumerable(store: V.Store)
    requires O.Sound(store)
    ensures W.Numerable(store.demand)
  {
    forall i | 0 <= i < |store.demand.cycles| ensures P.DistinctIds(store.demand.cycles[i].ballots) {
      R.NumberedAreDistinct(store.demand, i);
    }
  }

  class DemandApprovals {
    var directory: Directory
    var status: V.Status
    var approvedAt: bool
    var version: nat
    var subject: Subject
    var cycles: seq<V.Cycle>
    var decisions: seq<V.Decision>
    var nextId: nat
    var activeUsers: set<string>
    var planning: nat
    var materialized: seq<V.Materialization>

    function Request(): V.Demand
      reads this
    {
      V.Demand(status, approvedAt, version, subject, cycles, decisions, nextId)
    }

    function Contents(): V.Store
      reads this
    {
      V.Store(Request(), activeUsers, planning, materialized)
    }

    /** The demand is well-formed, and its finalizations are those of its completed cycles. */
    ghost predicate Valid()
      reads this
    {
      O.Sound(Contents())
    }

    constructor (directory: Directory, subject: Subject, activeUsers: set<string>)
      ensures Valid()
      ensures Contents() == V.Store(V.Demand(V.Draft, false, 1, subject, [], [], 0), activeUsers, 1, [])
      ensures this.directory == directory
    {
      this.directory, this.subject, this.activeUsers := directory, subject, activeUsers;
      status, approvedAt, version := V.Draft, false, 1;
      cycles, decisions, nextId := [], [], 0;
      planning, materialized := 1, [];
    }

    /** Rollback. */
    method Restore(saved: V.Store)
      modifies this
      ensures Contents() == saved && directory == old(directory)
    {
      var d := saved.demand;
      status, approvedAt, version, subject := d.status, d.approvedAt, d.version, d.subject;
      cycles, decisions, nextId := d.cycles, d.decisions, d.nextId;
      activeUsers, planning, materialized := saved.activeUsers, saved.planning, saved.materialized;
    }

    // -------------------------------------------------------------- compare-and-swap

    /** One row is updated iff it still has the expected version. */
    method AcquireRequestVersion(expected: int) returns (acquired: bool)
      modifies this`version
      ensures acquired <==> old(version) == expected
      ensures version == if acquired then old(version) + 1 else old(version)
    {
      acquired := version == expected;
      if acquired { version := version + 1; }
    }

    method AcquirePlanningVersion(expected: Option<int>) returns (r: V.Attempt<nat>)
      modifies this`planning
      ensures r == V.AcquirePlanning(old(planning), expected)
      ensures planning == if r.Done? then r.value else old(planning)
    {
      var wanted := if expected.None? then planning else expected.value;
      if wanted < 1 { return V.Failed(V.PlanningVersionInvalid); }
      if wanted != planning { return V.Failed(V.PlanningVersionConflict); }
      planning := planning + 1;
      r := V.Done(planning);
    }

    // -------------------------------------------------------------- voting

    /** append_decisions: one decision per target, in the order of the cycle. */
    method AppendDecisions(i: nat, targets: set<nat>, user: string)
      requires i < |cycles|
      modifies this`decisions, this`nextId
      ensures Request() == V.Recording(old(Request()), user, V.Ready(i, targets))
    {
      var ballots := cycles[i].ballots;
      ghost var before := decisions;
      for k := 0 to |ballots|
        invariant decisions == before + V.Approvals(ballots[..k], targets, user, nextId)
        invariant nextId == old(nextId)
      {
        assert ballots[..k + 1][..k] == ballots[..k];
        if ballots[k].id in targets {
          decisions := decisions + [V.Decision(ballots[k].id, user, true, nextId)];
        }
      }
      assert ballots[..|ballots|] == ballots;
      nextId := nextId + 1;
    }

    method CompleteCycle(i: nat, planningVersion: nat, revision: nat)
      requires i < |cycles|
      modifies this`cycles, this`materialized, this`status, this`approvedAt
      ensures Request() == V.Closed(old(Request()), i, V.Completed, Some(revision)).(status := V.Planned, approvedAt :=
              true)
      ensures materialized == old(materialized) + [V.Materialization(old(cycles)[i].id, planningVersion, revision)]
    {
      status, approvedAt := V.Planned, true;
      cycles := cycles[i := cycles[i].(state := V.Completed, revision := Some(revision))];
      materialized := materialized + [V.Materialization(cycles[i].id, planningVersion, revision)];
    }

    /** The planning guard already moved the planning version. */
    method RecordVote(user: string, i: nat, targets: set<nat>, guard: Option<nat>, revision: Option<nat>)
      returns (r: V.Attempt<V.Outcome>)
      requires i < |cycles|
      modifies this`decisions, this`nextId, this`cycles, this`materialized, this`status, this`approvedAt
      ensures match V.RecordVote(old(Contents()), user, i, targets, guard, revision)
              case Failed(e) => r == V.Failed(e)
              case Done((store, outcome)) => r == V.Done(outcome) && Contents() == store.(planning := planning)
    {
      AppendDecisions(i, targets, user);
      var quorum := V.ProjectQuorum(cycles[i].ballots, decisions);
      if !quorum.Complete() { return V.Done(V.Recorded(version, quorum)); }
      if guard.None? { return V.Failed(V.QuorumGuardMissing); }
      if status != V.Submitted { return V.Failed(V.RequestNotSubmitted); }
      if revision.None? { return V.Failed(V.RevisionMissing); }
      CompleteCycle(i, guard.value, revision.value);
      r := V.Done(V.Finalized(version, quorum, revision.value, guard.value));
    }

    /** Everything from the request version on. */
    method FinishVote(user: string, cmd: V.VoteCommand, guard: Option<nat>, revision: Option<nat>)
      returns (r: V.Attempt<V.Outcome>)
      modifies this
      ensures directory == old(directory)
      ensures match V.FinishVote(old(Contents()), user, cmd, guard, revision)
              case Failed(e) => r == V.Failed(e)
              case Done((store, outcome)) => r == V.Done(outcome) && Contents() == store.(planning := old(planning))
    {
      ghost var store := Contents();
      FinishByReading(store, user, cmd, guard, revision);
      var acquired := AcquireRequestVersion(cmd.expectedVersion);
      if !acquired { return V.Failed(V.DemandVersionConflict); }
      assert Contents() == store.(demand := store.demand.(version := store.demand.version + 1));
      var reading := V.ReadCycle(Request(), user, cmd);
      if reading.Failed? { return V.Failed(reading.error); }
      if reading.value.Stale? { return V.Failed(V.SubjectChanged); }
      r := RecordVote(user, reading.value.cycle, reading.value.targets, guard, revision);
    }

    method InvalidateCycle(expected: int) returns (error: Option<V.Refusal>)
      modifies this
      ensures directory == old(directory)
      ensures match V.InvalidateCycle(old(Request()), expected)
              case Failed(e) => error == Some(e)
              case Done(d) => error == None && Contents() == old(Contents()).(demand := d)
    {
      var active := V.ActiveCycle(Request());
      if active.Failed? { return Some(active.error); }
      if active.value.None? { return None; }
      var i := active.value.value;
      var acquired := AcquireRequestVersion(expected);
      if !acquired { return Some(V.DemandVersionConflict); }
      cycles := cycles[i := cycles[i].(state := V.Invalidated)];
      error := None;
    }

    /** The phases of vote. Exactness of the prediction is what makes the planning version right: a guard taken
        is a guard used. */
    method VoteInTransaction(actor: V.Actor, cmd: V.VoteCommand, revision: Option<nat>)
      returns (r: V.Attempt<V.Outcome>)
      modifies this
      ensures directory == old(directory)
      ensures match V.Vote(old(Contents()), actor, cmd, revision)
              case Failed(e) => r == V.Failed(e)
              case Done((store, outcome)) => r == V.Done(outcome) && Contents() == store
    {
      var begun := V.BeginVote(Contents(), actor, cmd);
      if begun.Failed? { return V.Failed(begun.error); }
      var user := actor.id.value;
      if begun.value.Close? {
        var i := V.ReadCycle(Request(), user, cmd).value.cycle;
        var ballots := cycles[i].ballots;
        var error := InvalidateCycle(cmd.expectedVersion);
        if error.Some? { return V.Failed(error.value); }
        var quorum := V.ProjectQuorum(ballots, decisions);
        return V.Done(V.CycleInvalidated(version, quorum));
      }
      var guard: Option<nat> := None;
      if begun.value.complete {
        var acquired := AcquirePlanningVersion(cmd.expectedPlanning);
        if acquired.Failed? { return V.Failed(acquired.error); }
        guard := Some(acquired.value);
      }
      GuardIsUsed(old(Contents()), actor, cmd, guard, revision);
      r := FinishVote(user, cmd, guard, revision);
    }

    /** One vote. Nothing interrupts it, so the planning guard is never missing; and it is not refused for its
        targets if they are known and open to the actor. */
    method Vote(actor: V.Actor, cmd: V.VoteCommand, revision: Option<nat>) returns (r: V.Attempt<V.Outcome>)
      requires Valid()
      modifies this
      ensures Valid() && Promised(old(Contents()), Contents()) && directory == old(directory)
      ensures match V.Vote(old(Contents()), actor, cmd, revision)
              case Failed(e) => r == V.Failed(e) && Contents() == old(Contents())
              case Done((store, outcome)) => r == V.Done(outcome) && Contents() == store
      ensures |materialized| == |old(materialized)| + if r.Done? && r.value.Finalized? then 1 else 0
      ensures r != V.Failed(V.QuorumGuardMissing)
      ensures Entitled(old(Contents()), actor, cmd) && r.Failed? ==> r.error !in TARGET_REFUSALS
      ensures W.VoteEnds(old(Contents()), actor, cmd, revision, Ended(Contents(), r))
      ensures r == V.Failed(V.PlanningVersionConflict) <==>
              && W.WouldComplete(old(Contents()), actor, cmd) && cmd.expectedPlanning.Some?
              && 1 <= cmd.expectedPlanning.value != old(planning)
      ensures if r.Done? && r.value.Finalized?
              then && (cmd.expectedPlanning.Some? ==> cmd.expectedPlanning.value == old(planning))
                   && planning == r.value.planningVersion == old(planning) + 1
              else planning == old(planning)
    {
      var saved := Contents();
      SoundIsNumerable(saved);
      W.VoteEndsSo(saved, actor, cmd, revision);
      W.PlanningConflictExactly(saved, actor, cmd, revision);
      if V.Vote(saved, actor, cmd, revision).Done? { VoteIsSound(saved, actor, cmd, revision); }
      GuardIsNotMissing(saved, actor, cmd, revision);
      if Entitled(saved, actor, cmd) { EntitledIsNotRefused(saved, actor, cmd, revision); }
      r := VoteInTransaction(actor, cmd, revision);
      if r.Failed? { Restore(saved); }
      assert Ended(Contents(), r) == V.Vote(saved, actor, cmd, revision);
      SoundnessPromises(saved, Contents());
    }

    /** A vote on all the actor may approve, refused for eligibility exactly when that is nothing. */
    method ApproveAllEligible(actor: V.Actor, cycleId: nat, expectedVersion: int, expectedPlanning: Option<int>,
        revision: Option<nat>)
      returns (r: V.Attempt<V.Outcome>)
      requires Valid()
      modifies this
      ensures Valid() && Promised(old(Contents()), Contents()) && directory == old(directory)
      ensures match V.ApproveAllEligible(old(Contents()), actor, cycleId, expectedVersion, expectedPlanning, revision)
              case Failed(e) => r == V.Failed(e) && Contents() == old(Contents())
              case Done((store, outcome)) => r == V.Done(outcome) && Contents() == store
      ensures |materialized| == |old(materialized)| + if r.Done? && r.value.Finalized? then 1 else 0
      ensures r != V.Failed(V.QuorumGuardMissing)
      ensures r == V.Failed(V.ActorNotEligible) <==> W.NothingIsHis(old(Contents()), actor, cycleId)
      ensures W.AllEnds(old(Contents()), actor, cycleId, expectedVersion, expectedPlanning, revision,
                        Ended(Contents(), r))
    {
      ghost var saved := Contents();
      SoundIsNumerable(saved);
      W.AllEndsSo(saved, actor, cycleId, expectedVersion, expectedPlanning, revision);
      EligibilityExactly(Contents(), actor, cycleId, expectedVersion, expectedPlanning, revision);
      SoundnessPromises(Contents(), Contents());
      var user := V.CheckedActor(activeUsers, actor);
      if user.Failed? { return V.Failed(user.error); }
      var targets := V.AllEligible(Request(), user.value, cycleId);
      if targets.Failed? { return V.Failed(targets.error); }
      r := Vote(actor, V.VoteCommand(cycleId, expectedVersion, targets.value, {}, true, expectedPlanning), revision);
    }

    // -------------------------------------------------------------- cycles

    method CreateCycle(snapshot: Snapshot)
      modifies this`version, this`cycles, this`nextId
      ensures Request() == L.Opened(old(Request()), snapshot)
    {
      var cycle := V.Cycle(nextId, V.Open, snapshot, L.Ballots(snapshot.requirements, nextId + 1), version, None);
      version := version + 1;
      cycles := cycles + [cycle];
      nextId := nextId + 1 + |snapshot.requirements|;
    }

    method InitializeCycle(expected: int) returns (error: Option<V.Refusal>)
      modifies this`version, this`cycles, this`nextId
      ensures match L.InitializeCycle(directory, old(Request()), expected)
              case Failed(e) => error == Some(e)
              case Done(d) => error == None && Request() == d
    {
      if status != V.Submitted { return Some(V.RequestNotSubmitted); }
      var active := V.ActiveCycle(Request());
      if active.Failed? { return Some(active.error); }
      if active.value.Some? { return Some(V.CycleAlreadyActive); }
      var built := BuildCycle(directory, subject);
      if built.Err? { return Some(V.RoutingFailed(built.error)); }
      if version != expected { return Some(V.SubmittedVersionConflict); }
      CreateCycle(built.value);
      error := None;
    }

    method InitializeAfterSubmission() returns (error: Option<V.Refusal>)
      modifies this`version, this`cycles, this`nextId
      ensures match L.InitializeAfterSubmission(directory, old(Request()))
              case Failed(e) => error == Some(e)
              case Done(d) => error == None && Request() == d
    {
      if status != V.Submitted { return None; }
      var active := V.ActiveCycle(Request());
      if active.Failed? { return Some(active.error); }
      if active.value.Some? { return None; }
      error := InitializeCycle(version);
    }

    method RefreshCycle() returns (error: Option<V.Refusal>)
      modifies this
      ensures directory == old(directory)
      ensures match L.RefreshCycle(directory, old(Request()))
              case Failed(e) => error == Some(e)
              case Done(d) => error == None && Contents() == old(Contents()).(demand := d)
    {
      if status != V.Submitted { return None; }
      var active := V.ActiveCycle(Request());
      if active.Failed? { return Some(active.error); }
      if active.value.None? { return None; }
      if Matches(cycles[active.value.value].snapshot, subject) { return None; }
      error := InvalidateCycle(version);
      if error.Some? { return; }
      error := InitializeCycle(version);
    }

    /** The new cycle after a change of contact. */
    method RenewCycle() returns (error: Option<V.Refusal>)
      modifies this`version, this`cycles, this`nextId
      ensures match L.RenewCycle(directory, old(Request()))
              case Failed(e) => error == Some(e)
              case Done(d) => error == None && Request() == d
    {
      var active := V.ActiveCycle(Request());
      if active.Failed? { return Some(active.error); }
      if active.value.Some? || cycles == [] { return None; }
      error := InitializeCycle(version);
    }

    // -------------------------------------------------------------- demand commands

    /** The fields of the command, its status and the version of the row. */
    method WriteRow(c: L.Command, effect: L.Effect)
      modifies this`status, this`approvedAt, this`version, this`subject
      ensures Request() == L.Flushed(old(Request()), old(Request()), c, effect)
    {
      if effect.status.Some? { status := effect.status.value; }
      if effect.withdraws { approvedAt := false; }
      subject := L.Edited(c, subject);
      version := version + 1;
    }

    method CallHook(hook: L.Hook) returns (error: Option<V.Refusal>)
      modifies this
      ensures directory == old(directory)
      ensures match L.Hooked(directory, old(Request()), hook)
              case Failed(e) => error == Some(e)
              case Done(d) => error == None && Contents() == old(Contents()).(demand := d)
    {
      match hook
      case NoHook => error := None;
      case OpenHook => error := InitializeAfterSubmission();
      case ReopenHook =>
        status, approvedAt := V.Submitted, false;
        error := InitializeAfterSubmission();
      case RefreshHook => error := RefreshCycle();
      case CloseHook => error := InvalidateCycle(version);
      case RenewHook => error := RenewCycle();
    }

    method RunCommand(c: L.Command) returns (error: Option<V.Refusal>)
      modifies this
      ensures directory == old(directory)
      ensures match L.Run(directory, old(Request()), c)
              case Failed(e) => error == Some(e)
              case Done(d) => error == None && Contents() == old(Contents()).(demand := d)
    {
      ghost var store := Contents();
      error := L.Refusing(Request(), c);
      if error.Some? || L.Idle(c) { return; }
      if c.SelectAlternative? {
        subject := c.subject;
        assert Contents() == store.(demand := store.demand.(subject := c.subject));
        if status == V.Submitted { error := RefreshCycle(); }
        return;
      }
      var effect := L.EffectOf(c, status);
      if effect.Failed? { return Some(effect.error); }
      WriteRow(c, effect.value);
      assert Contents() == store.(demand := L.Flushed(store.demand, store.demand, c, effect.value));
      error := CallHook(effect.value.hook);
    }

    /** One command. It finalizes nothing. */
    method Execute(c: L.Command) returns (error: Option<V.Refusal>)
      requires Valid()
      modifies this
      ensures Valid() && Promised(old(Contents()), Contents()) && directory == old(directory)
      ensures materialized == old(materialized) && planning == old(planning)
      ensures match L.Run(directory, old(Request()), c)
              case Failed(e) => error == Some(e) && Contents() == old(Contents())
              case Done(d) => error == None && Contents() == old(Contents()).(demand := d)
      ensures C.CommandEnds(directory, old(Request()), c,
                            if error == None then V.Done(Request()) else V.Failed(error.value))
      ensures EditPromised(directory, old(Request()), c, error, Request())
    {
      var saved := Contents();
      C.CommandEndsSo(directory, saved.demand, c);
      EditKeepsPromise(directory, saved.demand, c);
      ghost var r := L.Run(directory, saved.demand, c);
      CommandIsSound(directory, saved, c, r);
      error := RunCommand(c);
      assert error.None? ==> r.Done? && Contents() == saved.(demand := r.value);
      if error.Some? { Restore(saved); }
    }
  }

  lemma FinishByReading(store: V.Store, user: string, cmd: V.VoteCommand, guard: Option<nat>, revision: Option<nat>)
    ensures var d := store.demand.(version := store.demand.version + 1);
            var reading := V.ReadCycle(d, user, cmd);
            V.FinishVote(store, user, cmd, guard, revision) ==
              if store.demand.version != cmd.expectedVersion then V.Failed(V.DemandVersionConflict)
              else if reading.Failed? then V.Failed(reading.error)
              else if reading.value.Stale? then V.Failed(V.SubjectChanged)
              else V.RecordVote(store.(demand := d), user, reading.value.cycle, reading.value.targets, guard, revision)
  {
  }

  /** A vote predicted to complete the quorum finalizes or fails; one that is not leaves the planning alone. */
  lemma GuardIsUsed(store: V.Store, actor: V.Actor, cmd: V.VoteCommand, guard: Option<nat>, revision: Option<nat>)
    requires V.BeginVote(store, actor, cmd).Done? && V.BeginVote(store, actor, cmd).value.Record?
    requires V.BeginVote(store, actor, cmd).value.complete <==> guard.Some?
    ensures var r := V.FinishVote(store, actor.id.value, cmd, guard, revision);
            r.Done? ==> r.value.0.planning == if guard.Some? then guard.value else store.planning
  {
    var d := store.demand;
    var user := actor.id.value;
    P.ReadingIgnoresVersion(d, d.(version := d.version + 1), user, cmd);
    var r := V.ReadCycle(d, user, cmd).value;
    P.ActionIsIrrelevant(d.cycles[r.cycle].ballots, d.decisions, r.targets, user, 0, d.nextId);
  }

  /** So the missing-guard conflict does not occur in a vote that nothing interrupts. */
  lemma GuardIsNotMissing(store: V.Store, actor: V.Actor, cmd: V.VoteCommand, revision: Option<nat>)
    ensures V.Vote(store, actor, cmd, revision) != V.Failed(V.QuorumGuardMissing)
  {
    var r := V.Vote(store, actor, cmd, revision);
    if r == V.Failed(V.QuorumGuardMissing) {
      var plan := V.BeginVote(store, actor, cmd).value;
      assert plan == V.Record(false);
      var user := actor.id.value;
      O.FinishUnfolds(store, user, cmd, None, revision);
      var reading := V.ReadCycle(store.demand, user, cmd).value;
      O.SameCompletion(store.demand, store.demand, user, reading);
    }
  }

  lemma EligibilityExactly(
    store: V.Store, actor: V.Actor, cycleId: nat, expected: int, planning: Option<int>, revision: Option<nat>)
    requires O.Sound(store)
    ensures var r := V.ApproveAllEligible(store, actor, cycleId, expected, planning, revision);
            r == V.Failed(V.ActorNotEligible) <==> W.NothingIsHis(store, actor, cycleId)
  {
    SoundIsNumerable(store);
    P.ApproveAllIsEligible(store, actor, cycleId, expected, planning, revision);
    V.ActiveCycleExactly(store.demand);
    if W.MayAct(store, actor) && V.NamedCycle(store.demand, cycleId).Done? {
      var i := V.NamedCycle(store.demand, cycleId).value;
      W.OpenIsHis(store.demand.cycles[i].ballots, actor.id.value);
      assert V.OpenTo(store.demand.cycles[i].ballots, actor.id.value) == {} <==>
             W.NothingHisIn(store.demand, actor.id.value, cycleId, i);
    }
  }
}
