/** What a vote does, in terms of the stored demand alone: when it is recorded, finalizes, closes a stale cycle or is
    refused, and what it leaves (app/application/approval_voting.py, app/infrastructure/sql/planning_version.py,
    app/infrastructure/sql/request_version.py). */
module ApprovalPromises {
  import opened Options
  import opened ApprovalRouting
  import opened ApprovalCycles
  import opened ApprovalVoting
  import opened ApprovalProgress
  import opened ApprovalLifecycle
  import opened ApprovalRuns

  // ---------------------------------------------------------------- what a vote is about

  /** The only open cycle. */
  ghost predicate OnlyOpen(d: Demand, i: nat) {
    && i < |d.cycles| && d.cycles[i].state == Open
    && forall j :: 0 <= j < |d.cycles| && d.cycles[j].state == Open ==> j == i
  }

  ghost predicate Named(d: Demand, cmd: VoteCommand, i: nat) {
    OnlyOpen(d, i) && d.cycles[i].id == cmd.cycleId
  }

  ghost predicate NoneIsOpen(d: Demand) {
    forall i :: 0 <= i < |d.cycles| ==> d.cycles[i].state != Open
  }

  ghost predicate TwoAreOpen(d: Demand) {
    exists i, j :: 0 <= i < j < |d.cycles| && d.cycles[i].state == Open && d.cycles[j].state == Open
  }

  /** The requirement that stands for its line: the last one, if there are several. */
  ghost predicate StandsForLine(ballots: seq<Ballot>, b: Ballot) {
    exists k: nat :: StandsAt(ballots, b, k)
  }

  ghost predicate StandsAt(ballots: seq<Ballot>, b: Ballot, k: nat) {
    k < |ballots| && ballots[k] == b && forall j :: k < j < |ballots| ==> ballots[j].lineId != b.lineId
  }

  /** A command asks for a requirement by its identifier or by its line. */
  ghost predicate AsksFor(ballots: seq<Ballot>, cmd: VoteCommand, b: Ballot) {
    b in ballots && (b.id in cmd.requirementIds || (b.lineId in cmd.lineIds && StandsForLine(ballots, b)))
  }

  predicate Empty(cmd: VoteCommand) {
    cmd.requirementIds == {} && cmd.lineIds == {}
  }

  /** All that a command asks for is in the cycle. */
  ghost predicate AllKnown(ballots: seq<Ballot>, cmd: VoteCommand) {
    && (forall r :: r in cmd.requirementIds ==> exists b :: b in ballots && b.id == r)
    && (forall l :: l in cmd.lineIds ==> exists b :: b in ballots && b.lineId == l)
  }

  /** And the user may approve it. */
  ghost predicate AllHis(ballots: seq<Ballot>, cmd: VoteCommand, user: string) {
    forall b :: AsksFor(ballots, cmd, b) ==> user in b.approvers
  }

  /** The reading finds the named cycle current, and all that is asked for there and open to the user. */
  ghost predicate InOrder(d: Demand, cmd: VoteCommand, user: string, i: nat) {
    && Named(d, cmd, i) && Matches(d.cycles[i].snapshot, d.subject)
    && !Empty(cmd) && AllKnown(d.cycles[i].ballots, cmd) && AllHis(d.cycles[i].ballots, cmd, user)
  }

  ghost predicate OutOfDate(d: Demand, cmd: VoteCommand, i: nat) {
    Named(d, cmd, i) && !Matches(d.cycles[i].snapshot, d.subject)
  }

  /** With it, every requirement is satisfied. */
  ghost predicate Completes(d: Demand, cmd: VoteCommand, i: nat)
    requires i < |d.cycles|
  {
    && d.cycles[i].ballots != []
    && forall b :: b in d.cycles[i].ballots ==> Satisfied(b, d.decisions) || AsksFor(d.cycles[i].ballots, cmd, b)
  }

  // ---------------------------------------------------------------- the reading

  lemma {:induction false} LastStandsForLine(ballots: seq<Ballot>, b: Ballot)
    ensures LastOnLine(ballots, b.lineId) == Some(b) <==> StandsForLine(ballots, b)
  {
    if ballots != [] {
      var n := |ballots| - 1;
      LastStandsForLine(ballots[..n], b);
      if ballots[n].lineId == b.lineId {
        if ballots[n] == b { assert StandsAt(ballots, b, n); }
      } else {
        if k: nat :| StandsAt(ballots[..n], b, k) { assert StandsAt(ballots, b, k); }
        if k: nat :| StandsAt(ballots, b, k) { assert StandsAt(ballots[..n], b, k); }
      }
    }
  }

  /** The requirements that a command asks for. */
  ghost function Asked(ballots: seq<Ballot>, cmd: VoteCommand): set<nat> {
    set b | b in ballots && AsksFor(ballots, cmd, b) :: b.id
  }

  lemma AskedExactly(ballots: seq<Ballot>, cmd: VoteCommand, b: Ballot)
    requires DistinctIds(ballots) && b in ballots
    ensures b.id in Asked(ballots, cmd) <==> AsksFor(ballots, cmd, b)
  {
    forall c | c in ballots && c.id == b.id ensures c == b { SameBallot(ballots, b, c); }
  }

  lemma SameBallot(ballots: seq<Ballot>, b: Ballot, c: Ballot)
    requires DistinctIds(ballots) && b in ballots && c in ballots && b.id == c.id
    ensures b == c
  {
    var i :| 0 <= i < |ballots| && ballots[i] == b;
    var j :| 0 <= j < |ballots| && ballots[j] == c;
  }

  lemma KnownExactly(ballots: seq<Ballot>, cmd: VoteCommand)
    ensures AllKnown(ballots, cmd) <==>
              cmd.requirementIds <= Ids(ballots) && cmd.lineIds <= set b | b in ballots :: b.lineId
  {
  }

  lemma AskedFor(ballots: seq<Ballot>, cmd: VoteCommand, r: nat)
    requires AllKnown(ballots, cmd)
    ensures r in Asked(ballots, cmd) <==>
              || r in cmd.requirementIds
              || exists b :: b in ballots && b.lineId in cmd.lineIds && LastOnLine(ballots, b.lineId) == Some(b) &&
                   b.id == r
  {
    forall b | b in ballots
      ensures LastOnLine(ballots, b.lineId) == Some(b) <==> StandsForLine(ballots, b)
    {
      LastStandsForLine(ballots, b);
    }
    if r in cmd.requirementIds {
      var b :| b in ballots && b.id == r;
      assert AsksFor(ballots, cmd, b);
    }
  }

  lemma TargetsAreAsked(ballots: seq<Ballot>, cmd: VoteCommand)
    ensures Targets(ballots, cmd) ==
              if Empty(cmd) then Failed(TargetsRequired)
              else if !AllKnown(ballots, cmd) then Failed(TargetInvalid) else Done(Asked(ballots, cmd))
  {
    KnownExactly(ballots, cmd);
    if AllKnown(ballots, cmd) && !Empty(cmd) {
      var t := Targets(ballots, cmd).value;
      forall r ensures r in t <==> r in Asked(ballots, cmd) {
        AskedFor(ballots, cmd, r);
      }
      assert t == Asked(ballots, cmd);
    }
  }

  lemma HisAreAsked(ballots: seq<Ballot>, cmd: VoteCommand, user: string)
    requires DistinctIds(ballots)
    ensures MayVote(ballots, user, Asked(ballots, cmd)) <==> AllHis(ballots, cmd, user)
  {
    forall b | b in ballots ensures b.id in Asked(ballots, cmd) <==> AsksFor(ballots, cmd, b) {
      AskedExactly(ballots, cmd, b);
    }
  }

  ghost predicate Numerable(d: Demand) {
    forall i :: 0 <= i < |d.cycles| ==> DistinctIds(d.cycles[i].ballots)
  }

  /** What a reading finds. */
  ghost predicate Finds(d: Demand, cmd: VoteCommand, user: string, r: Attempt<Reading>) {
    match r
    case Done(Stale(i)) => OutOfDate(d, cmd, i)
    case Done(Ready(i, targets)) => InOrder(d, cmd, user, i) && targets == Asked(d.cycles[i].ballots, cmd)
    case Failed(e) => CannotRead(d, cmd, user, e)
  }

  /** Why a reading fails. */
  ghost predicate CannotRead(d: Demand, cmd: VoteCommand, user: string, e: Refusal) {
    match e
    case MultipleActive => TwoAreOpen(d)
    case CycleMissing => NoneIsOpen(d)
    case CycleConflict => exists i: nat :: OnlyOpen(d, i) && d.cycles[i].id != cmd.cycleId
    case TargetsRequired => Empty(cmd) && exists i: nat :: Current(d, cmd, i)
    case TargetInvalid => !Empty(cmd) && exists i: nat :: Current(d, cmd, i) && !AllKnown(d.cycles[i].ballots, cmd)
    case ActorNotEligible =>
      !Empty(cmd) && exists i: nat ::
        Current(d, cmd, i) && AllKnown(d.cycles[i].ballots, cmd) && !AllHis(d.cycles[i].ballots, cmd, user)
    case _ => false
  }

  ghost predicate Current(d: Demand, cmd: VoteCommand, i: nat) {
    Named(d, cmd, i) && Matches(d.cycles[i].snapshot, d.subject)
  }

  lemma ReadingFinds(d: Demand, cmd: VoteCommand, user: string)
    requires Numerable(d)
    ensures Finds(d, cmd, user, ReadCycle(d, user, cmd))
  {
    ActiveCycleExactly(d);
    InitializationIsNeverRequested(d, cmd.cycleId);
    if ActiveCycle(d).Failed? {
      assert TwoAreOpen(d);
    } else if ActiveCycle(d).value.Some? {
      var i := ActiveCycle(d).value.value;
      assert OnlyOpen(d, i);
      assert Named(d, cmd, i) && Matches(d.cycles[i].snapshot, d.subject) ==> Current(d, cmd, i);
      TargetsAreAsked(d.cycles[i].ballots, cmd);
      HisAreAsked(d.cycles[i].ballots, cmd, user);
    }
  }

  /** Only one of these can be. */
  lemma ReadingIsOne(d: Demand, cmd: VoteCommand, user: string, a: Attempt<Reading>, b: Attempt<Reading>)
    requires Finds(d, cmd, user, a) && Finds(d, cmd, user, b)
    ensures a == b
  {
  }

  /** So a reading is what it finds. */
  lemma ReadingExactly(d: Demand, cmd: VoteCommand, user: string, r: Attempt<Reading>)
    requires Numerable(d)
    ensures ReadCycle(d, user, cmd) == r <==> Finds(d, cmd, user, r)
  {
    ReadingFinds(d, cmd, user);
    if Finds(d, cmd, user, r) { ReadingIsOne(d, cmd, user, ReadCycle(d, user, cmd), r); }
  }

  // ---------------------------------------------------------------- the decisions of a vote

  /** What the decisions from n on are about. */
  ghost function About(decisions: seq<Decision>, n: nat): set<nat> {
    set k | n <= k < |decisions| :: decisions[k].requirement
  }

  ghost predicate Once(decisions: seq<Decision>, n: nat) {
    forall j, k :: n <= j < k < |decisions| ==> decisions[j].requirement != decisions[k].requirement
  }

  /** The decisions grow by one approval of the user for each requirement asked for, all of one action. */
  ghost predicate Adds(d: Demand, after: seq<Decision>, cmd: VoteCommand, user: string, i: nat)
    requires i < |d.cycles|
  {
    && d.decisions <= after
    && (forall k :: |d.decisions| <= k < |after| ==> after[k] == Decision(after[k].requirement, user, true, d.nextId))
    && About(after, |d.decisions|) == Asked(d.cycles[i].ballots, cmd) && Once(after, |d.decisions|)
  }

  lemma OnceMore(decisions: seq<Decision>, x: Decision)
    requires Once(decisions, 0) && forall k :: 0 <= k < |decisions| ==> decisions[k].requirement != x.requirement
    ensures Once(decisions + [x], 0)
  {
  }

  lemma {:induction false} ApprovalsAreDistinct(ballots: seq<Ballot>, targets: set<nat>, user: string, action: nat)
    requires DistinctIds(ballots)
    ensures Once(Approvals(ballots, targets, user, action), 0)
  {
    if ballots != [] {
      var before, last := ballots[..|ballots| - 1], ballots[|ballots| - 1];
      ApprovalsAreDistinct(before, targets, user, action);
      ApprovalsAreBallots(before, targets, user, action);
      var earlier := Approvals(before, targets, user, action);
      forall j | 0 <= j < |earlier| ensures earlier[j].requirement != last.id {
        assert earlier[j] in earlier;
        var b :| b in before && b.id == earlier[j].requirement;
        var k :| 0 <= k < |before| && before[k] == b;
        assert ballots[k].id != ballots[|ballots| - 1].id;
      }
      OnceMore(earlier, Decision(last.id, user, true, action));
      assert earlier + [] == earlier;
    }
  }

  lemma {:induction false} ApprovalsAreOneAction(ballots: seq<Ballot>, targets: set<nat>, user: string, action: nat)
    ensures forall x :: x in Approvals(ballots, targets, user, action) ==>
            x == Decision(x.requirement, user, true, action)
  {
    if ballots != [] { ApprovalsAreOneAction(ballots[..|ballots| - 1], targets, user, action); }
  }

  lemma ApprovalsAdd(d: Demand, cmd: VoteCommand, user: string, i: nat)
    requires i < |d.cycles| && DistinctIds(d.cycles[i].ballots)
    ensures var ballots := d.cycles[i].ballots;
            Adds(d, d.decisions + Approvals(ballots, Asked(ballots, cmd), user, d.nextId), cmd, user, i)
  {
    var ballots := d.cycles[i].ballots;
    var added := Approvals(ballots, Asked(ballots, cmd), user, d.nextId);
    var after, n := d.decisions + added, |d.decisions|;
    ApprovalsAreBallots(ballots, Asked(ballots, cmd), user, d.nextId);
    ApprovalsAreDistinct(ballots, Asked(ballots, cmd), user, d.nextId);
    ApprovalsAreOneAction(ballots, Asked(ballots, cmd), user, d.nextId);
    forall k | n <= k < |after|
      ensures after[k] == Decision(after[k].requirement, user, true, d.nextId)
      ensures after[k].requirement in Asked(ballots, cmd)
    {
      assert after[k] == added[k - n] && after[k] in added;
    }
    forall r | r in Asked(ballots, cmd) ensures r in About(after, n) {
      var b :| b in ballots && AsksFor(ballots, cmd, b) && b.id == r;
      var k :| 0 <= k < |added| && added[k] == Decision(b.id, user, true, d.nextId);
      assert after[n + k] == added[k];
    }
    OnceShifted(d.decisions, added);
  }

  lemma OnceShifted(decisions: seq<Decision>, added: seq<Decision>)
    requires Once(added, 0)
    ensures Once(decisions + added, |decisions|)
  {
    var after, n := decisions + added, |decisions|;
    forall j, k | n <= j < k < |after| ensures after[j].requirement != after[k].requirement {
      assert after[j] == added[j - n] && after[k] == added[k - n];
    }
  }

  /** The quorum is complete after the vote exactly if the vote completes it. */
  lemma CompletesExactly(d: Demand, cmd: VoteCommand, user: string, i: nat, action: nat)
    requires Numerable(d) && InOrder(d, cmd, user, i)
    ensures var ballots := d.cycles[i].ballots;
            QuorumOf(ballots, d.decisions + Approvals(ballots, Asked(ballots, cmd), user, action)).Complete() <==>
              Completes(d, cmd, i)
  {
    var ballots := d.cycles[i].ballots;
    var after := d.decisions + Approvals(ballots, Asked(ballots, cmd), user, action);
    forall b | b in ballots
      ensures Satisfied(b, after) <==> Satisfied(b, d.decisions) || AsksFor(ballots, cmd, b)
    {
      VotingAddsExactly(ballots, d.decisions, Asked(ballots, cmd), user, action, b);
      AskedExactly(ballots, cmd, b);
    }
    if Completes(d, cmd, i) {
      assert QuorumOf(ballots, after).remaining == {};
    } else if ballots != [] {
      var b :| b in ballots && !Satisfied(b, after);
      assert b.id in QuorumOf(ballots, after).remaining;
    }
  }

  // ---------------------------------------------------------------- the unlocked phase

  /** The actor may approve, and the command is one. */
  predicate Fit(store: Store, actor: Actor, cmd: VoteCommand) {
    && actor.id.Some? && actor.mayApprove && actor.id.value in store.activeUsers
    && cmd.expectedVersion >= 1 && cmd.approve && store.demand.status == Submitted
  }

  /** What is wrong with an actor or a command before anything is read. */
  predicate Unfit(store: Store, actor: Actor, cmd: VoteCommand, e: Refusal) {
    match e
    case IdentityRequired => actor.id.None?
    case PermissionRequired => actor.id.Some? && !actor.mayApprove
    case ActorInactive => actor.id.Some? && actor.mayApprove && actor.id.value !in store.activeUsers
    case VersionInvalid => MayAct(store, actor) && cmd.expectedVersion < 1
    case DecisionUnsupported => MayAct(store, actor) && cmd.expectedVersion >= 1 && !cmd.approve
    case RequestNotSubmitted =>
      MayAct(store, actor) && cmd.expectedVersion >= 1 && cmd.approve && store.demand.status != Submitted
    case _ => false
  }

  predicate MayAct(store: Store, actor: Actor) {
    actor.id.Some? && actor.mayApprove && actor.id.value in store.activeUsers
  }

  /** What the unlocked phase of a vote plans. */
  ghost predicate Plans(store: Store, actor: Actor, cmd: VoteCommand, r: Attempt<Plan>) {
    match r
    case Done(Close) => Fit(store, actor, cmd) && exists i: nat :: OutOfDate(store.demand, cmd, i)
    case Done(Record(complete)) =>
      Fit(store, actor, cmd) && exists i: nat ::
        InOrder(store.demand, cmd, actor.id.value, i) && (complete <==> Completes(store.demand, cmd, i))
    case Failed(e) =>
      Unfit(store, actor, cmd, e) || (Fit(store, actor, cmd) && CannotRead(store.demand, cmd, actor.id.value, e))
  }

  lemma BeginPlans(store: Store, actor: Actor, cmd: VoteCommand)
    requires Numerable(store.demand)
    ensures Plans(store, actor, cmd, BeginVote(store, actor, cmd))
  {
    if Fit(store, actor, cmd) {
      var d, user := store.demand, actor.id.value;
      ReadingFinds(d, cmd, user);
      var r := ReadCycle(d, user, cmd);
      if r.Done? && r.value.Ready? { CompletesExactly(d, cmd, user, r.value.cycle, 0); }
    }
  }

  /** A plan is the only one. */
  lemma PlanIsOne(store: Store, actor: Actor, cmd: VoteCommand, a: Attempt<Plan>, b: Attempt<Plan>)
    requires Plans(store, actor, cmd, a) && Plans(store, actor, cmd, b)
    ensures a == b
  {
  }

  /** The unlocked phase of a vote plans exactly this. */
  lemma BeginExactly(store: Store, actor: Actor, cmd: VoteCommand, r: Attempt<Plan>)
    requires Numerable(store.demand)
    ensures BeginVote(store, actor, cmd) == r <==> Plans(store, actor, cmd, r)
  {
    BeginPlans(store, actor, cmd);
    if Plans(store, actor, cmd, r) { PlanIsOne(store, actor, cmd, BeginVote(store, actor, cmd), r); }
  }

  // ---------------------------------------------------------------- the planning guard

  /** The planning version that a vote expects is the stored one; without one, the stored one will do. */
  predicate PlanningFree(planning: nat, expected: Option<int>) {
    planning >= 1 && (expected.Some? ==> expected.value == planning)
  }

  /** Why the planning is refused. */
  predicate PlanningRefused(planning: nat, expected: Option<int>, e: Refusal) {
    match e
    case PlanningVersionInvalid => if expected.Some? then expected.value < 1 else planning == 0
    case PlanningVersionConflict => expected.Some? && expected.value >= 1 && expected.value != planning
    case _ => false
  }

  lemma PlanningExactly(planning: nat, expected: Option<int>)
    ensures var r := AcquirePlanning(planning, expected);
            && (r.Done? <==> PlanningFree(planning, expected))
            && (r.Done? ==> r.value == planning + 1)
            && (forall e :: r == Failed(e) <==> PlanningRefused(planning, expected, e))
  {
  }

  /** A guard step of a run: nobody else holds the guard, and the vote gets the next planning version if the one it
      expects is the stored one; if not, its session ends and nothing is stored. */
  lemma GuardExactly(w: World, s: nat)
    requires s in w.sessions && w.sessions[s].Voting? && w.sessions[s].intent.plan == Record(true)
    requires w.sessions[s].guard.None?
    ensures var x, after := w.sessions[s], GuardSession(w, s);
            && after.store == w.store && after.dir == w.dir
            && if w.holder.Some? then after == w
               else if PlanningFree(w.store.planning, x.intent.cmd.expectedPlanning)
               then && after.holder == Some(s)
                    && after.sessions == w.sessions[s := Voting(x.intent, Some(w.store.planning + 1), x.looked)]
               else after.holder == None && after.sessions == w.sessions - {s}
  {
    PlanningExactly(w.store.planning, w.sessions[s].intent.cmd.expectedPlanning);
  }

  // ---------------------------------------------------------------- the transaction

  ghost predicate RecordedFrom(store: Store, after: Store, outcome: Outcome, cmd: VoteCommand, user: string, i: nat)
    requires i < |store.demand.cycles|
  {
    var d, decisions := store.demand, after.demand.decisions;
    && Adds(d, decisions, cmd, user, i)
    && after ==
         store.(demand := d.(version := d.version + 1, decisions := decisions, nextId := d.nextId + 1))
    && outcome == Recorded(d.version + 1, QuorumOf(d.cycles[i].ballots, decisions))
  }

  ghost predicate FinalizedFrom(store: Store, after: Store, outcome: Outcome, cmd: VoteCommand, user: string, i: nat,
      planning: nat, revision: nat)
    requires i < |store.demand.cycles|
  {
    var d, decisions := store.demand, after.demand.decisions;
    && Adds(d, decisions, cmd, user, i)
    && after.demand ==
         d.(version := d.version + 1, decisions := decisions, nextId := d.nextId + 1, status := Planned,
            approvedAt := true,
            cycles := d.cycles[i := d.cycles[i].(state := Completed, revision := Some(revision))])
    && after.planning == planning && after.activeUsers == store.activeUsers
    && after.materialized == store.materialized + [Materialization(d.cycles[i].id, planning, revision)]
    && outcome == Finalized(d.version + 1, QuorumOf(d.cycles[i].ballots, decisions), revision, planning)
  }

  /** How the transaction of a vote ends, whatever came between its phases. */
  ghost predicate Finishes(store: Store, user: string, cmd: VoteCommand, guard: Option<nat>, revision: Option<nat>,
      r: Attempt<(Store, Outcome)>)
  {
    var d := store.demand;
    match r
    case Failed(e) =>
      if d.version != cmd.expectedVersion then e == DemandVersionConflict
      else CannotFinish(d, user, cmd, guard, revision, e)
    case Done((after, outcome)) =>
      d.version == cmd.expectedVersion && exists i: nat :: Leaves(store, user, cmd, guard, revision, i, after, outcome)
  }

  /** What a vote leaves: a finalization if it completes the quorum, else its decisions. */
  ghost predicate Leaves(store: Store, user: string, cmd: VoteCommand, guard: Option<nat>, revision: Option<nat>,
      i: nat,
      after: Store, outcome: Outcome)
  {
    && InOrder(store.demand, cmd, user, i)
    && if Completes(store.demand, cmd, i)
       then && guard.Some? && revision.Some? && store.demand.status == Submitted
            && FinalizedFrom(store, after, outcome, cmd, user, i, guard.value, revision.value)
       else RecordedFrom(store, after, outcome, cmd, user, i)
  }

  ghost predicate CannotFinish(d: Demand, user: string, cmd: VoteCommand, guard: Option<nat>, revision: Option<nat>,
      e: Refusal)
  {
    match e
    case SubjectChanged => exists i: nat :: OutOfDate(d, cmd, i)
    case QuorumGuardMissing => guard.None? && CompletedBy(d, user, cmd)
    case RequestNotSubmitted => guard.Some? && d.status != Submitted && CompletedBy(d, user, cmd)
    case RevisionMissing => guard.Some? && d.status == Submitted && revision.None? && CompletedBy(d, user, cmd)
    case _ => CannotRead(d, cmd, user, e)
  }

  /** The vote is in order and completes the quorum. */
  ghost predicate CompletedBy(d: Demand, user: string, cmd: VoteCommand) {
    exists i: nat :: InOrder(d, cmd, user, i) && Completes(d, cmd, i)
  }

  /** The demand with its decisions, and whether they complete the quorum. */
  ghost predicate Voted(d: Demand, user: string, cmd: VoteCommand, i: nat, voted: Demand)
    requires i < |d.cycles|
  {
    && voted == d.(version := d.version + 1, decisions := voted.decisions, nextId := d.nextId + 1)
    && Adds(d, voted.decisions, cmd, user, i)
    && (CurrentQuorum(voted, i).Complete() <==> Completes(d, cmd, i))
  }

  /** The demand after the decisions are appended. */
  lemma VotedIs(d: Demand, user: string, cmd: VoteCommand, i: nat) returns (voted: Demand)
    requires Numerable(d) && InOrder(d, cmd, user, i)
    ensures voted == Recording(d.(version := d.version + 1), user, Ready(i, Asked(d.cycles[i].ballots, cmd)))
    ensures Voted(d, user, cmd, i, voted)
  {
    voted := Recording(d.(version := d.version + 1), user, Ready(i, Asked(d.cycles[i].ballots, cmd)));
    ApprovalsAdd(d, cmd, user, i);
    CompletesExactly(d, cmd, user, i, d.nextId);
  }

  /** The result of the transaction, once the decisions are appended. */
  function Concluded(store: Store, voted: Demand, i: nat, guard: Option<nat>, revision: Option<nat>)
    : Attempt<(Store, Outcome)>
    requires i < |voted.cycles|
  {
    var quorum := CurrentQuorum(voted, i);
    if !quorum.Complete() then Done((store.(demand := voted), Recorded(voted.version, quorum)))
    else if guard.None? then Failed(QuorumGuardMissing)
    else if voted.status != Submitted then Failed(RequestNotSubmitted)
    else if revision.None? then Failed(RevisionMissing)
    else
      Done((store.(demand := Closed(voted, i, Completed, revision).(status := Planned, approvedAt := true),
                   planning := guard.value,
                   materialized := store.materialized +
                     [Materialization(voted.cycles[i].id, guard.value, revision.value)]),
            Finalized(voted.version, quorum, revision.value, guard.value)))
  }

  lemma RecordingLeaves(store: Store, voted: Demand, user: string, cmd: VoteCommand, i: nat)
    requires i < |store.demand.cycles| && Voted(store.demand, user, cmd, i, voted)
    ensures RecordedFrom(store, store.(demand := voted), Recorded(voted.version, CurrentQuorum(voted, i)), cmd, user, i)
  {
  }

  lemma FinalizationIs(store: Store, voted: Demand, user: string, cmd: VoteCommand, i: nat, guard: nat, revision: nat,
      after: Store)
    requires i < |store.demand.cycles| && Voted(store.demand, user, cmd, i, voted)
    requires after ==
             store.(demand := Closed(voted, i, Completed, Some(revision)).(status := Planned, approvedAt := true),
                    planning := guard,
                    materialized := store.materialized + [Materialization(voted.cycles[i].id, guard, revision)])
    ensures FinalizedFrom(store, after, Finalized(voted.version, CurrentQuorum(voted, i), revision, guard), cmd, user,
            i,
                          guard, revision)
  {
  }

  lemma ConcludedLeaves(store: Store, voted: Demand, user: string, cmd: VoteCommand, guard: Option<nat>,
      revision: Option<nat>, i: nat)
    requires InOrder(store.demand, cmd, user, i) && Voted(store.demand, user, cmd, i, voted)
    requires Concluded(store, voted, i, guard, revision).Done?
    ensures var r := Concluded(store, voted, i, guard, revision).value;
            Leaves(store, user, cmd, guard, revision, i, r.0, r.1)
  {
    var r := Concluded(store, voted, i, guard, revision).value;
    if Completes(store.demand, cmd, i) {
      FinalizationIs(store, voted, user, cmd, i, guard.value, revision.value, r.0);
    } else {
      RecordingLeaves(store, voted, user, cmd, i);
    }
  }

  lemma ConcludedFinishes(store: Store, voted: Demand, user: string, cmd: VoteCommand, guard: Option<nat>,
      revision: Option<nat>, i: nat)
    requires store.demand.version == cmd.expectedVersion && InOrder(store.demand, cmd, user, i)
    requires Voted(store.demand, user, cmd, i, voted)
    ensures Finishes(store, user, cmd, guard, revision, Concluded(store, voted, i, guard, revision))
  {
    var r := Concluded(store, voted, i, guard, revision);
    if r.Done? {
      ConcludedLeaves(store, voted, user, cmd, guard, revision, i);
      LeavingFinishes(store, user, cmd, guard, revision, i, r.value.0, r.value.1);
    } else {
      ConcludedFails(store.demand, voted, user, cmd, i);
    }
  }

  lemma LeavingFinishes(store: Store, user: string, cmd: VoteCommand, guard: Option<nat>, revision: Option<nat>, i: nat,
      after: Store, outcome: Outcome)
    requires store.demand.version == cmd.expectedVersion
    requires Leaves(store, user, cmd, guard, revision, i, after, outcome)
    ensures Finishes(store, user, cmd, guard, revision, Done((after, outcome)))
  {
  }

  lemma ConcludedFails(d: Demand, voted: Demand, user: string, cmd: VoteCommand, i: nat)
    requires InOrder(d, cmd, user, i) && Voted(d, user, cmd, i, voted) && CurrentQuorum(voted, i).Complete()
    ensures CompletedBy(d, user, cmd)
  {
  }

  lemma FinishConcludes(store: Store, user: string, cmd: VoteCommand, guard: Option<nat>, revision: Option<nat>,
      i: nat, voted: Demand)
    requires Numerable(store.demand) && store.demand.version == cmd.expectedVersion &&
             InOrder(store.demand, cmd, user, i)
    requires voted == Recording(store.demand.(version := store.demand.version + 1), user,
             Ready(i, Asked(store.demand.cycles[i].ballots, cmd)))
    ensures FinishVote(store, user, cmd, guard, revision) == Concluded(store, voted, i, guard, revision)
  {
    ReadingExactly(store.demand, cmd, user, Done(Ready(i, Asked(store.demand.cycles[i].ballots, cmd))));
    ReadingIgnoresVersion(store.demand, store.demand.(version := store.demand.version + 1), user, cmd);
  }

  lemma ReadyFinishes(store: Store, user: string, cmd: VoteCommand, guard: Option<nat>, revision: Option<nat>, i: nat)
    requires Numerable(store.demand) && store.demand.version == cmd.expectedVersion &&
             InOrder(store.demand, cmd, user, i)
    ensures Finishes(store, user, cmd, guard, revision, FinishVote(store, user, cmd, guard, revision))
  {
    var voted := VotedIs(store.demand, user, cmd, i);
    FinishConcludes(store, user, cmd, guard, revision, i, voted);
    ConcludedFinishes(store, voted, user, cmd, guard, revision, i);
  }

  lemma UnreadFinishes(store: Store, user: string, cmd: VoteCommand, guard: Option<nat>, revision: Option<nat>)
    requires Numerable(store.demand)
    requires store.demand.version == cmd.expectedVersion ==>
               ReadCycle(store.demand, user, cmd).Failed? || ReadCycle(store.demand, user, cmd).value.Stale?
    ensures Finishes(store, user, cmd, guard, revision, FinishVote(store, user, cmd, guard, revision))
  {
    ReadingFinds(store.demand, cmd, user);
    ReadingIgnoresVersion(store.demand, store.demand.(version := store.demand.version + 1), user, cmd);
  }

  /** The transaction of a vote ends so, whatever came between its phases. */
  lemma FinishEnds(store: Store, user: string, cmd: VoteCommand, guard: Option<nat>, revision: Option<nat>)
    requires Numerable(store.demand)
    ensures Finishes(store, user, cmd, guard, revision, FinishVote(store, user, cmd, guard, revision))
  {
    ReadingFinds(store.demand, cmd, user);
    var r := ReadCycle(store.demand, user, cmd);
    if store.demand.version == cmd.expectedVersion && r.Done? && r.value.Ready? {
      ReadyFinishes(store, user, cmd, guard, revision, r.value.cycle);
    } else {
      UnreadFinishes(store, user, cmd, guard, revision);
    }
  }

  // ---------------------------------------------------------------- a vote that nothing interrupts

  /** A closed stale cycle. */
  ghost predicate ClosedFrom(store: Store, after: Store, outcome: Outcome, i: nat)
    requires i < |store.demand.cycles|
  {
    var d := store.demand;
    && after ==
         store.(demand := d.(version := d.version + 1, cycles := d.cycles[i := d.cycles[i].(state := Invalidated)]))
    && outcome == CycleInvalidated(d.version + 1, QuorumOf(d.cycles[i].ballots, d.decisions))
  }

  /** A fit vote in order. */
  ghost predicate InOrderAt(store: Store, actor: Actor, cmd: VoteCommand, i: nat) {
    Fit(store, actor, cmd) && InOrder(store.demand, cmd, actor.id.value, i)
  }

  /** A vote that would complete the quorum. */
  ghost predicate WouldComplete(store: Store, actor: Actor, cmd: VoteCommand) {
    exists i: nat :: InOrderAt(store, actor, cmd, i) && Completes(store.demand, cmd, i)
  }

  /** One that would not. */
  ghost predicate WouldRecord(store: Store, actor: Actor, cmd: VoteCommand) {
    exists i: nat :: InOrderAt(store, actor, cmd, i) && !Completes(store.demand, cmd, i)
  }

  /** One that finds its cycle out of date. */
  ghost predicate WouldClose(store: Store, actor: Actor, cmd: VoteCommand) {
    Fit(store, actor, cmd) && exists i: nat :: OutOfDate(store.demand, cmd, i)
  }

  ghost predicate VoteDone(store: Store, actor: Actor, cmd: VoteCommand, revision: Option<nat>, after: Store,
      outcome: Outcome, i: nat)
    requires actor.id.Some?
  {
    match outcome
    case Recorded(_, _) =>
      && InOrderAt(store, actor, cmd, i) && !Completes(store.demand, cmd, i)
      && RecordedFrom(store, after, outcome, cmd, actor.id.value, i)
    case Finalized(_, _, _, _) =>
      && InOrderAt(store, actor, cmd, i) && Completes(store.demand, cmd, i)
      && PlanningFree(store.planning, cmd.expectedPlanning) && revision.Some?
      && FinalizedFrom(store, after, outcome, cmd, actor.id.value, i, store.planning + 1, revision.value)
    case CycleInvalidated(_, _) =>
      Fit(store, actor, cmd) && OutOfDate(store.demand, cmd, i) && ClosedFrom(store, after, outcome, i)
  }

  /** Why a vote is refused. */
  ghost predicate VoteRefused(store: Store, actor: Actor, cmd: VoteCommand, revision: Option<nat>, e: Refusal) {
    match e
    case PlanningVersionInvalid =>
      WouldComplete(store, actor, cmd) && PlanningRefused(store.planning, cmd.expectedPlanning, e)
    case PlanningVersionConflict =>
      WouldComplete(store, actor, cmd) && PlanningRefused(store.planning, cmd.expectedPlanning, e)
    case DemandVersionConflict =>
      && store.demand.version != cmd.expectedVersion
      && (|| WouldRecord(store, actor, cmd) || WouldClose(store, actor, cmd)
          || (WouldComplete(store, actor, cmd) && PlanningFree(store.planning, cmd.expectedPlanning)))
    case RevisionMissing =>
      && store.demand.version == cmd.expectedVersion && WouldComplete(store, actor, cmd)
      && PlanningFree(store.planning, cmd.expectedPlanning) && revision.None?
    case _ =>
      || Unfit(store, actor, cmd, e)
      || (Fit(store, actor, cmd) && CannotRead(store.demand, cmd, actor.id.value, e))
  }

  /** How a vote ends that nothing interrupts. */
  ghost predicate VoteEnds(store: Store, actor: Actor, cmd: VoteCommand, revision: Option<nat>,
      r: Attempt<(Store, Outcome)>)
  {
    match r
    case Failed(e) => VoteRefused(store, actor, cmd, revision, e)
    case Done((after, outcome)) =>
      && store.demand.version == cmd.expectedVersion && actor.id.Some?
      && exists i: nat :: VoteDone(store, actor, cmd, revision, after, outcome, i)
  }

  lemma StaleVoteEnds(store: Store, actor: Actor, cmd: VoteCommand, revision: Option<nat>)
    requires Numerable(store.demand) && BeginVote(store, actor, cmd) == Done(Close)
    ensures VoteEnds(store, actor, cmd, revision, Vote(store, actor, cmd, revision))
  {
    BeginPlans(store, actor, cmd);
    var d, i := store.demand, ReadCycle(store.demand, actor.id.value, cmd).value.cycle;
    ReadingFinds(d, cmd, actor.id.value);
    var r := Vote(store, actor, cmd, revision);
    if r.Done? {
      assert ClosedFrom(store, r.value.0, r.value.1, i);
      assert VoteDone(store, actor, cmd, revision, r.value.0, r.value.1, i);
    }
  }

  lemma UnfitVoteEnds(store: Store, actor: Actor, cmd: VoteCommand, revision: Option<nat>)
    requires Numerable(store.demand) && BeginVote(store, actor, cmd).Failed?
    ensures VoteEnds(store, actor, cmd, revision, Vote(store, actor, cmd, revision))
  {
    BeginPlans(store, actor, cmd);
  }

  /** An order is the only one. */
  lemma OrderIsOne(d: Demand, cmd: VoteCommand, user: string, i: nat)
    requires InOrder(d, cmd, user, i)
    ensures forall j: nat :: InOrder(d, cmd, user, j) ==> j == i
    ensures forall j: nat :: !OutOfDate(d, cmd, j)
    ensures forall e :: !CannotRead(d, cmd, user, e)
  {
  }

  lemma RecordingVoteEnds(store: Store, actor: Actor, cmd: VoteCommand, revision: Option<nat>, i: nat)
    requires Numerable(store.demand) && InOrderAt(store, actor, cmd, i) && !Completes(store.demand, cmd, i)
    ensures VoteEnds(store, actor, cmd, revision, Vote(store, actor, cmd, revision))
  {
    var user := actor.id.value;
    BeginExactly(store, actor, cmd, Done(Record(false)));
    FinishEnds(store, user, cmd, None, revision);
    OrderIsOne(store.demand, cmd, user, i);
    var r := FinishVote(store, user, cmd, None, revision);
    if r.Done? {
      var j: nat :| Leaves(store, user, cmd, None, revision, j, r.value.0, r.value.1);
      assert VoteDone(store, actor, cmd, revision, r.value.0, r.value.1, i);
    } else {
      assert WouldRecord(store, actor, cmd);
    }
  }

  lemma BlockedVoteEnds(store: Store, actor: Actor, cmd: VoteCommand, revision: Option<nat>)
    requires BeginVote(store, actor, cmd) == Done(Record(true)) && WouldComplete(store, actor, cmd)
    requires !PlanningFree(store.planning, cmd.expectedPlanning)
    ensures VoteEnds(store, actor, cmd, revision, Vote(store, actor, cmd, revision))
  {
    PlanningExactly(store.planning, cmd.expectedPlanning);
  }

  lemma GuardedVoteIs(store: Store, actor: Actor, cmd: VoteCommand, revision: Option<nat>)
    requires BeginVote(store, actor, cmd) == Done(Record(true)) && PlanningFree(store.planning, cmd.expectedPlanning)
    ensures Vote(store, actor, cmd, revision) ==
            FinishVote(store, actor.id.value, cmd, Some(store.planning + 1), revision)
  {
    PlanningExactly(store.planning, cmd.expectedPlanning);
  }

  lemma GuardedVoteEnds(store: Store, actor: Actor, cmd: VoteCommand, revision: Option<nat>, i: nat)
    requires Numerable(store.demand) && InOrderAt(store, actor, cmd, i) && Completes(store.demand, cmd, i)
    requires PlanningFree(store.planning, cmd.expectedPlanning)
    ensures VoteEnds(store, actor, cmd, revision,
                     FinishVote(store, actor.id.value, cmd, Some(store.planning + 1), revision))
  {
    var user, guard := actor.id.value, Some(store.planning + 1);
    FinishEnds(store, user, cmd, guard, revision);
    OrderIsOne(store.demand, cmd, user, i);
    assert WouldComplete(store, actor, cmd);
    var r := FinishVote(store, user, cmd, guard, revision);
    if r.Done? {
      var j: nat :| Leaves(store, user, cmd, guard, revision, j, r.value.0, r.value.1);
      assert VoteDone(store, actor, cmd, revision, r.value.0, r.value.1, i);
    }
  }

  lemma CompletingVoteEnds(store: Store, actor: Actor, cmd: VoteCommand, revision: Option<nat>, i: nat)
    requires Numerable(store.demand) && InOrderAt(store, actor, cmd, i) && Completes(store.demand, cmd, i)
    ensures VoteEnds(store, actor, cmd, revision, Vote(store, actor, cmd, revision))
  {
    BeginExactly(store, actor, cmd, Done(Record(true)));
    if PlanningFree(store.planning, cmd.expectedPlanning) {
      GuardedVoteIs(store, actor, cmd, revision);
      GuardedVoteEnds(store, actor, cmd, revision, i);
    } else {
      BlockedVoteEnds(store, actor, cmd, revision);
    }
  }

  /** A vote that nothing interrupts ends so. */
  lemma VoteEndsSo(store: Store, actor: Actor, cmd: VoteCommand, revision: Option<nat>)
    requires Numerable(store.demand)
    ensures VoteEnds(store, actor, cmd, revision, Vote(store, actor, cmd, revision))
  {
    BeginPlans(store, actor, cmd);
    match BeginVote(store, actor, cmd)
    case Failed(_) => UnfitVoteEnds(store, actor, cmd, revision);
    case Done(Close) => StaleVoteEnds(store, actor, cmd, revision);
    case Done(Record(complete)) =>
      var i: nat :| InOrder(store.demand, cmd, actor.id.value, i) && (complete <==> Completes(store.demand, cmd, i));
      if complete {
        CompletingVoteEnds(store, actor, cmd, revision, i);
      } else {
        RecordingVoteEnds(store, actor, cmd, revision, i);
      }
  }

  /** The planning refuses a vote exactly if it would complete the quorum and expects another version; and a vote that
      finalizes does so under the version after the one it expects. */
  lemma PlanningConflictExactly(store: Store, actor: Actor, cmd: VoteCommand, revision: Option<nat>)
    requires Numerable(store.demand)
    ensures var r := Vote(store, actor, cmd, revision);
            && (r == Failed(PlanningVersionConflict) <==>
                 && WouldComplete(store, actor, cmd) && cmd.expectedPlanning.Some? && cmd.expectedPlanning.value >= 1
                 && cmd.expectedPlanning.value != store.planning)
            && (r.Done? && r.value.1.Finalized? ==>
                 && (cmd.expectedPlanning.Some? ==> cmd.expectedPlanning.value == store.planning)
                 && r.value.0.planning == r.value.1.planningVersion == store.planning + 1)
            && (r.Done? && !r.value.1.Finalized? ==> r.value.0.planning == store.planning)
  {
    VoteEndsSo(store, actor, cmd, revision);
    if i: nat :| InOrderAt(store, actor, cmd, i) && Completes(store.demand, cmd, i) {
      BeginExactly(store, actor, cmd, Done(Record(true)));
    }
  }

  // ---------------------------------------------------------------- a vote on everything

  /** What a user may approve. */
  ghost function His(ballots: seq<Ballot>, user: string): set<nat> {
    set b | b in ballots && user in b.approvers :: b.id
  }

  /** The actor may act, but nothing in the named cycle is his. */
  ghost predicate NothingIsHis(store: Store, actor: Actor, cycleId: nat) {
    MayAct(store, actor) && exists i: nat :: NothingHisIn(store.demand, actor.id.value, cycleId, i)
  }

  ghost predicate NothingHisIn(d: Demand, user: string, cycleId: nat, i: nat) {
    OnlyOpen(d, i) && d.cycles[i].id == cycleId && forall b :: b in d.cycles[i].ballots ==> user !in b.approvers
  }

  /** How the approval of everything eligible ends: as a vote on all that is the actor's. */
  ghost predicate AllEnds(store: Store, actor: Actor, cycleId: nat, expected: int, planning: Option<int>,
      revision: Option<nat>, r: Attempt<(Store, Outcome)>)
  {
    if !MayAct(store, actor) then
      r.Failed? && Unfit(store, actor, VoteCommand(cycleId, expected, {}, {}, true, planning), r.error)
    else if NoneIsOpen(store.demand) then r == Failed(CycleMissing)
    else if TwoAreOpen(store.demand) then r == Failed(MultipleActive)
    else if NothingIsHis(store, actor, cycleId) then r == Failed(ActorNotEligible)
    else exists i: nat :: AllEndsAt(store, actor, cycleId, expected, planning, revision, r, i)
  }

  ghost predicate AllEndsAt(store: Store, actor: Actor, cycleId: nat, expected: int, planning: Option<int>,
      revision: Option<nat>, r: Attempt<(Store, Outcome)>, i: nat)
    requires actor.id.Some?
  {
    && OnlyOpen(store.demand, i)
    && if store.demand.cycles[i].id != cycleId then r == Failed(CycleConflict)
       else
         var his := His(store.demand.cycles[i].ballots, actor.id.value);
         VoteEnds(store, actor, VoteCommand(cycleId, expected, his, {}, true, planning), revision, r)
  }

  lemma OpenIsHis(ballots: seq<Ballot>, user: string)
    ensures OpenTo(ballots, user) == His(ballots, user)
    ensures His(ballots, user) == {} <==> forall b :: b in ballots ==> user !in b.approvers
  {
    forall b | b in ballots && user in b.approvers ensures His(ballots, user) != {} {
      assert b.id in His(ballots, user);
    }
  }

  lemma AllEndsSo(store: Store, actor: Actor, cycleId: nat, expected: int, planning: Option<int>,
      revision: Option<nat>)
    requires Numerable(store.demand)
    ensures AllEnds(store, actor, cycleId, expected, planning, revision,
                    ApproveAllEligible(store, actor, cycleId, expected, planning, revision))
  {
    var d := store.demand;
    ActiveCycleExactly(d);
    InitializationIsNeverRequested(d, cycleId);
    if MayAct(store, actor) && ActiveCycle(d).Done? && ActiveCycle(d).value.Some? {
      var i, user := ActiveCycle(d).value.value, actor.id.value;
      var ballots := d.cycles[i].ballots;
      assert OnlyOpen(d, i);
      OpenIsHis(ballots, user);
      VoteEndsSo(store, actor, VoteCommand(cycleId, expected, His(ballots, user), {}, true, planning), revision);
      assert His(ballots, user) == {} && d.cycles[i].id == cycleId ==> NothingHisIn(d, user, cycleId, i);
      assert d.cycles[i].id != cycleId || His(ballots, user) != {} ==>
        AllEndsAt(store, actor, cycleId, expected, planning, revision,
                  ApproveAllEligible(store, actor, cycleId, expected, planning, revision), i);
    }
  }

  // ---------------------------------------------------------------- the view

  /** A requirement the actor may approve now. */
  ghost predicate OpenNow(d: Demand, activeUsers: set<string>, actor: Actor, i: nat, k: nat)
    requires i < |d.cycles| && k < |d.cycles[i].ballots|
  {
    var b := d.cycles[i].ballots[k];
    && d.cycles[i].state == Open && d.status == Submitted
    && actor.id.Some? && actor.mayApprove && actor.id.value in activeUsers && actor.id.value in b.approvers
    && !Satisfied(b, d.decisions)
  }

  ghost predicate Rising(positions: seq<nat>) {
    forall j, k :: 0 <= j < k < |positions| ==> positions[j] < positions[k]
  }

  /** The view lists these positions of the cycle. */
  ghost predicate Lists(ballots: seq<Ballot>, positions: seq<nat>, ids: seq<nat>, lines: seq<string>) {
    && Rising(positions) && |ids| == |lines| == |positions|
    && forall k :: 0 <= k < |positions| ==>
         && positions[k] < |ballots|
         && ids[k] == ballots[positions[k]].id && lines[k] == ballots[positions[k]].lineId
  }

  /** The cycle shown: the open one, or the latest if none is open. */
  ghost predicate IsShown(d: Demand, i: nat) {
    OnlyOpen(d, i) || (NoneIsOpen(d) && i == |d.cycles| - 1)
  }

  /** The view: the quorum of the cycle shown and, in its order, what the actor may approve now. */
  ghost predicate Views(d: Demand, activeUsers: set<string>, actor: Actor, view: Progress) {
    && IsShown(d, view.cycle)
    && view.quorum == QuorumOf(d.cycles[view.cycle].ballots, d.decisions)
    && exists positions: seq<nat> ::
         && Lists(d.cycles[view.cycle].ballots, positions, view.requirementIds, view.lineIds)
         && forall k: nat :: k < |d.cycles[view.cycle].ballots| ==>
              (k in positions <==> OpenNow(d, activeUsers, actor, view.cycle, k))
  }

  ghost predicate ViewEnds(d: Demand, activeUsers: set<string>, actor: Actor, r: Attempt<Option<Progress>>) {
    match r
    case Failed(e) => e == MultipleActive && TwoAreOpen(d)
    case Done(None) => d.cycles == []
    case Done(Some(view)) => Views(d, activeUsers, actor, view)
  }

  lemma {:induction false} ApprovablePositions(ballots: seq<Ballot>, satisfied: set<nat>, user: string)
    returns (positions: seq<nat>)
    ensures var mine := Approvable(ballots, satisfied, user);
            Lists(ballots, positions, IdsInOrder(mine), LinesInOrder(mine))
    ensures forall k: nat :: k in positions <==>
              k < |ballots| && ballots[k].id !in satisfied && user in ballots[k].approvers
  {
    positions := [];
    if ballots != [] {
      var n := |ballots| - 1;
      var before := ApprovablePositions(ballots[..n], satisfied, user);
      forall k | 0 <= k < |before| ensures before[k] < n { assert before[k] in before; }
      positions := before + if ballots[n].id !in satisfied && user in ballots[n].approvers then [n] else [];
    }
  }

  /** What is not satisfied, when identifiers are distinct. */
  lemma UnsatisfiedExactly(ballots: seq<Ballot>, decisions: seq<Decision>, k: nat)
    requires DistinctIds(ballots) && k < |ballots|
    ensures ballots[k].id !in QuorumOf(ballots, decisions).satisfied <==> !Satisfied(ballots[k], decisions)
  {
  }

  lemma NobodyLists(ballots: seq<Ballot>)
    ensures Lists(ballots, [], IdsInOrder([]), LinesInOrder([]))
  {
  }

  lemma AuthorizedExactly(d: Demand, activeUsers: set<string>, actor: Actor, i: nat, k: nat)
    requires i < |d.cycles| && k < |d.cycles[i].ballots| && DistinctIds(d.cycles[i].ballots)
    ensures OpenNow(d, activeUsers, actor, i, k) <==>
              && Authorized(d, activeUsers, actor, i) && actor.id.value in d.cycles[i].ballots[k].approvers
              && d.cycles[i].ballots[k].id !in QuorumOf(d.cycles[i].ballots, d.decisions).satisfied
  {
    UnsatisfiedExactly(d.cycles[i].ballots, d.decisions, k);
    assert d.cycles[i].ballots[k] in d.cycles[i].ballots;
  }

  /** The view ends so. */
  lemma ViewEndsSo(d: Demand, activeUsers: set<string>, actor: Actor)
    requires Numerable(d)
    ensures ViewEnds(d, activeUsers, actor, ProgressView(d, activeUsers, actor))
  {
    ActiveCycleExactly(d);
    var r := ProgressView(d, activeUsers, actor);
    if r.Done? && r.value.Some? {
      var i := r.value.value.cycle;
      var ballots := d.cycles[i].ballots;
      assert IsShown(d, i);
      forall k: nat | k < |ballots| ensures OpenNow(d, activeUsers, actor, i, k) <==>
              && Authorized(d, activeUsers, actor, i) && actor.id.value in ballots[k].approvers
              && ballots[k].id !in QuorumOf(ballots, d.decisions).satisfied
      {
        AuthorizedExactly(d, activeUsers, actor, i, k);
      }
      var positions: seq<nat> := [];
      if Authorized(d, activeUsers, actor, i) {
        positions := ApprovablePositions(ballots, QuorumOf(ballots, d.decisions).satisfied, actor.id.value);
      } else {
        NobodyLists(ballots);
      }
      assert Lists(ballots, positions, r.value.value.requirementIds, r.value.value.lineIds);
    }
  }
}
