/** The runs of a new demand that reach the races: whatever its directory and its subject, as long as it can be
    submitted, and a directory and subjects with which it can (app/application/demand_service.py,
    app/application/approval_voting.py, app/infrastructure/sql/demand_repository.py). */
module ApprovalScenarios {
  import opened Options
  import opened ApprovalRouting
  import opened ApprovalCycles
  import opened ApprovalVoting
  import opened ApprovalProgress
  import opened ApprovalLifecycle
  import opened ApprovalRuns
  import opened ApprovalFaults
  import opened ApprovalOrder
  import opened ApprovalRaces

  // ---------------------------------------------------------------- runs as traces

  /** The worlds of a run, one before each step and one at the end. */
  ghost predicate Trace(worlds: seq<World>, steps: seq<Step>) {
    |worlds| == |steps| + 1 && forall k {:trigger steps[k]} :: 0 <= k < |steps| ==>
        worlds[k + 1] == Next(worlds[k], steps[k])
  }

  ghost predicate OrderlyTrace(worlds: seq<World>, steps: seq<Step>)
    requires |worlds| == |steps| + 1
  {
    forall k {:trigger steps[k]} :: 0 <= k < |steps| ==> Orderly(worlds[k], steps[k])
  }

  /** A run leads from one world to another, and an orderly one if that is asked for. */
  ghost predicate Leads(w: World, a: World, orderly: bool) {
    exists worlds, steps :: Trace(worlds, steps) && worlds[0] == w && worlds[|steps|] == a &&
        (orderly ==> OrderlyTrace(worlds, steps))
  }

  lemma {:induction false} TraceIsARun(worlds: seq<World>, steps: seq<Step>)
    requires Trace(worlds, steps)
    ensures After(worlds[0], steps) == worlds[|steps|]
    ensures OrderlyTrace(worlds, steps) ==> OrderlyRun(worlds[0], steps)
    decreases |steps|
  {
    if steps != [] {
      var n := |steps| - 1;
      var before, worldsBefore := steps[..n], worlds[..n + 1];
      assert forall k :: 0 <= k < n ==> before[k] == steps[k];
      TraceIsARun(worldsBefore, before);
      assert worlds[n + 1] == Next(worlds[n], steps[n]);
      assert OrderlyTrace(worlds, steps) ==> Orderly(worlds[n], steps[n]);
    }
  }

  lemma RunOf(w: World, a: World, orderly: bool) returns (steps: seq<Step>)
    requires Leads(w, a, orderly)
    ensures After(w, steps) == a && (orderly ==> OrderlyRun(w, steps))
  {
    var worlds;
    worlds, steps :| Trace(worlds, steps) && worlds[0] == w && worlds[|steps|] == a &&
        (orderly ==> OrderlyTrace(worlds, steps));
    TraceIsARun(worlds, steps);
  }

  lemma Standstill(w: World, orderly: bool)
    ensures Leads(w, w, orderly)
  {
    var steps: seq<Step> := [];
    assert Trace([w], steps) && OrderlyTrace([w], steps);
  }

  lemma Onwards(w: World, a: World, step: Step, b: World, orderly: bool)
    requires Leads(w, a, orderly) && Next(a, step) == b && (orderly ==> Orderly(a, step))
    ensures Leads(w, b, orderly)
  {
    var worlds, steps :| Trace(worlds, steps) && worlds[0] == w && worlds[|steps|] == a &&
        (orderly ==> OrderlyTrace(worlds, steps));
    TraceExtends(worlds, steps, step, b, orderly);
  }

  lemma TraceExtends(worlds: seq<World>, steps: seq<Step>, step: Step, b: World, orderly: bool)
    requires Trace(worlds, steps) && Next(worlds[|steps|], step) == b
    requires orderly ==> OrderlyTrace(worlds, steps) && Orderly(worlds[|steps|], step)
    ensures Trace(worlds + [b], steps + [step]) && (orderly ==> OrderlyTrace(worlds + [b], steps + [step]))
  {
    var longer, more := worlds + [b], steps + [step];
    forall k | 0 <= k < |more|
      ensures longer[k + 1] == Next(longer[k], more[k]) && (orderly ==> Orderly(longer[k], more[k]))
    {
      if k < |steps| { assert more[k] == steps[k] && longer[k] == worlds[k] && longer[k + 1] == worlds[k + 1]; }
    }
  }

  lemma {:induction false} OnwardsBy(w: World, a: World, steps: seq<Step>)
    requires Leads(w, a, false)
    ensures Leads(w, After(a, steps), false)
    decreases |steps|
  {
    if steps != [] {
      OnwardsBy(w, a, steps[..|steps| - 1]);
      Onwards(w, After(a, steps[..|steps| - 1]), steps[|steps| - 1], After(a, steps), false);
    }
  }

  lemma ReachedIsSafe(w: World, a: World, orderly: bool)
    requires IsNew(w) && Leads(w, a, orderly)
    ensures Safe(a)
  {
    var steps := RunOf(w, a, orderly);
    NewDemandIsSafe(w);
    RunsAreSafe(w, steps);
  }

  // ---------------------------------------------------------------- single steps

  /** The world of a run with its demand and its sessions. */
  function At(w: World, d: Demand, sessions: map<nat, Session>): World {
    w.(store := w.store.(demand := d), sessions := sessions)
  }

  lemma StepRead(w: World, d: Demand, m: map<nat, Session>, s: nat, c: Command, orderly: bool)
    requires Leads(w, At(w, d, m), orderly) && s !in m && Refusing(d, c).None? && !Idle(c)
    ensures Leads(w, At(w, d, m[s := Editing(c, d, d, false, None)]), orderly)
  {
    Onwards(w, At(w, d, m), Read(s, c), At(w, d, m[s := Editing(c, d, d, false, None)]), orderly);
  }

  lemma StepReload(w: World, d: Demand, m: map<nat, Session>, s: nat, x: Session, y: Session, orderly: bool)
    requires Leads(w, At(w, d, m), orderly) && s in m && m[s] == x && x.Editing? && !x.command.OverrideContact?
    requires y == Editing(x.command, x.read, d, x.stale, None)
    ensures Leads(w, At(w, d, m[s := y]), orderly)
  {
    Onwards(w, At(w, d, m), Reload(s), At(w, d, m[s := y]), orderly);
  }

  lemma StepLook(w: World, d: Demand, m: map<nat, Session>, s: nat, x: Session, orderly: bool)
    requires Leads(w, At(w, d, m), orderly) && s in m && Looked(m[s], d) == x
    ensures Leads(w, At(w, d, m[s := x]), orderly)
  {
    Onwards(w, At(w, d, m), Look(s), At(w, d, m[s := x]), orderly);
  }

  lemma StepDrift(w: World, d: Demand, m: map<nat, Session>, subject: Subject, orderly: bool)
    requires Leads(w, At(w, d, m), orderly)
    ensures Leads(w, At(w, d.(subject := subject), m), orderly)
  {
    Onwards(w, At(w, d, m), Drift(w.dir, subject, w.store.activeUsers), At(w, d.(subject := subject), m), orderly);
  }

  lemma StepBegin(w: World, d: Demand, m: map<nat, Session>, s: nat, x: Actor, cmd: VoteCommand, orderly: bool)
    requires Leads(w, At(w, d, m), orderly) && s !in m && BeginVote(w.store.(demand := d), x, cmd).Done?
    ensures Leads(w, At(w, d, m[s := Begun(w.store.(demand := d), x, cmd)]), orderly)
  {
    Onwards(w, At(w, d, m), Begin(s, x, cmd), At(w, d, m[s := Begun(w.store.(demand := d), x, cmd)]), orderly);
  }

  lemma WriteReplaces(w: World, s: nat, r: Attempt<Demand>)
    requires s in w.sessions && MayWrite(w.sessions[s]) && w.holder == None
    requires Written(w.dir, w.store.demand, w.sessions[s], true) == r && r.Done?
    ensures WriteSession(w, s, true) == w.(store := w.store.(demand := r.value), sessions := w.sessions - {s})
  {
    var out := WithoutSession(w, s);
    assert out == w.(sessions := w.sessions - {s});
    assert WriteSession(w, s, true) == out.(store := w.store.(demand := r.value));
  }

  /** A command whose writing follows its reading at once. */
  lemma StepCommand(w: World, d: Demand, m: map<nat, Session>, s: nat, c: Command, e: Demand, orderly: bool)
    requires Leads(w, At(w, d, m), orderly) && s !in m && w.holder == None
    requires Refusing(d, c).None? && !Idle(c) && !c.SelectAlternative? && Run(w.dir, d, c) == Done(e)
    ensures Leads(w, At(w, e, m), orderly)
  {
    var held := At(w, d, m[s := Editing(c, d, d, false, None)]);
    StepRead(w, d, m, s, c, orderly);
    FreshWriting(w.dir, d, c, true);
    WriteReplaces(held, s, Done(e));
    assert m[s := Editing(c, d, d, false, None)] - {s} == m;
    Onwards(w, held, Write(s, true), At(w, e, m), orderly);
  }

  // ---------------------------------------------------------------- the commands of the scenarios

  /** A submission of a demand without an open cycle. */
  function SubmittedAs(d: Demand, subject: Subject, snapshot: Snapshot): Demand {
    Opened(d.(version := d.version + 1, status := Submitted, subject := subject), snapshot)
  }

  lemma OpenedIsActive(d: Demand, snapshot: Snapshot)
    requires ActiveCycle(d) == Done(None)
    ensures ActiveCycle(Opened(d, snapshot)) == Done(Some(|d.cycles|))
  {
    ActiveCycleExactly(d);
    ActiveIsLast(Opened(d, snapshot));
  }

  lemma SubmissionOpens(dir: Directory, u: Demand, snapshot: Snapshot)
    requires u.status == Submitted && ActiveCycle(u) == Done(None) && NewCycle(dir, u.subject) == Ok(snapshot)
    ensures InitializeAfterSubmission(dir, u) == Done(Opened(u, snapshot))
  {
  }

  lemma SubmissionIsOpening(dir: Directory, d: Demand, c: Command, u: Demand)
    requires c.Submit? && c.permitted && c.expected.None? && d.status in {Draft, ToCorrect}
    requires u == d.(version := d.version + 1, status := Submitted, subject := c.subject)
    ensures Refusing(d, c).None? && Run(dir, d, c) == InitializeAfterSubmission(dir, u)
  {
    assert Flushed(d, d, c, Effect(Some(Submitted), false, OpenHook)) == u;
  }

  lemma SubmissionIs(dir: Directory, d: Demand, subject: Subject, snapshot: Snapshot)
    requires d.status in {Draft, ToCorrect} && ActiveCycle(d) == Done(None) && NewCycle(dir, subject) == Ok(snapshot)
    ensures Run(dir, d, Submit(true, None, subject)) == Done(SubmittedAs(d, subject, snapshot))
    ensures ActiveCycle(SubmittedAs(d, subject, snapshot)) == Done(Some(|d.cycles|))
  {
    var u := d.(version := d.version + 1, status := Submitted, subject := subject);
    SubmissionIsOpening(dir, d, Submit(true, None, subject), u);
    assert ActiveCycle(u) == ActiveCycle(d);
    SubmissionOpens(dir, u, snapshot);
    OpenedIsActive(u, snapshot);
  }

  lemma StepSubmit(w: World, d: Demand, m: map<nat, Session>, s: nat, subject: Subject, snapshot: Snapshot,
      orderly: bool) returns (e: Demand)
    requires Leads(w, At(w, d, m), orderly) && s !in m && w.holder == None
    requires d.status in {Draft, ToCorrect} && ActiveCycle(d) == Done(None) && NewCycle(w.dir, subject) == Ok(snapshot)
    ensures Leads(w, At(w, e, m), orderly) && e == SubmittedAs(d, subject, snapshot)
    ensures ActiveCycle(e) == Done(Some(|d.cycles|))
  {
    e := SubmittedAs(d, subject, snapshot);
    SubmissionIs(w.dir, d, subject, snapshot);
    StepCommand(w, d, m, s, Submit(true, None, subject), e, orderly);
  }

  /** A demand whose active cycle was closed, if there was one, and that was given a status. */
  ghost predicate IsWithdrawn(d: Demand, e: Demand, status: Status) {
    && ActiveCycle(e) == Done(None) && e.status == status && e.subject == d.subject && |e.cycles| == |d.cycles|
    && e.version == d.version + (if ActiveCycle(d) == Done(None) then 1 else 2)
  }

  predicate Withdraws(d: Demand, c: Command, status: Status) {
    || (c == Correct(true, None, true) && status == ToCorrect)
    || (c == RequestCancellation(true, Some(d.version), true) && status == Submitted)
  }

  lemma InvalidationWithdraws(d: Demand, flushed: Demand, status: Status) returns (e: Demand)
    requires Coherent(d) && ActiveCycle(d).Done? && flushed == d.(version := d.version + 1, status := status)
    ensures InvalidateCycle(flushed, flushed.version) == Done(e) && IsWithdrawn(d, e, status)
  {
    assert ActiveCycle(flushed) == ActiveCycle(d);
    InvalidatingKeeps(flushed);
    e := InvalidateCycle(flushed, flushed.version).value;
  }

  lemma WithdrawalIs(dir: Directory, d: Demand, c: Command, status: Status) returns (e: Demand)
    requires Coherent(d) && d.status == Submitted && ActiveCycle(d).Done? && Withdraws(d, c, status)
    ensures Refusing(d, c).None? && Run(dir, d, c) == Done(e) && IsWithdrawn(d, e, status)
  {
    var flushed := d.(version := d.version + 1, status := status);
    e := InvalidationWithdraws(d, flushed, status);
    assert Flushed(d, d, c, EffectOf(c, d.status).value) == flushed;
  }

  lemma StepWithdraw(w: World, d: Demand, m: map<nat, Session>, s: nat, c: Command, status: Status, orderly: bool)
    returns (e: Demand)
    requires IsNew(w) && Leads(w, At(w, d, m), orderly) && s !in m
    requires d.status == Submitted && ActiveCycle(d).Done? && Withdraws(d, c, status)
    ensures Leads(w, At(w, e, m), orderly) && IsWithdrawn(d, e, status)
  {
    ReachedIsSafe(w, At(w, d, m), orderly);
    e := WithdrawalIs(w.dir, d, c, status);
    StepCommand(w, d, m, s, c, e, orderly);
  }

  lemma TouchUpIs(dir: Directory, d: Demand)
    requires d.status == Submitted
    ensures Refusing(d, TouchUp(d)).None? && Run(dir, d, TouchUp(d)) == Done(d.(version := d.version + 1))
  {
    assert Flushed(d, d, TouchUp(d), PLAIN) == d.(version := d.version + 1);
  }

  lemma StepTouchUp(w: World, d: Demand, m: map<nat, Session>, s: nat, orderly: bool) returns (e: Demand)
    requires Leads(w, At(w, d, m), orderly) && s !in m && w.holder == None && d.status == Submitted
    ensures e == d.(version := d.version + 1) && ActiveCycle(e) == ActiveCycle(d) && Leads(w, At(w, e, m), orderly)
  {
    e := d.(version := d.version + 1);
    TouchUpIs(w.dir, d);
    StepCommand(w, d, m, s, TouchUp(d), e, orderly);
  }

  // ---------------------------------------------------------------- a new demand that can be submitted

  ghost predicate Submittable(w: World, subject: Subject, snapshot: Snapshot) {
    IsNew(w) && w.store.demand.status == Draft && NewCycle(w.dir, subject) == Ok(snapshot)
  }

  /** Its first state with a cycle. */
  ghost predicate IsFirst(d: Demand, subject: Subject, snapshot: Snapshot) {
    && d.status == Submitted && d.subject == subject && d.version >= 1 && d.decisions == []
    && ActiveCycle(d) == Done(Some(0)) && |d.cycles| == 1 && d.cycles[0].snapshot == snapshot
    && d.cycles[0].ballots == Ballots(snapshot.requirements, d.cycles[0].id + 1)
  }

  lemma FirstIs(draft: Demand, subject: Subject, snapshot: Snapshot)
    requires draft.cycles == [] && draft.decisions == [] && draft.version >= 1
    requires ActiveCycle(SubmittedAs(draft, subject, snapshot)) == Done(Some(0))
    ensures IsFirst(SubmittedAs(draft, subject, snapshot), subject, snapshot)
  {
  }

  lemma DraftIsAt(w: World) returns (draft: Demand)
    requires IsNew(w)
    ensures draft == w.store.demand && At(w, draft, map[]) == w && ActiveCycle(draft) == Done(None)
  {
    draft := w.store.demand;
  }

  lemma Submission(w: World, subject: Subject, snapshot: Snapshot, orderly: bool) returns (d: Demand)
    requires Submittable(w, subject, snapshot)
    ensures Leads(w, At(w, d, map[]), orderly) && IsFirst(d, subject, snapshot)
  {
    var draft := DraftIsAt(w);
    Standstill(w, orderly);
    d := StepSubmit(w, draft, map[], 0, subject, snapshot, orderly);
    FirstIs(draft, subject, snapshot);
  }

  // ---------------------------------------------------------------- two votes

  /** A demand to be submitted with two requirements, each open to an actor. */
  ghost predicate TwoRequirements(w: World, subject: Subject, snapshot: Snapshot, x: Actor, y: Actor) {
    && Submittable(w, subject, snapshot) && Matches(snapshot, subject) && |snapshot.requirements| == 2
    && CheckedActor(w.store.activeUsers, x).Done? && x.id.value in snapshot.requirements[0].approvers
    && CheckedActor(w.store.activeUsers, y).Done? && y.id.value in snapshot.requirements[1].approvers
  }

  lemma TwoAreLeft(store: Store, subject: Subject, snapshot: Snapshot, x: Actor, y: Actor)
    returns (p: Ballot, q: Ballot)
    requires IsFirst(store.demand, subject, snapshot) && Matches(snapshot, subject) && |snapshot.requirements| == 2
    requires CheckedActor(store.activeUsers, x).Done? && x.id.value in snapshot.requirements[0].approvers
    requires CheckedActor(store.activeUsers, y).Done? && y.id.value in snapshot.requirements[1].approvers
    ensures TwoLeft(store, 0, p, q, x, y)
  {
    var ballots := store.demand.cycles[0].ballots;
    p, q := ballots[0], ballots[1];
    forall b | b in ballots ensures !Satisfied(b, store.demand.decisions) && (b == p || b == q) {
    }
  }

  lemma TwoLeftIsReached(w: World, subject: Subject, snapshot: Snapshot, x: Actor, y: Actor)
    returns (d: Demand, p: Ballot, q: Ballot)
    requires TwoRequirements(w, subject, snapshot, x, y)
    ensures Leads(w, At(w, d, map[]), false) && d.version >= 1
    ensures TwoLeft(w.store.(demand := d), 0, p, q, x, y)
  {
    d := Submission(w, subject, snapshot, false);
    p, q := TwoAreLeft(w.store.(demand := d), subject, snapshot, x, y);
  }

  /** A vote that would complete the quorum at the very version it read meets the missing guard. */
  ghost predicate GuardMissing(late: World, revision: Option<nat>) {
    && 0 in late.sessions && MayFinish(late.sessions[0])
    && late.sessions[0].intent.cmd.expectedVersion == late.store.demand.version
    && Conclude(late.store, late.sessions[0], revision) == Failed(QuorumGuardMissing)
  }

  lemma LostVersionFollows(w: World, a: World, p: Ballot, q: Ballot, x: Actor, y: Actor, revision: Option<nat>)
    returns (late: World)
    requires Leads(w, a, false) && TwoLeft(a.store, 0, p, q, x, y) && a.store.demand.version >= 1
    requires a.sessions == map[] && a.holder == None
    ensures Leads(w, late, false) && GuardMissing(late, revision)
    ensures late.sessions[0].intent.cmd.expectedVersion == late.sessions[0].intent.seen.version
  {
    var race := LostVersionMissesTheGuard(a, 0, p, q, x, y, revision);
    OnwardsBy(w, a, race);
    late := After(a, race);
  }

  /** A new demand with two requirements reaches the missing guard at the version the vote read. */
  lemma LostVersionIsReached(w: World, subject: Subject, snapshot: Snapshot, x: Actor, y: Actor, revision: Option<nat>)
    returns (steps: seq<Step>)
    requires TwoRequirements(w, subject, snapshot, x, y)
    ensures var late := After(w, steps);
            && GuardMissing(late, revision)
            && late.sessions[0].intent.cmd.expectedVersion == late.sessions[0].intent.seen.version
  {
    var d, p, q := TwoLeftIsReached(w, subject, snapshot, x, y);
    var late := LostVersionFollows(w, At(w, d, map[]), p, q, x, y, revision);
    steps := RunOf(w, late, false);
  }

  lemma FirstVoteIsRead(w: World, d: Demand, p: Ballot, q: Ballot, x: Actor, y: Actor) returns (one: World)
    requires Leads(w, At(w, d, map[]), false) && TwoLeft(w.store.(demand := d), 0, p, q, x, y) && d.version >= 1
    ensures Leads(w, one, false)
    ensures one == At(w, d, map[0 := Racing(x.id.value, d, 0, p, d.version + 1)])
  {
    one := At(w, d, map[0 := Racing(x.id.value, d, 0, p, d.version + 1)]);
    SingleVoteBegins(At(w, d, map[]), 0, x, 0, p, q, y, d.version + 1);
    assert map[][0 := Racing(x.id.value, d, 0, p, d.version + 1)] == one.sessions;
    Onwards(w, At(w, d, map[]), Begin(0, x, SingleVote(d, 0, p.id, d.version + 1, None)), one, false);
  }

  lemma SecondVoteIsRead(w: World, d: Demand, m: map<nat, Session>, p: Ballot, q: Ballot, x: Actor, y: Actor)
    returns (both: World)
    requires Leads(w, At(w, d, m), false) && TwoLeft(w.store.(demand := d), 0, p, q, x, y) && d.version >= 1 && 1 !in m
    ensures Leads(w, both, false)
    ensures both == At(w, d, m[1 := Racing(y.id.value, d, 0, q, d.version)])
  {
    both := At(w, d, m[1 := Racing(y.id.value, d, 0, q, d.version)]);
    Symmetric(w.store.(demand := d), 0, p, q, x, y);
    SingleVoteBegins(At(w, d, m), 1, y, 0, q, p, x, d.version);
    Onwards(w, At(w, d, m), Begin(1, y, SingleVote(d, 0, q.id, d.version, None)), both, false);
  }

  /** Two votes read one version: the first expects the next one, the second this one. */
  ghost predicate BothRacing(both: World, p: Ballot, q: Ballot, x: Actor, y: Actor) {
    && TwoLeft(both.store, 0, p, q, x, y) && both.store.demand.version >= 1 && both.holder == None
    && var d := both.store.demand;
       && 0 in both.sessions && both.sessions[0] == Racing(x.id.value, d, 0, p, d.version + 1)
       && 1 in both.sessions && both.sessions[1] == Racing(y.id.value, d, 0, q, d.version)
  }

  lemma BothAreRead(w: World, d: Demand, p: Ballot, q: Ballot, x: Actor, y: Actor) returns (both: World)
    requires Leads(w, At(w, d, map[]), false) && TwoLeft(w.store.(demand := d), 0, p, q, x, y) && d.version >= 1
    requires w.holder == None
    ensures Leads(w, both, false) && BothRacing(both, p, q, x, y)
  {
    var one := FirstVoteIsRead(w, d, p, q, x, y);
    both := SecondVoteIsRead(w, d, one.sessions, p, q, x, y);
  }

  lemma FutureVersionFollows(w: World, both: World, p: Ballot, q: Ballot, x: Actor, y: Actor, revision: Option<nat>)
    returns (late: World)
    requires Leads(w, both, false) && BothRacing(both, p, q, x, y)
    ensures Leads(w, late, false) && GuardMissing(late, revision)
    ensures late.sessions[0].intent.cmd.expectedVersion == late.sessions[0].intent.seen.version + 1
  {
    FutureVersionMissesTheGuard(both, 0, p, q, x, y, revision);
    late := FinishSession(both, 1, None);
    Onwards(w, both, Finish(1, None), late, false);
  }

  /** And at a version that came after the reading. */
  lemma FutureVersionIsReached(w: World, subject: Subject, snapshot: Snapshot, x: Actor, y: Actor,
      revision: Option<nat>)
    returns (steps: seq<Step>)
    requires TwoRequirements(w, subject, snapshot, x, y)
    ensures var late := After(w, steps);
            && GuardMissing(late, revision)
            && late.sessions[0].intent.cmd.expectedVersion == late.sessions[0].intent.seen.version + 1
  {
    var d, p, q := TwoLeftIsReached(w, subject, snapshot, x, y);
    var both := BothAreRead(w, d, p, q, x, y);
    var late := FutureVersionFollows(w, both, p, q, x, y, revision);
    steps := RunOf(w, late, false);
  }

  // ---------------------------------------------------------------- a stale submission

  lemma StepWrite(w: World, a: World, s: nat, b: World)
    requires Leads(w, a, false) && WriteSession(a, s, true) == b
    ensures Leads(w, b, false)
  {
    Onwards(w, a, Write(s, true), b, false);
  }

  /** A submission reads a draft. */
  lemma SubmissionIsHeld(w: World, subject: Subject) returns (draft: Demand, m: map<nat, Session>)
    requires IsNew(w) && w.store.demand.status == Draft
    ensures Leads(w, At(w, draft, m), false) && draft == w.store.demand && ActiveCycle(draft) == Done(None)
    ensures m == map[0 := Editing(Submit(true, None, subject), draft, draft, false, None)]
  {
    draft := DraftIsAt(w);
    Standstill(w, false);
    StepRead(w, draft, map[], 0, Submit(true, None, subject), false);
    m := map[0 := Editing(Submit(true, None, subject), draft, draft, false, None)];
    assert map[][0 := m[0]] == m;
  }

  /** The demand is submitted, the row is read again, and the demand is returned for correction. */
  lemma SubmissionTurnsStale(w: World, subject: Subject, snapshot: Snapshot) returns (returned: Demand, x: Session)
    requires Submittable(w, subject, snapshot)
    ensures Leads(w, At(w, returned, map[0 := x]), false)
    ensures x.Editing? && x.command == Submit(true, None, subject) && x.row.status == Submitted
    ensures returned.status == ToCorrect && ActiveCycle(returned) == Done(None) && |returned.cycles| == 1
  {
    var draft, m := SubmissionIsHeld(w, subject);
    var first := StepSubmit(w, draft, m, 1, subject, snapshot, false);
    returned, x := SubmissionIsReloaded(w, Submit(true, None, subject), draft, first);
  }

  lemma SubmissionIsReloaded(w: World, c: Command, draft: Demand, first: Demand) returns (returned: Demand, x: Session)
    requires IsNew(w) && Leads(w, At(w, first, map[0 := Editing(c, draft, draft, false, None)]), false) && c.Submit?
    requires first.status == Submitted && ActiveCycle(first).Done?
    ensures Leads(w, At(w, returned, map[0 := x]), false) && x == Editing(c, draft, first, false, None)
    ensures returned.status == ToCorrect && ActiveCycle(returned) == Done(None) && |returned.cycles| == |first.cycles|
  {
    var held := Editing(c, draft, draft, false, None);
    x := Editing(c, draft, first, false, None);
    StepReload(w, first, map[0 := held], 0, held, x, false);
    assert map[0 := held][0 := x] == map[0 := x];
    returned := StepWithdraw(w, first, map[0 := x], 2, Correct(true, None, true), ToCorrect, false);
  }

  lemma OpenUnsubmitted(d: Demand)
    requires ActiveCycle(d).Done? && ActiveCycle(d).value.Some? && d.status != Submitted
    ensures !OpenIsSubmitted(d)
  {
    assert d.cycles[ActiveCycle(d).value.value].state == Open;
  }

  /** Then the submission opens a cycle on the demand to be corrected. */
  lemma StaleSubmissionIsReached(w: World, subject: Subject, snapshot: Snapshot) returns (steps: seq<Step>)
    requires Submittable(w, subject, snapshot)
    ensures var late := After(w, steps).store.demand;
            late.status == ToCorrect && ActiveCycle(late) == Done(Some(1)) && !OpenIsSubmitted(late)
  {
    var returned, x := SubmissionTurnsStale(w, subject, snapshot);
    var late := StaleSubmissionFollows(w, At(w, returned, map[0 := x]));
    steps := RunOf(w, late, false);
  }

  lemma StaleSubmissionFollows(w: World, a: World) returns (late: World)
    requires IsNew(w) && Leads(w, a, false) && 0 in a.sessions && a.sessions[0].Editing? &&
             a.sessions[0].command.Submit?
    requires a.sessions[0].row.status == Submitted && a.store.demand.status == ToCorrect
    requires ActiveCycle(a.store.demand) == Done(None) && NewCycle(a.dir, a.sessions[0].command.subject).Ok?
    ensures Leads(w, late, false) && late.store.demand.status == ToCorrect
    ensures ActiveCycle(late.store.demand) == Done(Some(|a.store.demand.cycles|)) && !OpenIsSubmitted(late.store.demand)
  {
    ReachedIsSafe(w, a, false);
    StaleSubmissionOpensACycle(a, 0);
    late := WriteSession(a, 0, true);
    OpenUnsubmitted(late.store.demand);
    StepWrite(w, a, 0, late);
  }

  // ---------------------------------------------------------------- a late opening

  lemma CycleIsOutdated(d: Demand, other: Subject, c: Command)
    requires d.status == Submitted && ActiveCycle(d) == Done(Some(0)) && !Matches(d.cycles[0].snapshot, other)
    requires c == SelectAlternative(true, other, true, false)
    ensures Looked(Editing(c, d, d, false, None), d) == Editing(c, d, d, true, Some(d))
  {
  }

  /** A chosen alternative finds its cycle outdated. */
  lemma AlternativeIsHeld(w: World, d: Demand, other: Subject) returns (x: Session)
    requires Leads(w, At(w, d, map[]), false) && d.status == Submitted && ActiveCycle(d) == Done(Some(0))
    requires !Matches(d.cycles[0].snapshot, other)
    ensures Leads(w, At(w, d, map[0 := x]), false)
    ensures x == Editing(SelectAlternative(true, other, true, false), d, d, true, Some(d))
  {
    var c := SelectAlternative(true, other, true, false);
    StepRead(w, d, map[], 0, c, false);
    x := Editing(c, d, d, true, Some(d));
    var m := map[][0 := Editing(c, d, d, false, None)];
    CycleIsOutdated(d, other, c);
    StepLook(w, d, m, 0, x, false);
    assert m[0 := x] == map[0 := x];
  }

  /** A request of cancellation closes the cycle; an edit reads the demand, and another moves its version. */
  lemma CycleIsClosed(w: World, d: Demand, x: Session) returns (free: Demand, moved: Demand)
    requires IsNew(w) && Leads(w, At(w, d, map[0 := x]), false) && d.status == Submitted &&
             ActiveCycle(d) == Done(Some(0))
    ensures Leads(w, At(w, moved, map[0 := x, 4 := Held(free)]), false)
    ensures moved == free.(version := free.version + 1) && free.subject == d.subject && moved.status == Submitted
    ensures ActiveCycle(moved) == Done(None) && |moved.cycles| == |d.cycles|
  {
    free := StepWithdraw(w, d, map[0 := x], 1, RequestCancellation(true, Some(d.version), true), Submitted, false);
    TouchUpIs(w.dir, free);
    StepRead(w, free, map[0 := x], 4, TouchUp(free), false);
    assert map[0 := x][4 := Held(free)] == map[0 := x, 4 := Held(free)];
    moved := StepTouchUp(w, free, map[0 := x, 4 := Held(free)], 5, false);
  }

  /** The alternative reads its row again and finds no cycle. */
  lemma AlternativeLooksAgain(w: World, d: Demand, moved: Demand, e: Session, c: Command) returns (y: Session)
    requires c.SelectAlternative?
    requires Leads(w, At(w, moved, map[0 := Editing(c, d, d, true, Some(d)), 4 := e]), false)
    ensures Leads(w, At(w, moved, map[0 := y, 4 := e]), false) && y == Editing(c, d, moved, true, Some(moved))
  {
    y := Editing(c, d, moved, true, Some(moved));
    var found, again := Editing(c, d, d, true, Some(d)), Editing(c, d, moved, true, None);
    var m := map[0 := found, 4 := e];
    StepReload(w, moved, m, 0, found, again, false);
    StepLook(w, moved, m[0 := again], 0, y, false);
    assert m[0 := again][0 := y] == map[0 := y, 4 := e];
  }

  /** The demand is returned and submitted again, and the edit writes its old version back. */
  lemma VersionReturns(w: World, moved: Demand, free: Demand, y: Session, snapshot: Snapshot) returns (last: Demand)
    requires IsNew(w) && Leads(w, At(w, moved, map[0 := y, 4 := Held(free)]), false)
    requires moved.status == Submitted && ActiveCycle(moved) == Done(None) && |moved.cycles| == 1
    requires moved == free.(version := free.version + 1) && NewCycle(w.dir, moved.subject) == Ok(snapshot)
    ensures Leads(w, At(w, last, map[0 := y]), false)
    ensures ActiveCycle(last) == Done(Some(1)) && last.version == moved.version
  {
    var m := map[0 := y, 4 := Held(free)];
    var returned := StepWithdraw(w, moved, m, 2, Correct(true, None, true), ToCorrect, false);
    var again := StepSubmit(w, returned, m, 3, moved.subject, snapshot, false);
    last := VersionIsBack(w, again, free, y);
  }

  lemma VersionIsBack(w: World, d: Demand, free: Demand, y: Session) returns (e: Demand)
    requires Leads(w, At(w, d, map[0 := y, 4 := Held(free)]), false) && w.holder == None && free.subject == d.subject
    ensures Leads(w, At(w, e, map[0 := y]), false)
    ensures e == d.(version := free.version + 1) && ActiveCycle(e) == ActiveCycle(d)
  {
    var held := At(w, d, map[0 := y, 4 := Held(free)]);
    e := d.(version := free.version + 1);
    TouchUpWrites(held, 4, free, true);
    assert held.sessions - {4} == map[0 := y];
    StepWrite(w, held, 4, At(w, e, map[0 := y]));
  }

  lemma SecondOpeningFollows(w: World, a: World) returns (late: World)
    requires Leads(w, a, false) && 0 in a.sessions && Overtaken(a.sessions[0], a.store.demand)
    requires a.sessions[0].row.status == Submitted && a.sessions[0].row.version == a.store.demand.version
    requires ActiveCycle(a.store.demand) == Done(Some(1)) && NewCycle(a.dir, a.sessions[0].command.subject).Ok?
    ensures Leads(w, late, false) && ActiveCycle(late.store.demand) == Failed(MultipleActive)
  {
    LateOpeningOpensTwo(a, 0, 1, true);
    late := WriteSession(a, 0, true);
    StepWrite(w, a, 0, late);
  }

  /** Then the alternative opens a second cycle: the demand can no longer be approved. */
  lemma SecondOpeningIsReached(w: World, subject: Subject, snapshot: Snapshot, other: Subject)
    returns (steps: seq<Step>)
    requires Submittable(w, subject, snapshot) && !Matches(snapshot, other) && NewCycle(w.dir, other).Ok?
    ensures ActiveCycle(After(w, steps).store.demand) == Failed(MultipleActive)
  {
    var d := Submission(w, subject, snapshot, false);
    var x := AlternativeIsHeld(w, d, other);
    var free, moved := CycleIsClosed(w, d, x);
    var y := AlternativeLooksAgain(w, d, moved, Held(free), x.command);
    var last := VersionReturns(w, moved, free, y, snapshot);
    var late := SecondOpeningFollows(w, At(w, last, map[0 := y]));
    steps := RunOf(w, late, false);
  }

  // ---------------------------------------------------------------- a finalization

  /** One requirement is left, open to an actor, and the planning can be acquired. */
  ghost predicate LastLeft(store: Store, b: Ballot, x: Actor) {
    && store.demand.status == Submitted && ActiveCycle(store.demand) == Done(Some(0)) && |store.demand.cycles| == 1
    && store.demand.cycles[0].ballots == [b] && Matches(store.demand.cycles[0].snapshot, store.demand.subject)
    && CheckedActor(store.activeUsers, x).Done? && x.id.value in b.approvers
    && store.demand.version >= 1 && store.planning >= 1
  }

  /** A demand to be submitted with one requirement, open to an actor. */
  ghost predicate OneRequirement(w: World, subject: Subject, snapshot: Snapshot, x: Actor) {
    && Submittable(w, subject, snapshot) && Matches(snapshot, subject) && |snapshot.requirements| == 1
    && CheckedActor(w.store.activeUsers, x).Done? && x.id.value in snapshot.requirements[0].approvers
    && w.store.planning >= 1
  }

  lemma OneIsLeft(store: Store, subject: Subject, snapshot: Snapshot, x: Actor) returns (b: Ballot)
    requires IsFirst(store.demand, subject, snapshot) && Matches(snapshot, subject) && |snapshot.requirements| == 1
    requires CheckedActor(store.activeUsers, x).Done? && x.id.value in snapshot.requirements[0].approvers
    requires store.planning >= 1
    ensures LastLeft(store, b, x)
  {
    b := store.demand.cycles[0].ballots[0];
    assert store.demand.cycles[0].ballots == [b];
  }

  lemma OneLeftIsReached(w: World, subject: Subject, snapshot: Snapshot, x: Actor, orderly: bool)
    returns (d: Demand, b: Ballot)
    requires OneRequirement(w, subject, snapshot, x)
    ensures Leads(w, At(w, d, map[]), orderly) && LastLeft(w.store.(demand := d), b, x)
  {
    d := Submission(w, subject, snapshot, orderly);
    b := OneIsLeft(w.store.(demand := d), subject, snapshot, x);
  }

  lemma LastVoteCompletes(store: Store, b: Ballot, x: Actor)
    requires LastLeft(store, b, x)
    ensures var cmd := SingleVote(store.demand, 0, b.id, store.demand.version, None);
            BeginVote(store, x, cmd) == Done(Record(true))
  {
    SingleVoteReads(store, x, b, store.demand.version, None);
    VotingAddsExactly([b], store.demand.decisions, {b.id}, x.id.value, 0, b);
    AllSatisfiedCompletes([b], store.demand.decisions + Approvals([b], {b.id}, x.id.value, 0));
  }

  /** The last vote, with the planning guard, finalizes. */
  lemma LastVoteFinalizes(store: Store, b: Ballot, x: Actor, revision: nat) returns (held: Session)
    requires LastLeft(store, b, x)
    ensures var cmd := SingleVote(store.demand, 0, b.id, store.demand.version, None);
            && BeginVote(store, x, cmd) == Done(Record(true))
            && held == Begun(store, x, cmd).(guard := Some(store.planning + 1))
    ensures MayFinish(held) && held.intent.plan == Record(true) && Conclude(store, held, Some(revision)).Done?
    ensures Conclude(store, held, Some(revision)).value.1.Finalized?
  {
    var cmd := SingleVote(store.demand, 0, b.id, store.demand.version, None);
    LastVoteCompletes(store, b, x);
    AcceptedReadingSucceeds(store, x, cmd, Some(revision), true);
    VoteByConclusion(store, x, cmd, Some(revision));
    held := Begun(store, x, cmd).(guard := Some(store.planning + 1));
  }

  /** A world in which the session 1 is about to finalize. */
  ghost predicate AboutToFinalize(a: World, revision: nat) {
    && 1 in a.sessions && MayFinish(a.sessions[1]) && a.sessions[1].intent.plan.Record?
    && Conclude(a.store, a.sessions[1], Some(revision)).Done?
    && Conclude(a.store, a.sessions[1], Some(revision)).value.1.Finalized?
  }

  lemma StepGuard(w: World, a: World, x: Session, b: World, orderly: bool)
    requires Leads(w, a, orderly) && 1 in a.sessions && a.sessions[1] == x && WantsGuard(a, 1)
    requires x.intent.cmd.expectedPlanning == None && a.store.planning >= 1
    requires b == a.(holder := Some(1), sessions := a.sessions[1 := x.(guard := Some(a.store.planning + 1))])
    ensures Leads(w, b, orderly)
  {
    Onwards(w, a, Guard(1), b, orderly);
  }

  lemma LastVoteIsGuarded(w: World, d: Demand, m: map<nat, Session>, b: Ballot, x: Actor, revision: nat, orderly: bool)
    returns (a: World)
    requires Leads(w, At(w, d, m), orderly) && LastLeft(w.store.(demand := d), b, x) && 1 !in m && w.holder == None
    ensures Leads(w, a, orderly) && AboutToFinalize(a, revision)
    ensures a.store == w.store.(demand := d) && a.dir == w.dir && a.sessions == m[1 := a.sessions[1]]
  {
    var store := w.store.(demand := d);
    var cmd := SingleVote(d, 0, b.id, d.version, None);
    var held := LastVoteFinalizes(store, b, x, revision);
    StepBegin(w, d, m, 1, x, cmd, orderly);
    a := At(w, d, m[1 := held]).(holder := Some(1));
    StepGuard(w, At(w, d, m[1 := Begun(store, x, cmd)]), Begun(store, x, cmd), a, orderly);
  }

  lemma StepFinalize(w: World, a: World, revision: nat, orderly: bool) returns (planned: World)
    requires IsNew(w) && Leads(w, a, orderly) && AboutToFinalize(a, revision)
    ensures planned == FinishSession(a, 1, Some(revision)) && Leads(w, planned, orderly)
    ensures planned.sessions == a.sessions - {1} && planned.dir == a.dir
    ensures planned.store.demand.status == Planned && ActiveCycle(planned.store.demand) == Done(None)
    ensures planned.store.demand.version == a.store.demand.version + 1
    ensures |planned.store.materialized| == |a.store.materialized| + 1
    ensures forall i :: ActiveCycle(a.store.demand) == Done(Some(i)) ==>
              i < |planned.store.demand.cycles| && planned.store.demand.cycles[i].state == Completed
  {
    ReachedIsSafe(w, a, orderly);
    var store := FinalizationLeaves(a.store, a.sessions[1], Some(revision));
    planned := FinishSession(a, 1, Some(revision));
    Onwards(w, a, Finish(1, Some(revision)), planned, orderly);
  }

  // ---------------------------------------------------------------- a finalization taken back

  const CORRECTION := Correct(true, None, true)

  lemma StepCorrectionRead(w: World, a: World, orderly: bool) returns (b: World)
    requires Leads(w, a, orderly) && 0 !in a.sessions && a.store.demand.status == Submitted
    ensures b == ReadSession(a, 0, CORRECTION) && Leads(w, b, orderly)
    ensures b == a.(sessions := a.sessions[0 := Editing(CORRECTION, a.store.demand, a.store.demand, false, None)])
  {
    b := ReadSession(a, 0, CORRECTION);
    Onwards(w, a, Read(0, CORRECTION), b, orderly);
  }

  lemma FinalizationFollows(w: World, a: World, revision: nat, orderly: bool) returns (planned: World)
    requires IsNew(w) && Leads(w, a, orderly) && AboutToFinalize(a, revision) && 0 !in a.sessions
    requires a.store.demand.status == Submitted && a.store.materialized == []
    ensures planned == FinishSession(ReadSession(a, 0, CORRECTION), 1, Some(revision)) && Leads(w, planned, orderly)
    ensures 0 in planned.sessions
    ensures planned.sessions[0] == Editing(CORRECTION, a.store.demand, a.store.demand, false, None)
    ensures planned.store.demand.status == Planned && |planned.store.materialized| == 1
  {
    var b := StepCorrectionRead(w, a, orderly);
    planned := StepFinalize(w, b, revision, orderly);
  }

  /** What a finalization taken back leaves. */
  ghost predicate TakenBack(w: World, steps: seq<Step>) {
    && steps != [] && After(w, steps[..|steps| - 1]).store.demand.status == Planned
    && After(w, steps).store.demand.status == ToCorrect && |After(w, steps).store.materialized| == 1
  }

  lemma RunTakesBack(w: World, planned: World, orderly: bool) returns (steps: seq<Step>)
    requires Leads(w, planned, orderly) && planned.store.demand.status == Planned
    requires orderly ==> Orderly(planned, Write(0, true))
    requires WriteSession(planned, 0, true).store.demand.status == ToCorrect
    requires |WriteSession(planned, 0, true).store.materialized| == 1
    ensures TakenBack(w, steps) && After(w, steps[..|steps| - 1]) == planned && steps[|steps| - 1] == Write(0, true)
    ensures orderly ==> OrderlyRun(w, steps)
  {
    var before := RunOf(w, planned, orderly);
    steps := before + [Write(0, true)];
    assert steps[..|steps| - 1] == before;
  }

  /** A new demand with one requirement is corrected after it was finalized. */
  lemma CorrectionRaceIsReached(w: World, subject: Subject, snapshot: Snapshot, x: Actor, revision: nat)
    returns (steps: seq<Step>)
    requires OneRequirement(w, subject, snapshot, x)
    ensures TakenBack(w, steps)
  {
    var d, b := OneLeftIsReached(w, subject, snapshot, x, false);
    steps := CorrectionRaceFollows(w, d, b, x, revision);
  }

  lemma CorrectionRaceFollows(w: World, d: Demand, b: Ballot, x: Actor, revision: nat) returns (steps: seq<Step>)
    requires IsNew(w) && Leads(w, At(w, d, map[]), false) && LastLeft(w.store.(demand := d), b, x)
    ensures TakenBack(w, steps)
  {
    var a := LastVoteIsGuarded(w, d, map[], b, x, revision, false);
    ReachedIsSafe(w, a, false);
    var planned := FinalizationFollows(w, a, revision, false);
    CorrectionOverwritesAFinalization(a, CORRECTION, Some(revision), true);
    steps := RunTakesBack(w, planned, false);
  }

  /** Even an orderly run does it, if the session of the correction reads its row again after the finalization; but
      no checked run does. */
  lemma OrderlyRunTakesBack(w: World, subject: Subject, snapshot: Snapshot, x: Actor, revision: nat)
    returns (steps: seq<Step>)
    requires OneRequirement(w, subject, snapshot, x)
    ensures TakenBack(w, steps) && OrderlyRun(w, steps) && !CheckedRun(w, steps)
  {
    var d, b := OneLeftIsReached(w, subject, snapshot, x, true);
    steps := ReloadedCorrectionFollows(w, d, b, x, revision);
  }

  lemma ReloadedCorrectionFollows(w: World, d: Demand, b: Ballot, x: Actor, revision: nat) returns (steps: seq<Step>)
    requires IsNew(w) && Leads(w, At(w, d, map[]), true) && LastLeft(w.store.(demand := d), b, x)
    ensures TakenBack(w, steps) && OrderlyRun(w, steps) && !CheckedRun(w, steps)
  {
    var a := LastVoteIsGuarded(w, d, map[], b, x, revision, true);
    var planned := FinalizationFollows(w, a, revision, true);
    var reloaded := CorrectionReloads(w, planned);
    ReloadedCorrectionWrites(w, reloaded);
    steps := RunTakesBack(w, reloaded, true);
    if CheckedRun(w, steps) { NoFinalizationIsTakenBack(w, steps[..|steps| - 1], 0, true); }
  }

  lemma CorrectionReloads(w: World, planned: World) returns (reloaded: World)
    requires Leads(w, planned, true) && 0 in planned.sessions && planned.sessions[0].Editing?
    requires planned.sessions[0].command == CORRECTION
    ensures Leads(w, reloaded, true) && reloaded.store == planned.store && 0 in reloaded.sessions
    ensures reloaded.sessions[0] ==
              Editing(CORRECTION, planned.sessions[0].read, planned.store.demand, planned.sessions[0].stale, None)
  {
    reloaded := ReloadSession(planned, 0);
    Onwards(w, planned, Reload(0), reloaded, true);
  }

  lemma ReloadedCorrectionWrites(w: World, a: World)
    requires IsNew(w) && Leads(w, a, true) && 0 in a.sessions && a.sessions[0].Editing?
    requires a.sessions[0].command == CORRECTION && a.sessions[0].row == a.store.demand
    ensures WriteSession(a, 0, true).store.demand.status == ToCorrect
    ensures WriteSession(a, 0, true).store.materialized == a.store.materialized
  {
    var steps := RunOf(w, a, true);
    NewDemandIsGood(w);
    OrderlyRunsAreSound(w, steps);
    CorrectionIsTheCommandExactly(a.dir, a.store.demand, a.sessions[0], true);
  }

  // ---------------------------------------------------------------- a late closing

  /** A vote that finds its cycle stale, expecting the version after the one it reads. */
  lemma StaleVoteIsHeld(w: World, d: Demand, b: Ballot, x: Actor, other: Subject) returns (e: Demand, y: Session)
    requires Leads(w, At(w, d, map[]), false) && LastLeft(w.store.(demand := d), b, x)
    requires !Matches(d.cycles[0].snapshot, other)
    ensures Leads(w, At(w, d, map[0 := y]), false) && MayFinish(y) && y.intent.plan.Close?
    ensures y.looked == Some(e) && ActiveCycle(e) == Done(Some(0)) && y.intent.cmd.expectedVersion == d.version + 1
  {
    e := d.(subject := other);
    StepDrift(w, d, map[], other, false);
    y := StaleVoteIsLookedUp(w, e, b, x);
    StepDrift(w, e, map[0 := y], d.subject, false);
    assert e.(subject := d.subject) == d;
  }

  lemma StaleVoteIsLookedUp(w: World, e: Demand, b: Ballot, x: Actor) returns (y: Session)
    requires Leads(w, At(w, e, map[]), false) && ActiveCycle(e) == Done(Some(0)) && e.status == Submitted
    requires |e.cycles| == 1 && e.cycles[0].ballots == [b] && !Matches(e.cycles[0].snapshot, e.subject)
    requires CheckedActor(w.store.activeUsers, x).Done? && e.version >= 1
    ensures Leads(w, At(w, e, map[0 := y]), false) && MayFinish(y) && y.intent.plan.Close?
    ensures y.looked == Some(e) && y.intent.cmd.expectedVersion == e.version + 1
  {
    var cmd := SingleVote(e, 0, b.id, e.version + 1, None);
    SingleVoteReads(w.store.(demand := e), x, b, e.version + 1, None);
    StepBegin(w, e, map[], 0, x, cmd, false);
    var begun := Begun(w.store.(demand := e), x, cmd);
    y := Voting(begun.intent, None, Some(e));
    StepLook(w, e, map[][0 := begun], 0, y, false);
    assert map[][0 := begun][0 := y] == map[0 := y];
  }

  /** A new demand with one requirement is finalized, and then the completed cycle is invalidated. */
  lemma LateClosingIsReached(w: World, subject: Subject, snapshot: Snapshot, x: Actor, other: Subject, revision: nat)
    returns (steps: seq<Step>)
    requires OneRequirement(w, subject, snapshot, x) && !Matches(snapshot, other)
    ensures ClosedAfterAll(w, steps)
  {
    var d := Submission(w, subject, snapshot, false);
    var b := OneIsLeft(w.store.(demand := d), subject, snapshot, x);
    steps := LateClosingFollows(w, d, b, x, other, revision);
  }

  ghost predicate ClosedAfterAll(w: World, steps: seq<Step>) {
    && steps != [] && |After(w, steps[..|steps| - 1]).store.demand.cycles| > 0 &&
         |After(w, steps).store.demand.cycles| > 0
    && After(w, steps[..|steps| - 1]).store.demand.cycles[0].state == Completed
    && After(w, steps).store.demand.cycles[0].state == Invalidated && |After(w, steps).store.materialized| == 1
  }

  lemma LateClosingFollows(w: World, d: Demand, b: Ballot, x: Actor, other: Subject, revision: nat)
    returns (steps: seq<Step>)
    requires IsNew(w) && Leads(w, At(w, d, map[]), false) && LastLeft(w.store.(demand := d), b, x)
    requires !Matches(d.cycles[0].snapshot, other)
    ensures ClosedAfterAll(w, steps)
  {
    var e, y := StaleVoteIsHeld(w, d, b, x, other);
    var a := LastVoteIsGuarded(w, d, map[0 := y], b, x, revision, false);
    var planned := StepFinalize(w, a, revision, false);
    steps := CompletionIsOverwritten(w, planned, y, e);
  }

  lemma CompletionIsOverwritten(w: World, planned: World, y: Session, e: Demand) returns (steps: seq<Step>)
    requires Leads(w, planned, false) && 0 in planned.sessions && planned.sessions[0] == y
    requires MayFinish(y) && y.intent.plan.Close? && y.looked == Some(e) && ActiveCycle(e) == Done(Some(0))
    requires y.intent.cmd.expectedVersion == planned.store.demand.version
    requires |planned.store.demand.cycles| > 0 && planned.store.demand.cycles[0].state == Completed
    requires |planned.store.materialized| == 1
    ensures ClosedAfterAll(w, steps)
  {
    LateClosingOverwritesACompletion(planned, 0, 0, None);
    var before := RunOf(w, planned, false);
    steps := before + [Finish(0, None)];
    assert steps[..|steps| - 1] == before;
  }

  // ---------------------------------------------------------------- one directory and two subjects

  /** A line without a task, routed by its class. */
  function ClassLine(code: string): Line {
    Line(true, "WORKFORCE", None, Some(code), None, None)
  }

  function PlainRow(lineId: string): RoutingRow {
    RoutingRow(lineId, None, [], None, "WORKFORCE", [], None, None)
  }

  function PlainRecord(priority: Option<string>): SubjectRecord {
    SubjectRecord("d", "p", priority, None, None, true, [])
  }

  function OneLine(priority: Option<string>): Subject {
    Subject(PlainRecord(priority), ["l"], [PlainRow("l")], map["l" := ClassLine("A")])
  }

  function TwoLines(): Subject {
    Subject(PlainRecord(None), ["l", "m"], [PlainRow("l"), PlainRow("m")],
            map["l" := ClassLine("A"), "m" := ClassLine("B")])
  }

  lemma ClassLineIsResolved(code: string, scope: string)
    requires (code == "A" && scope == "sa") || (code == "B" && scope == "sb")
    ensures var r := ResolveLine(TwoClassDirectory(), ClassLine(code), None).resolution;
            r.scope == Some(scope) && r.diagnostic.None? && "u" in r.approvers
  {
    OneScope(TwoClassDirectory(), Scope(scope, true));
    assert UpperAscii("WORKFORCE")[0] == 'W';
    var r := ResolveLine(TwoClassDirectory(), ClassLine(code), None).resolution;
    var u :| u in r.approvers;
    assert Eligible(TwoClassDirectory(), u);
  }

  lemma ClassLineIsRouted(code: string, scope: string)
    requires (code == "A" && scope == "sa") || (code == "B" && scope == "sb")
    ensures var outcome := RouteProposals(TwoClassDirectory(), ClassLine(code), [None]);
            outcome.Accepted? && "u" in outcome.routed.approvers
  {
    ClassLineIsResolved(code, scope);
    var rs := Resolutions(TwoClassDirectory(), ClassLine(code), [None]);
    assert rs[0] == ResolveLine(TwoClassDirectory(), ClassLine(code), None);
    forall s ensures s in Gather(rs).scopes <==> s == scope { GatheredScopes(rs, s); }
    CombineAccepted(rs, scope);
    assert "u" in rs[|rs| - 1].resolution.approvers;
  }

  lemma ClassLineIsRequired(subject: Subject, lineId: string, code: string)
    requires code == "A" || code == "B"
    requires RowOf(subject.rows, lineId) == Some(PlainRow(lineId))
    requires lineId in subject.lines && subject.lines[lineId] == ClassLine(code)
    ensures RequirementFor(TwoClassDirectory(), subject, lineId).Ok?
    ensures "u" in RequirementFor(TwoClassDirectory(), subject, lineId).value.approvers
  {
    ClassLineIsRouted(code, if code == "A" then "sa" else "sb");
    assert Proposals(PlainRow(lineId)) == [None];
  }

  lemma OneLineIsRouted(priority: Option<string>) returns (snapshot: Snapshot)
    ensures NewCycle(TwoClassDirectory(), OneLine(priority)) == Ok(snapshot) && IsCycleOf(snapshot, OneLine(priority))
    ensures |snapshot.requirements| == 1 && "u" in snapshot.requirements[0].approvers
  {
    var dir, subject := TwoClassDirectory(), OneLine(priority);
    assert RowOf(subject.rows, "l") == Some(PlainRow("l"));
    ClassLineIsRequired(subject, "l", "A");
    OneLineCycle(dir, subject);
    CollectedAll(Attempts(dir, subject));
    snapshot := NewCycle(dir, subject).value;
  }

  lemma TwoAttempts<T>(attempts: seq<Result<T>>)
    requires |attempts| == 2 && attempts[0].Ok? && attempts[1].Ok?
    ensures Collect(attempts).Ok?
  {
    OneAttempt(attempts[..1]);
  }

  lemma TwoLinesAreRouted() returns (snapshot: Snapshot)
    ensures NewCycle(TwoClassDirectory(), TwoLines()) == Ok(snapshot) && IsCycleOf(snapshot, TwoLines())
    ensures |snapshot.requirements| == 2
    ensures "u" in snapshot.requirements[0].approvers && "u" in snapshot.requirements[1].approvers
  {
    var dir, subject := TwoClassDirectory(), TwoLines();
    RowFound(subject.rows, 0);
    RowFound(subject.rows, 1);
    ClassLineIsRequired(subject, "l", "A");
    ClassLineIsRequired(subject, "m", "B");
    TwoAttempts(Attempts(dir, subject));
    CollectedAll(Attempts(dir, subject));
    snapshot := NewCycle(dir, subject).value;
  }

  lemma PlainSubjectMatches(snapshot: Snapshot, subject: Subject)
    requires subject == TwoLines() || subject == OneLine(None)
    requires IsCycleOf(snapshot, subject)
    ensures Covered(subject) && Matches(snapshot, subject)
  {
    FreshCycleMatchesExactly(snapshot, subject);
  }

  lemma OtherPriorityMismatches(snapshot: Snapshot)
    requires IsCycleOf(snapshot, OneLine(None))
    ensures !Matches(snapshot, OneLine(Some("high")))
  {
    MatchesExactlyWhileUnchanged(snapshot, OneLine(None), OneLine(Some("high")));
  }

  /** A new demand; both requirements are open to the user "u". */
  function PlainWorld(): World {
    World(TwoClassDirectory(), Store(Demand(Draft, false, 1, OneLine(None), [], [], 0), {"u"}, 1, []), None, map[])
  }

  const APPROVER := Actor(Some("u"), true)

  lemma PlainWorldIsReady(subject: Subject, snapshot: Snapshot)
    requires NewCycle(TwoClassDirectory(), subject) == Ok(snapshot)
    ensures Submittable(PlainWorld(), subject, snapshot) && PlainWorld().store.planning == 1
    ensures CheckedActor(PlainWorld().store.activeUsers, APPROVER) == Done("u")
  {
  }

  lemma OneRequirementExists() returns (snapshot: Snapshot)
    ensures OneRequirement(PlainWorld(), OneLine(None), snapshot, APPROVER)
    ensures !Matches(snapshot, OneLine(Some("high"))) && NewCycle(PlainWorld().dir, OneLine(Some("high"))).Ok?
  {
    snapshot := OneLineIsRouted(None);
    var other := OneLineIsRouted(Some("high"));
    PlainWorldIsReady(OneLine(None), snapshot);
    PlainSubjectMatches(snapshot, OneLine(None));
    OtherPriorityMismatches(snapshot);
  }

  lemma TwoRequirementsExist() returns (snapshot: Snapshot)
    ensures TwoRequirements(PlainWorld(), TwoLines(), snapshot, APPROVER, APPROVER)
  {
    snapshot := TwoLinesAreRouted();
    PlainWorldIsReady(TwoLines(), snapshot);
    PlainSubjectMatches(snapshot, TwoLines());
  }

  /** A run into each race, for a world. */
  ghost predicate MissesTheGuard(w: World, steps: seq<Step>, revision: Option<nat>) {
    && GuardMissing(After(w, steps), revision)
    && var x := After(w, steps).sessions[0].intent; x.cmd.expectedVersion == x.seen.version
  }

  ghost predicate OpensUnsubmitted(w: World, steps: seq<Step>) {
    !OpenIsSubmitted(After(w, steps).store.demand)
  }

  ghost predicate OpensTwo(w: World, steps: seq<Step>) {
    ActiveCycle(After(w, steps).store.demand) == Failed(MultipleActive)
  }

  ghost predicate TakesBackOrderly(w: World, steps: seq<Step>) {
    TakenBack(w, steps) && OrderlyRun(w, steps)
  }

  /** So the races happen: one new demand has a run into each of them. */
  lemma TheRacesHappen(revision: nat)
    ensures IsNew(PlainWorld())
    ensures exists steps :: MissesTheGuard(PlainWorld(), steps, Some(revision))
    ensures exists steps :: OpensUnsubmitted(PlainWorld(), steps)
    ensures exists steps :: OpensTwo(PlainWorld(), steps)
    ensures exists steps :: TakesBackOrderly(PlainWorld(), steps)
    ensures exists steps :: ClosedAfterAll(PlainWorld(), steps)
  {
    var two := TwoRequirementsExist();
    var lost := LostVersionIsReached(PlainWorld(), TwoLines(), two, APPROVER, APPROVER, Some(revision));
    var one := OneRequirementExists();
    var stale := StaleSubmissionIsReached(PlainWorld(), OneLine(None), one);
    var second := SecondOpeningIsReached(PlainWorld(), OneLine(None), one, OneLine(Some("high")));
    var back := OrderlyRunTakesBack(PlainWorld(), OneLine(None), one, APPROVER, revision);
    var late := LateClosingIsReached(PlainWorld(), OneLine(None), one, APPROVER, OneLine(Some("high")), revision);
    assert MissesTheGuard(PlainWorld(), lost, Some(revision)) && OpensUnsubmitted(PlainWorld(), stale);
    assert OpensTwo(PlainWorld(), second) && TakesBackOrderly(PlainWorld(), back);
    assert ClosedAfterAll(PlainWorld(), late);
  }
}
