/** Runs in which two transactions on one demand miss each other, and what they break: the reasons for the
    conditions under which the results of ApprovalRuns and ApprovalOrder hold (app/application/approval_voting.py,
    app/infrastructure/sql/demand_repository.py, app/infrastructure/sql/approval_cycle_repository.py). */
module ApprovalRaces {
  import opened Options
  import opened ApprovalRouting
  import opened ApprovalCycles
  import opened ApprovalVoting
  import opened ApprovalProgress
  import opened ApprovalLifecycle
  import opened ApprovalRuns
  import opened ApprovalOrder

  // ---------------------------------------------------------------- two votes on the last two requirements

  lemma UnsatisfiedRemains(ballots: seq<Ballot>, decisions: seq<Decision>, b: Ballot)
    requires b in ballots && !Satisfied(b, decisions)
    ensures !QuorumOf(ballots, decisions).Complete()
  {
    assert b.id in QuorumOf(ballots, decisions).remaining;
  }

  lemma AllSatisfiedCompletes(ballots: seq<Ballot>, decisions: seq<Decision>)
    requires ballots != [] && forall b :: b in ballots ==> Satisfied(b, decisions)
    ensures QuorumOf(ballots, decisions).Complete()
  {
  }

  /** An unguarded vote on one requirement, at the version it expects. */
  lemma UnguardedVote(store: Store, user: string, i: nat, b: Ballot, cmd: VoteCommand, revision: Option<nat>)
    requires ReadCycle(store.demand, user, cmd) == Done(Ready(i, {b.id})) && store.demand.version == cmd.expectedVersion
    requires i < |store.demand.cycles|
    ensures var voted := Recording(store.demand.(version := store.demand.version + 1), user, Ready(i, {b.id}));
            if CurrentQuorum(voted, i).Complete()
                then FinishVote(store, user, cmd, None, revision) == Failed(QuorumGuardMissing)
            else
              FinishVote(store, user, cmd, None, revision) ==
                  Done((store.(demand := voted), Recorded(voted.version, CurrentQuorum(voted, i))))
  {
    ReadingIgnoresVersion(store.demand, store.demand.(version := store.demand.version + 1), user, cmd);
  }

  /** Two requirements are left, each open to one of two actors. */
  ghost predicate TwoLeft(store: Store, i: nat, p: Ballot, q: Ballot, x: Actor, y: Actor) {
    && store.demand.status == Submitted && ActiveCycle(store.demand) == Done(Some(i))
    && i < |store.demand.cycles| && DistinctIds(store.demand.cycles[i].ballots)
    && Matches(store.demand.cycles[i].snapshot, store.demand.subject)
    && p in store.demand.cycles[i].ballots && q in store.demand.cycles[i].ballots && p.id != q.id
    && (forall b :: b in store.demand.cycles[i].ballots ==>
         (Satisfied(b, store.demand.decisions) <==> b != p && b != q))
    && CheckedActor(store.activeUsers, x).Done? && x.id.value in p.approvers
    && CheckedActor(store.activeUsers, y).Done? && y.id.value in q.approvers
  }

  /** One vote of two neither completes the quorum nor is predicted to. */
  lemma FirstOfTwo(store: Store, i: nat, p: Ballot, q: Ballot, x: Actor, y: Actor, action: nat)
    requires TwoLeft(store, i, p, q, x, y)
    ensures var ballots := store.demand.cycles[i].ballots;
            !QuorumOf(ballots, store.demand.decisions + Approvals(ballots, {p.id}, x.id.value, action)).Complete()
  {
    var ballots := store.demand.cycles[i].ballots;
    VotingAddsExactly(ballots, store.demand.decisions, {p.id}, x.id.value, action, q);
    UnsatisfiedRemains(ballots, store.demand.decisions + Approvals(ballots, {p.id}, x.id.value, action), q);
  }

  lemma BothOfTwo(store: Store, i: nat, p: Ballot, q: Ballot, x: Actor, y: Actor, first: nat, second: nat)
    requires TwoLeft(store, i, p, q, x, y)
    ensures var ballots := store.demand.cycles[i].ballots;
            var once := store.demand.decisions + Approvals(ballots, {q.id}, y.id.value, first);
            QuorumOf(ballots, once + Approvals(ballots, {p.id}, x.id.value, second)).Complete()
  {
    var ballots := store.demand.cycles[i].ballots;
    var once := store.demand.decisions + Approvals(ballots, {q.id}, y.id.value, first);
    forall b | b in ballots ensures Satisfied(b, once + Approvals(ballots, {p.id}, x.id.value, second)) {
      VotingAddsExactly(ballots, store.demand.decisions, {q.id}, y.id.value, first, b);
      VotingAddsExactly(ballots, once, {p.id}, x.id.value, second, b);
    }
    AllSatisfiedCompletes(ballots, once + Approvals(ballots, {p.id}, x.id.value, second));
  }

  /** An unguarded vote under way on one requirement, not predicted to complete the quorum. */
  function Racing(user: string, d: Demand, i: nat, b: Ballot, expected: int): Session
    requires i < |d.cycles|
  {
    Voting(Intent(user, SingleVote(d, i, b.id, expected, None), d, i, Record(false)), None, None)
  }

  /** How such a vote starts. */
  lemma SingleVoteBegins(w: World, s: nat, actor: Actor, i: nat, b: Ballot, other: Ballot, y: Actor, expected: int)
    requires TwoLeft(w.store, i, b, other, actor, y) && expected >= 1 && s !in w.sessions
    ensures BeginSession(w, s, actor, SingleVote(w.store.demand, i, b.id, expected, None)) ==
              w.(sessions := w.sessions[s := Racing(actor.id.value, w.store.demand, i, b, expected)])
  {
    SingleVoteReads(w.store, actor, b, expected, None);
    FirstOfTwo(w.store, i, b, other, actor, y, 0);
  }

  lemma FirstVoteRecords(store: Store, i: nat, p: Ballot, q: Ballot, x: Actor, y: Actor)
    requires TwoLeft(store, i, q, p, y, x) && store.demand.version >= 1
    ensures var voted := Recording(store.demand.(version := store.demand.version + 1), y.id.value, Ready(i, {q.id}));
            var r := Conclude(store, Racing(y.id.value, store.demand, i, q, store.demand.version), None);
            r.Done? && r.value.0 == store.(demand := voted)
  {
    SingleVoteReads(store, y, q, store.demand.version, None);
    FirstOfTwo(store, i, q, p, y, x, store.demand.nextId);
    UnguardedVote(store, y.id.value, i, q, SingleVote(store.demand, i, q.id, store.demand.version, None), None);
  }

  lemma Symmetric(store: Store, i: nat, p: Ballot, q: Ballot, x: Actor, y: Actor)
    requires TwoLeft(store, i, p, q, x, y)
    ensures TwoLeft(store, i, q, p, y, x)
  {
  }

  lemma RecordedFinish(w: World, s: nat, revision: Option<nat>, store: Store)
    requires s in w.sessions && MayFinish(w.sessions[s]) && w.holder == None
    requires Conclude(w.store, w.sessions[s], revision).Done? &&
             Conclude(w.store, w.sessions[s], revision).value.0 == store
    ensures FinishSession(w, s, revision) == w.(sessions := w.sessions - {s}, store := store)
  {
  }

  lemma RefusedFinish(w: World, s: nat, revision: Option<nat>)
    requires s in w.sessions && MayFinish(w.sessions[s]) && Conclude(w.store, w.sessions[s], revision).Failed?
    ensures FinishSession(w, s, revision).store == w.store
  {
  }

  /** With an expected version that only became current after the reading, the missing-guard conflict does
      occur, and it is what keeps the complete quorum from being materialized without the planning guard:
      x and y both read at one version, y's vote moves it to the one x expects, and x's vote would then
      complete a quorum it was not predicted to complete. */
  lemma FutureVersionMissesTheGuard(w: World, i: nat, p: Ballot, q: Ballot, x: Actor, y: Actor, revision: Option<nat>)
    requires TwoLeft(w.store, i, p, q, x, y) && w.store.demand.version >= 1 && w.holder == None
    requires var d := w.store.demand;
             && 0 in w.sessions && w.sessions[0] == Racing(x.id.value, d, i, p, d.version + 1)
             && 1 in w.sessions && w.sessions[1] == Racing(y.id.value, d, i, q, d.version)
    ensures var late := FinishSession(w, 1, None);
            && 0 in late.sessions && MayFinish(late.sessions[0])
            && late.sessions[0].intent.cmd.expectedVersion == late.store.demand.version ==
                 late.sessions[0].intent.seen.version + 1
            && Conclude(late.store, late.sessions[0], revision) == Failed(QuorumGuardMissing)
            && late.store.materialized == w.store.materialized && FinishSession(late, 0, revision).store == late.store
  {
    var d := w.store.demand;
    Symmetric(w.store, i, p, q, x, y);
    FirstVoteRecords(w.store, i, p, q, x, y);
    var after := w.store.(demand := Recording(d.(version := d.version + 1), y.id.value, Ready(i, {q.id})));
    RecordedFinish(w, 1, None, after);
    LateVoteMisses(w.store, after, i, p, q, x, y, revision);
    RefusedFinish(FinishSession(w, 1, None), 0, revision);
  }

  lemma LateVoteMisses(store: Store, late: Store, i: nat, p: Ballot, q: Ballot, x: Actor, y: Actor,
      revision: Option<nat>)
    requires TwoLeft(store, i, p, q, x, y) && store.demand.version >= 1
    requires late == store.(demand :=
             Recording(store.demand.(version := store.demand.version + 1), y.id.value, Ready(i, {q.id})))
    ensures FinishVote(late, x.id.value, SingleVote(store.demand, i, p.id, store.demand.version + 1, None), None,
            revision) == Failed(QuorumGuardMissing)
  {
    var d := store.demand;
    var cmd := SingleVote(d, i, p.id, d.version + 1, None);
    SingleVoteReads(store, x, p, d.version + 1, None);
    ReadingIgnoresVersion(d, late.demand, x.id.value, cmd);
    BothOfTwo(store, i, p, q, x, y, d.nextId, late.demand.nextId);
    UnguardedVote(late, x.id.value, i, p, cmd, revision);
  }

  // ---------------------------------------------------------------- a version written back

  /** An edit that names no business field: its write is not guarded. */
  function TouchUp(d: Demand): Command {
    Modify(true, None, d.subject, false, false, NoPolicy)
  }

  lemma TouchUpWrites(w: World, s: nat, e: Demand, cached: bool)
    requires s in w.sessions && w.sessions[s] == Editing(TouchUp(e), e, e, false, None) && w.holder == None
    requires e.subject == w.store.demand.subject
    ensures WriteSession(w, s, cached) ==
              w.(sessions := w.sessions - {s}, store := w.store.(demand := w.store.demand.(version := e.version + 1)))
  {
    var d := w.store.demand;
    assert Flushed(d, e, TouchUp(e), PLAIN) == d.(version := e.version + 1, approvedAt := d.approvedAt && !false);
    assert Perform(w.dir, d, e, TouchUp(e), PLAIN, cached) == Done(d.(version := e.version + 1));
  }

  lemma TouchUpReads(w: World, s: nat)
    requires s !in w.sessions && w.store.demand.status == Submitted
    ensures var d := w.store.demand;
            ReadSession(w, s, TouchUp(d)) == w.(sessions := w.sessions[s := Editing(TouchUp(d), d, d, false, None)])
  {
  }

  lemma LeftAtVersion(store: Store, version: nat, i: nat, p: Ballot, q: Ballot, x: Actor, y: Actor)
    requires TwoLeft(store, i, p, q, x, y)
    ensures TwoLeft(store.(demand := store.demand.(version := version)), i, p, q, x, y)
  {
    assert ActiveCycle(store.demand.(version := version)) == ActiveCycle(store.demand);
  }

  lemma Extended(w: World, steps: seq<Step>, a: World, step: Step, b: World) returns (more: seq<Step>)
    requires After(w, steps) == a && Next(a, step) == b
    ensures more == steps + [step] && After(w, more) == b
  {
    more := steps + [step];
    assert more[..|steps|] == steps;
  }

  function Held(d: Demand): Session {
    Editing(TouchUp(d), d, d, false, None)
  }

  /** Two edits 2 and 3 read one version. */
  function BothHeld(w: World): World {
    w.(sessions := map[2 := Held(w.store.demand), 3 := Held(w.store.demand)])
  }

  lemma EditsRead(w: World) returns (steps: seq<Step>)
    requires w.store.demand.status == Submitted && w.sessions == map[]
    ensures |steps| == 2 && After(w, steps) == BothHeld(w)
  {
    var d := w.store.demand;
    var one := w.(sessions := map[2 := Held(d)]);
    TouchUpReads(w, 2);
    steps := Extended(w, [], w, Read(2, TouchUp(d)), one);
    TouchUpReads(one, 3);
    steps := Extended(w, steps, one, Read(3, TouchUp(d)), BothHeld(w));
  }

  /** 3 writes; 2 still holds the version before. */
  function OneHeld(w: World): World {
    var d := w.store.demand;
    w.(sessions := map[2 := Held(d)], store := w.store.(demand := d.(version := d.version + 1)))
  }

  lemma EditWrites(w: World)
    requires w.holder == None
    ensures Next(BothHeld(w), Write(3, true)) == OneHeld(w)
  {
    TouchUpWrites(BothHeld(w), 3, w.store.demand, true);
    assert BothHeld(w).sessions - {3} == map[2 := Held(w.store.demand)];
  }

  lemma EditsRun(w: World) returns (steps: seq<Step>)
    requires w.store.demand.status == Submitted && w.sessions == map[] && w.holder == None
    ensures |steps| == 3 && After(w, steps) == OneHeld(w)
  {
    steps := EditsRead(w);
    EditWrites(w);
    steps := Extended(w, steps, BothHeld(w), Write(3, true), OneHeld(w));
  }

  /** The vote 0, then the vote 1 too, reads the new version and expects it. */
  function OneBegun(w: World, i: nat, p: Ballot, x: Actor): World
    requires i < |w.store.demand.cycles| && x.id.Some?
  {
    var held := OneHeld(w);
    var e := held.store.demand;
    held.(sessions := held.sessions[0 := Racing(x.id.value, e, i, p, e.version)])
  }

  function BothBegun(w: World, i: nat, p: Ballot, q: Ballot, x: Actor, y: Actor): World
    requires i < |w.store.demand.cycles| && x.id.Some? && y.id.Some?
  {
    var one := OneBegun(w, i, p, x);
    var e := one.store.demand;
    one.(sessions := one.sessions[1 := Racing(y.id.value, e, i, q, e.version)])
  }

  lemma FirstBegins(w: World, i: nat, p: Ballot, q: Ballot, x: Actor, y: Actor) returns (step: Step)
    requires TwoLeft(w.store, i, p, q, x, y) && w.store.demand.version >= 1
    ensures Next(OneHeld(w), step) == OneBegun(w, i, p, x)
  {
    var e := OneHeld(w).store.demand;
    LeftAtVersion(w.store, e.version, i, p, q, x, y);
    SingleVoteBegins(OneHeld(w), 0, x, i, p, q, y, e.version);
    step := Begin(0, x, SingleVote(e, i, p.id, e.version, None));
  }

  lemma SecondBegins(w: World, i: nat, p: Ballot, q: Ballot, x: Actor, y: Actor) returns (step: Step)
    requires TwoLeft(w.store, i, p, q, x, y) && w.store.demand.version >= 1
    ensures Next(OneBegun(w, i, p, x), step) == BothBegun(w, i, p, q, x, y)
  {
    var one := OneBegun(w, i, p, x);
    var e := one.store.demand;
    LeftAtVersion(w.store, e.version, i, p, q, x, y);
    Symmetric(one.store, i, p, q, x, y);
    SingleVoteBegins(one, 1, y, i, q, p, x, e.version);
    step := Begin(1, y, SingleVote(e, i, q.id, e.version, None));
  }

  lemma VotesBegin(w: World, i: nat, p: Ballot, q: Ballot, x: Actor, y: Actor) returns (steps: seq<Step>)
    requires TwoLeft(w.store, i, p, q, x, y) && w.store.demand.version >= 1 && w.sessions == map[] && w.holder == None
    ensures |steps| == 5 && After(w, steps) == BothBegun(w, i, p, q, x, y)
  {
    steps := EditsRun(w);
    var first := FirstBegins(w, i, p, q, x, y);
    steps := Extended(w, steps, OneHeld(w), first, OneBegun(w, i, p, x));
    var second := SecondBegins(w, i, p, q, x, y);
    steps := Extended(w, steps, OneBegun(w, i, p, x), second, BothBegun(w, i, p, q, x, y));
  }

  /** The vote 1 is recorded. */
  function OneLeft(w: World, i: nat, p: Ballot, q: Ballot, x: Actor, y: Actor): World
    requires i < |w.store.demand.cycles| && x.id.Some? && y.id.Some?
  {
    var both := BothBegun(w, i, p, q, x, y);
    var e := both.store.demand;
    var voted := Recording(e.(version := e.version + 1), y.id.value, Ready(i, {q.id}));
    both.(sessions := both.sessions - {1}, store := both.store.(demand := voted))
  }

  lemma VoteConcludes(w: World, i: nat, p: Ballot, q: Ballot, x: Actor, y: Actor)
    requires TwoLeft(w.store, i, p, q, x, y) && w.store.demand.version >= 1
    ensures var both := BothBegun(w, i, p, q, x, y);
            && MayFinish(both.sessions[1]) && Conclude(both.store, both.sessions[1], None).Done?
            && Conclude(both.store, both.sessions[1], None).value.0 == OneLeft(w, i, p, q, x, y).store
  {
    var both := BothBegun(w, i, p, q, x, y);
    LeftAtVersion(w.store, both.store.demand.version, i, p, q, x, y);
    Symmetric(both.store, i, p, q, x, y);
    FirstVoteRecords(both.store, i, p, q, x, y);
  }

  lemma VoteIsRecorded(w: World, i: nat, p: Ballot, q: Ballot, x: Actor, y: Actor) returns (step: Step)
    requires TwoLeft(w.store, i, p, q, x, y) && w.store.demand.version >= 1 && w.holder == None
    ensures Next(BothBegun(w, i, p, q, x, y), step) == OneLeft(w, i, p, q, x, y)
  {
    VoteConcludes(w, i, p, q, x, y);
    RecordedFinish(BothBegun(w, i, p, q, x, y), 1, None, OneLeft(w, i, p, q, x, y).store);
    step := Finish(1, None);
  }

  /** The edit 2 writes back the version it read, plus one. */
  function WrittenBack(w: World, i: nat, p: Ballot, q: Ballot, x: Actor, y: Actor): World
    requires i < |w.store.demand.cycles| && x.id.Some? && y.id.Some?
  {
    var one := OneLeft(w, i, p, q, x, y);
    one.(sessions := one.sessions - {2}, store :=
        one.store.(demand := one.store.demand.(version := w.store.demand.version + 1)))
  }

  lemma EditWritesBack(w: World, i: nat, p: Ballot, q: Ballot, x: Actor, y: Actor) returns (step: Step)
    requires TwoLeft(w.store, i, p, q, x, y) && w.holder == None
    ensures Next(OneLeft(w, i, p, q, x, y), step) == WrittenBack(w, i, p, q, x, y)
  {
    var one := OneLeft(w, i, p, q, x, y);
    assert one.sessions[2] == Held(w.store.demand);
    TouchUpWrites(one, 2, w.store.demand, true);
    step := Write(2, true);
  }

  lemma VersionIsWrittenBack(w: World, i: nat, p: Ballot, q: Ballot, x: Actor, y: Actor) returns (steps: seq<Step>)
    requires TwoLeft(w.store, i, p, q, x, y) && w.store.demand.version >= 1 && w.sessions == map[] && w.holder == None
    ensures |steps| == 7 && After(w, steps[..6]) == OneLeft(w, i, p, q, x, y) &&
            After(w, steps) == WrittenBack(w, i, p, q, x, y)
  {
    steps := VotesBegin(w, i, p, q, x, y);
    var sixth := VoteIsRecorded(w, i, p, q, x, y);
    var six := Extended(w, steps, BothBegun(w, i, p, q, x, y), sixth, OneLeft(w, i, p, q, x, y));
    var last := EditWritesBack(w, i, p, q, x, y);
    steps := Extended(w, six, OneLeft(w, i, p, q, x, y), last, WrittenBack(w, i, p, q, x, y));
    assert steps[..6] == six;
  }

  /** A run in which a version is written back: two edits read one version; one of them writes; two votes read the
      next version and expect it; one is recorded; the other edit writes. Then the version that vote spent is
      current again, the other vote passes the compare-and-swap at the very version it read, and would complete a
      quorum it was not predicted to complete. Only the missing planning guard keeps the cycle from being
      materialized without it. */
  lemma LostVersionMissesTheGuard(w: World, i: nat, p: Ballot, q: Ballot, x: Actor, y: Actor, revision: Option<nat>)
    returns (steps: seq<Step>)
    requires TwoLeft(w.store, i, p, q, x, y) && w.store.demand.version >= 1 && w.sessions == map[] && w.holder == None
    ensures var late := After(w, steps);
            && 0 in late.sessions && MayFinish(late.sessions[0])
            && late.sessions[0].intent.cmd.expectedVersion == late.sessions[0].intent.seen.version ==
                 late.store.demand.version
            && Conclude(late.store, late.sessions[0], revision) == Failed(QuorumGuardMissing)
            && late.store.materialized == w.store.materialized
    ensures |steps| == 7 && After(w, steps[..6]).store.demand.version == After(w, steps).store.demand.version + 1
  {
    var e := OneHeld(w).store.demand;
    steps := VersionIsWrittenBack(w, i, p, q, x, y);
    LeftAtVersion(w.store, e.version, i, p, q, x, y);
    var late := WrittenBack(w, i, p, q, x, y);
    assert late.sessions[0] == Racing(x.id.value, e, i, p, e.version);
    LateVoteMissesAt(OneHeld(w).store, late.store, i, p, q, x, y, revision);
  }

  lemma LateVoteMissesAt(store: Store, late: Store, i: nat, p: Ballot, q: Ballot, x: Actor, y: Actor,
      revision: Option<nat>)
    requires TwoLeft(store, i, p, q, x, y) && store.demand.version >= 1
    requires late == store.(demand := Recording(store.demand, y.id.value, Ready(i, {q.id})))
    ensures FinishVote(late, x.id.value, SingleVote(store.demand, i, p.id, store.demand.version, None), None,
            revision) == Failed(QuorumGuardMissing)
  {
    var d := store.demand;
    var cmd := SingleVote(d, i, p.id, d.version, None);
    SingleVoteReads(store, x, p, d.version, None);
    ReadingIgnoresVersion(d, late.demand, x.id.value, cmd);
    BothOfTwo(store, i, p, q, x, y, d.nextId, late.demand.nextId);
    UnguardedVote(late, x.id.value, i, p, cmd, revision);
  }

  // ---------------------------------------------------------------- writes that come too late

  lemma FinalizationLeaves(store: Store, x: Session, revision: Option<nat>) returns (planned: Store)
    requires Coherent(store.demand) && Booked(store) && MayFinish(x) && Conclude(store, x, revision).Done?
    requires Conclude(store, x, revision).value.1.Finalized?
    ensures Conclude(store, x, revision).value.0 == planned
    ensures planned.demand.status == Planned && ActiveCycle(planned.demand) == Done(None)
    ensures |planned.materialized| == |store.materialized| + 1 && planned.demand.version == store.demand.version + 1
    ensures forall i :: ActiveCycle(store.demand) == Done(Some(i)) ==>
              i < |planned.demand.cycles| && planned.demand.cycles[i].state == Completed
  {
    var voted, i, targets := VoteResult(store, x.intent.user, x.intent.cmd, x.guard, revision);
    planned := Conclude(store, x, revision).value.0;
    RecordingKeeps(store.demand.(version := store.demand.version + 1), x.intent.user, i, targets);
    assert ActiveCycle(voted) == ActiveCycle(store.demand);
    ClosingKeeps(voted, i, Completed, revision);
    assert ActiveCycle(Closed(voted, i, Completed, revision).(status := Planned, approvedAt := true)) == Done(None);
  }

  lemma CorrectionWrites(dir: Directory, d: Demand, row: Demand, c: Command, cached: bool)
    requires c.Correct? && row.status == Submitted && ActiveCycle(d) == Done(None)
    ensures Written(dir, d, Editing(c, row, row, false, None), cached) ==
            Done(d.(version := row.version + 1, status := ToCorrect))
  {
    var flushed := Flushed(d, row, c, Effect(Some(ToCorrect), false, CloseHook));
    assert ActiveCycle(flushed) == Done(None);
  }

  /** A correction that read the demand as submitted takes a finalization back: the demand is to be corrected, and
      its materialization stays. It writes the version that the vote had just written. */
  lemma CorrectionOverwritesAFinalization(w: World, c: Command, revision: Option<nat>, cached: bool)
    requires Safe(w) && 0 !in w.sessions && 1 in w.sessions && MayFinish(w.sessions[1])
    requires Conclude(w.store, w.sessions[1], revision).Done? &&
             Conclude(w.store, w.sessions[1], revision).value.1.Finalized?
    requires c.Correct? && Refusing(w.store.demand, c).None?
    ensures var planned := FinishSession(ReadSession(w, 0, c), 1, revision);
            var late := WriteSession(planned, 0, cached);
            && planned.store.demand.status == Planned && late.store.demand.status == ToCorrect
            && late.store.materialized == planned.store.materialized
            && |planned.store.materialized| == |w.store.materialized| + 1
            && late.store.demand.version == planned.store.demand.version == w.store.demand.version + 1
  {
    var planned := FinalizationLeaves(w.store, w.sessions[1], revision);
    CorrectionFollows(w, c, planned, revision, cached);
  }

  lemma CorrectionMeets(w: World, c: Command, planned: Store, revision: Option<nat>)
    requires 0 !in w.sessions && 1 in w.sessions && MayFinish(w.sessions[1])
    requires Conclude(w.store, w.sessions[1], revision).Done? &&
             Conclude(w.store, w.sessions[1], revision).value.0 == planned
    requires c.Correct? && Refusing(w.store.demand, c).None?
    ensures var after := FinishSession(ReadSession(w, 0, c), 1, revision);
            && after.store == planned && after.dir == w.dir
            && 0 in after.sessions && after.sessions[0] == ReadSession(w, 0, c).sessions[0]
  {
  }

  lemma CorrectionFollows(w: World, c: Command, planned: Store, revision: Option<nat>, cached: bool)
    requires 0 !in w.sessions && 1 in w.sessions && MayFinish(w.sessions[1])
    requires Conclude(w.store, w.sessions[1], revision).Done? &&
             Conclude(w.store, w.sessions[1], revision).value.0 == planned
    requires c.Correct? && Refusing(w.store.demand, c).None? && ActiveCycle(planned.demand) == Done(None)
    ensures FinishSession(ReadSession(w, 0, c), 1, revision).store == planned
    ensures WriteSession(FinishSession(ReadSession(w, 0, c), 1, revision), 0, cached).store ==
              planned.(demand := planned.demand.(version := w.store.demand.version + 1, status := ToCorrect))
  {
    CorrectionMeets(w, c, planned, revision);
    CorrectionWrites(w.dir, planned.demand, w.store.demand, c, cached);
  }

  /** The demand a submission sees that trusts its row. */
  function Viewed(d: Demand, x: Session): Demand
    requires x.Editing? && x.command.Submit?
  {
    d.(version := x.row.version + 1, status := Submitted, subject := x.command.subject)
  }

  lemma ViewedOpens(dir: Directory, d: Demand, x: Session)
    requires x.Editing? && x.command.Submit? && ActiveCycle(d) == Done(None) && NewCycle(dir, x.command.subject).Ok?
    ensures InitializeAfterSubmission(dir, Viewed(d, x)) ==
            Done(Opened(Viewed(d, x), NewCycle(dir, x.command.subject).value))
  {
    assert ActiveCycle(Viewed(d, x)) == ActiveCycle(d);
  }

  lemma StaleSubmissionWrites(dir: Directory, d: Demand, x: Session, opening: Demand)
    requires x.Editing? && x.command.Submit? && x.row.status == Submitted && d.status == ToCorrect
    requires InitializeAfterSubmission(dir, Viewed(d, x)) == Done(opening) && opening.status == Submitted
    ensures Written(dir, d, x, true) == Done(opening.(status := ToCorrect))
  {
    var effect := Effect(Some(Submitted), false, OpenHook);
    assert Flushed(d, x.row, x.command, effect).(status := Submitted) == Viewed(d, x);
    assert Perform(dir, d, x.row, x.command, effect, true) == Done(opening.(status := ToCorrect));
  }

  /** A submission whose row was read again as submitted writes no status; if a correction came since, its hook,
      which trusts that row, opens a cycle on a demand that is to be corrected. */
  lemma StaleSubmissionOpensACycle(w: World, s: nat)
    requires s in w.sessions && w.sessions[s].Editing? && w.sessions[s].command.Submit?
    requires w.sessions[s].row.status == Submitted && w.store.demand.status == ToCorrect
    requires Coherent(w.store.demand) && ActiveCycle(w.store.demand) == Done(None)
    requires NewCycle(w.dir, w.sessions[s].command.subject).Ok?
    ensures var late := WriteSession(w, s, true).store.demand;
            late.status == ToCorrect && ActiveCycle(late) == Done(Some(|w.store.demand.cycles|))
  {
    var d, x := w.store.demand, w.sessions[s];
    var opening := Opened(Viewed(d, x), NewCycle(w.dir, x.command.subject).value);
    ViewedOpens(w.dir, d, x);
    StaleSubmissionWrites(w.dir, d, x, opening);
    assert ActiveCycle(Viewed(d, x)) == ActiveCycle(d);
    OpeningKeeps(Viewed(d, x), NewCycle(w.dir, x.command.subject).value);
    assert ActiveCycle(opening.(status := ToCorrect)) == ActiveCycle(opening);
  }

  /** A vote that found its cycle stale, and expects a version that only came after it looked up the cycle, closes
      that cycle even if it was completed since; its materialization stays. */
  lemma LateClosingOverwritesACompletion(w: World, s: nat, i: nat, revision: Option<nat>)
    requires s in w.sessions && MayFinish(w.sessions[s]) && w.sessions[s].intent.plan.Close?
    requires ActiveCycle(w.sessions[s].looked.value) == Done(Some(i))
    requires i < |w.store.demand.cycles| && w.store.demand.cycles[i].state == Completed
    requires w.sessions[s].intent.cmd.expectedVersion == w.store.demand.version
    ensures var late := FinishSession(w, s, revision).store;
            late.demand.cycles[i].state == Invalidated && late.materialized == w.store.materialized
  {
  }

  /** A chosen alternative that finds no cycle to close opens one at the version of its row. If that version was
      written back after another cycle was opened, two are open and the demand can no longer be approved. */
  lemma LateOpeningOpensTwo(w: World, s: nat, i: nat, cached: bool)
    requires s in w.sessions && Overtaken(w.sessions[s], w.store.demand) && MayWrite(w.sessions[s])
    requires w.sessions[s].row.status == Submitted && w.sessions[s].row.version == w.store.demand.version
    requires ActiveCycle(w.store.demand) == Done(Some(i)) && NewCycle(w.dir, w.sessions[s].command.subject).Ok?
    ensures ActiveCycle(WriteSession(w, s, cached).store.demand) == Failed(MultipleActive)
  {
    var late := WriteSession(w, s, cached).store.demand;
    ActiveCycleExactly(late);
    assert late.cycles[i].state == Open && late.cycles[|late.cycles| - 1].state == Open && i < |late.cycles| - 1;
  }
}
