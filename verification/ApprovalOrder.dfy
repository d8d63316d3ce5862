/** What the version of a demand guarantees: the runs in which every write without compare-and-swap finds the
    version it read. In these a demand only evolves, a version is spent once, and the prediction that a vote makes
    before it takes the planning guard is exact (app/application/approval_voting.py,
    app/infrastructure/sql/request_version.py, app/infrastructure/sql/demand_repository.py). */
module ApprovalOrder {
  import opened Options
  import opened ApprovalRouting
  import opened ApprovalCycles
  import opened ApprovalVoting
  import opened ApprovalProgress
  import opened ApprovalLifecycle
  import opened ApprovalRuns
  import opened ApprovalFaults

  // ---------------------------------------------------------------- orderly runs

  /** A write without compare-and-swap finds the version of the row it holds; a closing vote expects a version that
      was reached when it read the demand. */
  ghost predicate Orderly(w: World, step: Step) {
    match step
    case Write(s, _) =>
      s in w.sessions && w.sessions[s].Editing? && !Selecting(w.sessions[s]) &&
          SwapVersion(w.sessions[s].command).None? ==>
        w.sessions[s].row.version == w.store.demand.version
    case Finish(s, _) =>
      s in w.sessions && w.sessions[s].Voting? && w.sessions[s].intent.plan.Close? ==>
        w.sessions[s].intent.cmd.expectedVersion <= w.sessions[s].intent.seen.version
    case _ => true
  }

  ghost predicate OrderlyRun(w: World, steps: seq<Step>)
    decreases |steps|
  {
    steps == [] ||
    (OrderlyRun(w, steps[..|steps| - 1]) && Orderly(After(w, steps[..|steps| - 1]), steps[|steps| - 1]))
  }

  /** Every finalized cycle is still completed. */
  ghost predicate Standing(store: Store) {
    forall m :: m in store.materialized ==> m.cycleId in CompletedIds(store.demand.cycles)
  }

  ghost predicate Sound(store: Store) {
    WellFormed(store.demand) && Booked(store) && Standing(store)
  }

  ghost predicate StoreEvolves(a: Store, b: Store) {
    Evolves(a.demand, b.demand) && a.materialized <= b.materialized && a.planning <= b.planning
  }

  /** The plan of a vote is what its reading says, and the stored demand has evolved since. */
  ghost predicate Faithful(x: Intent, d: Demand) {
    && Evolves(x.seen, d)
    && var r := ReadCycle(x.seen, x.user, x.cmd);
       && r.Done? && x.cycle == r.value.cycle
       && match r.value
          case Stale(_) => x.plan == Close
          case Ready(i, targets) => x.plan == Record(PredictedQuorum(x.seen, x.user, r.value).Complete())
  }

  /** What a session read is the past of the stored demand, in the order in which it was read. */
  ghost predicate Timely(x: Session, d: Demand) {
    match x
    case Voting(intent, _, looked) =>
      Faithful(intent, d) && (looked.Some? ==> Evolves(intent.seen, looked.value) && Evolves(looked.value, d))
    case Editing(c, read, row, _, looked) =>
      && Evolves(read, row) && Evolves(row, d)
      && (looked.Some? ==> Evolves(row, looked.value) && Evolves(looked.value, d))
      && Refusing(read, c).None? && !Idle(c)
  }

  ghost predicate Good(w: World) {
    Sound(w.store) && Holding(w) && forall s :: s in w.sessions ==> Timely(w.sessions[s], w.store.demand)
  }

  lemma CompletedStays(a: Demand, b: Demand)
    requires Lasts(a, b)
    ensures CompletedIds(a.cycles) <= CompletedIds(b.cycles)
  {
    forall id | id in CompletedIds(a.cycles) ensures id in CompletedIds(b.cycles) {
      var c :| c in a.cycles && c.state == Completed && c.id == id;
      var i :| 0 <= i < |a.cycles| && a.cycles[i] == c;
      assert Kept(a.cycles[i], b.cycles[i]);
      assert b.cycles[i] in b.cycles;
    }
  }

  /** A change that completes no cycle keeps a sound store sound if it keeps the demand well-formed. */
  lemma SoundnessStays(a: Store, b: Store)
    requires Sound(a) && WellFormed(b.demand) && Evolves(a.demand, b.demand)
    requires CompletedIds(b.demand.cycles) <= CompletedIds(a.demand.cycles)
    requires a.materialized == b.materialized && a.planning <= b.planning
    ensures Sound(b)
  {
    LastingGrows(a.demand, b.demand);
    BooksStay(a, b);
    CompletedStays(a.demand, b.demand);
  }

  lemma VotesAreSound(store: Store, user: string, cmd: VoteCommand, guard: Option<nat>, revision: Option<nat>)
    requires Sound(store) && FinishVote(store, user, cmd, guard, revision).Done?
    requires guard.Some? ==> guard.value == store.planning + 1
    ensures var r := FinishVote(store, user, cmd, guard, revision).value.0;
            Sound(r) && StoreEvolves(store, r) && (r.planning == store.planning || guard == Some(r.planning))
  {
    var after := FinishVote(store, user, cmd, guard, revision).value.0;
    VotesKeep(store, user, cmd, guard, revision);
    CompletedStays(store.demand, after.demand);
    var voted, i, targets := VoteResult(store, user, cmd, guard, revision);
    if CurrentQuorum(voted, i).Complete() { assert after.demand.cycles[i] in after.demand.cycles; }
  }

  /** A closing that expects a version no newer than the one it looked at finds the cycle it looked at. */
  lemma ClosingLookedKeeps(d: Demand, looked: Demand, expected: int)
    requires WellFormed(d) && Evolves(looked, d) && expected <= looked.version && CloseLooked(d, looked, expected).Done?
    ensures var r := CloseLooked(d, looked, expected).value;
            && WellFormed(r) && Evolves(d, r) && CompletedIds(r.cycles) <= CompletedIds(d.cycles) &&
                 r.status == d.status
            && r.subject == d.subject
            && (ActiveCycle(looked) != Done(None) ==> r == InvalidateCycle(d, d.version).value && d.version == expected)
  {
    if ActiveCycle(looked) != Done(None) {
      assert ActiveCycle(looked) == ActiveCycle(d);
      InvalidatingKeeps(d);
    }
  }

  lemma StaleVotesAreSound(store: Store, x: Session, revision: Option<nat>)
    requires Sound(store) && MayFinish(x) && x.intent.plan.Close? && Conclude(store, x, revision).Done?
    requires Evolves(x.looked.value, store.demand) && x.intent.cmd.expectedVersion <= x.looked.value.version
    ensures var r := Conclude(store, x, revision).value.0;
            Sound(r) && StoreEvolves(store, r) && r.planning == store.planning
  {
    ClosingLookedKeeps(store.demand, x.looked.value, x.intent.cmd.expectedVersion);
    SoundnessStays(store, Conclude(store, x, revision).value.0);
  }

  lemma ReselectionKeeps(dir: Directory, d: Demand, x: Session, cached: bool)
    requires WellFormed(d) && Selecting(x) && MayWrite(x) && Timely(x, d) && Reselected(dir, d, x, cached).Done?
    ensures var r := Reselected(dir, d, x, cached).value;
            WellFormed(r) && Evolves(d, r) && CompletedIds(r.cycles) <= CompletedIds(d.cycles)
  {
    var e := d.(subject := x.command.subject);
    if x.stale && ActiveCycle(x.looked.value) == Done(None) {
      assert ActiveCycle(x.looked.value) == ActiveCycle(e);
      OpeningKeeps(e, NewCycle(dir, e.subject).value);
    } else if x.stale {
      ClosingReselectionKeeps(dir, d, x, cached);
    }
  }

  lemma ClosingReselectionKeeps(dir: Directory, d: Demand, x: Session, cached: bool)
    requires WellFormed(d) && Selecting(x) && MayWrite(x) && Timely(x, d) && Reselected(dir, d, x, cached).Done?
    requires x.stale && ActiveCycle(x.looked.value) != Done(None)
    ensures var r := Reselected(dir, d, x, cached).value;
            WellFormed(r) && Evolves(d, r) && CompletedIds(r.cycles) <= CompletedIds(d.cycles)
  {
    var e := d.(subject := x.command.subject);
    ClosingLookedKeeps(e, x.looked.value, x.row.version);
    var f := CloseLooked(e, x.looked.value, x.row.version).value;
    InitializingKeeps(dir, f, f.version);
    EvolutionComposes(d, f, InitializeCycle(dir, f, f.version).value);
  }

  /** The version handed to the compare-and-swap is that of the reading the command was checked on. */
  lemma SwapIsRead(read: Demand, c: Command)
    requires Refusing(read, c).None? && SwapVersion(c).Some?
    ensures SwapVersion(c).value == read.version
  {
  }

  lemma RowIsCurrent(d: Demand, x: Session)
    requires x.Editing? && Timely(x, d)
    requires (SwapVersion(x.command).Some? && SwapVersion(x.command).value == d.version) || x.row.version == d.version
    ensures x.row.version == d.version && x.row.status == d.status
  {
    if SwapVersion(x.command).Some? { SwapIsRead(x.read, x.command); }
  }

  lemma CurrentRowKeeps(dir: Directory, d: Demand, x: Session, cached: bool)
    requires WellFormed(d) && MayWrite(x) && !Selecting(x) && Written(dir, d, x, cached).Done?
    requires x.row.version == d.version && x.row.status == d.status
    ensures var r := Written(dir, d, x, cached).value;
            WellFormed(r) && Evolves(d, r) && CompletedIds(r.cycles) <= CompletedIds(d.cycles)
  {
    var effect := EffectOf(x.command, x.read.status).value;
    CurrentRowIsEnough(dir, d, x.row, x.command, effect, cached);
    WritingKeeps(dir, d, x.read.status, x.command, effect);
  }

  lemma WrittenKeeps(dir: Directory, d: Demand, x: Session, cached: bool)
    requires WellFormed(d) && MayWrite(x) && Timely(x, d) && Written(dir, d, x, cached).Done?
    requires !Selecting(x) && SwapVersion(x.command).None? ==> x.row.version == d.version
    ensures var r := Written(dir, d, x, cached).value;
            WellFormed(r) && Evolves(d, r) && CompletedIds(r.cycles) <= CompletedIds(d.cycles)
  {
    if Selecting(x) {
      ReselectionKeeps(dir, d, x, cached);
    } else {
      RowIsCurrent(d, x);
      CurrentRowKeeps(dir, d, x, cached);
    }
  }

  // ---------------------------------------------------------------- orderly steps keep Good

  lemma TimelyStays(x: Session, a: Demand, b: Demand)
    requires Timely(x, a) && Evolves(a, b)
    ensures Timely(x, b)
  {
    match x
    case Voting(intent, _, looked) =>
      EvolutionComposes(intent.seen, a, b);
      if looked.Some? { EvolutionComposes(looked.value, a, b); }
    case Editing(_, _, row, _, looked) =>
      EvolutionComposes(row, a, b);
      if looked.Some? { EvolutionComposes(looked.value, a, b); }
  }

  lemma StoreStepKeeps(w: World, after: World)
    requires Good(w) && Sound(after.store) && StoreEvolves(w.store, after.store) && Holding(after)
    requires forall s :: s in after.sessions ==> s in w.sessions && after.sessions[s] == w.sessions[s]
    ensures Good(after)
  {
    forall s | s in after.sessions ensures Timely(after.sessions[s], after.store.demand) {
      TimelyStays(w.sessions[s], w.store.demand, after.store.demand);
    }
  }

  ghost predicate TimelyExcept(w: World, sessions: map<nat, Session>, s: nat) {
    && (forall t :: t in sessions && t != s ==> t in w.sessions && sessions[t] == w.sessions[t])
    && (s in sessions ==> Timely(sessions[s], w.store.demand))
  }

  lemma SessionStepKeeps(w: World, after: World, s: nat)
    requires Good(w) && after.store == w.store && Holding(after)
    requires TimelyExcept(w, after.sessions, s)
    ensures Good(after) && StoreEvolves(w.store, after.store)
  {
  }

  lemma FinishKeeps(w: World, s: nat, revision: Option<nat>)
    requires Good(w) && Orderly(w, Finish(s, revision))
    ensures Good(FinishSession(w, s, revision)) && StoreEvolves(w.store, FinishSession(w, s, revision).store)
  {
    if s in w.sessions && MayFinish(w.sessions[s]) {
      var x, r := w.sessions[s], Conclude(w.store, w.sessions[s], revision);
      if r.Done? && x.intent.plan.Close? { StaleVotesAreSound(w.store, x, revision); }
      if r.Done? && x.intent.plan.Record? { VotesAreSound(w.store, x.intent.user, x.intent.cmd, x.guard, revision); }
      LeavingHolds(w, s, if r.Done? then r.value.0 else w.store);
      StoreStepKeeps(w, FinishSession(w, s, revision));
    }
  }

  lemma WriteKeeps(w: World, s: nat, cached: bool)
    requires Good(w) && Orderly(w, Write(s, cached))
    ensures Good(WriteSession(w, s, cached)) && StoreEvolves(w.store, WriteSession(w, s, cached).store)
  {
    if s in w.sessions && MayWrite(w.sessions[s]) {
      var r := Written(w.dir, w.store.demand, w.sessions[s], cached);
      var after := if r.Done? then w.store.(demand := r.value) else w.store;
      if r.Done? {
        WrittenKeeps(w.dir, w.store.demand, w.sessions[s], cached);
        SoundnessStays(w.store, after);
      }
      LeavingHolds(w, s, after);
      StoreStepKeeps(w, WriteSession(w, s, cached));
    }
  }

  lemma BegunIsTimely(store: Store, actor: Actor, cmd: VoteCommand)
    requires BeginVote(store, actor, cmd).Done?
    ensures Timely(Begun(store, actor, cmd), store.demand) && !HasGuard(Begun(store, actor, cmd))
  {
  }

  lemma ReadIsTimely(d: Demand, c: Command)
    requires Refusing(d, c).None? && !Idle(c)
    ensures Timely(Editing(c, d, d, false, None), d)
  {
  }

  lemma ReloadIsTimely(x: Session, d: Demand)
    requires x.Editing? && Timely(x, d)
    ensures Timely(x.(row := d, looked := None), d)
  {
    EvolutionComposes(x.read, x.row, d);
  }

  lemma LookIsTimely(x: Session, d: Demand)
    requires Timely(x, d)
    ensures Timely(Looked(x, d), d)
  {
  }

  lemma GuardIsTimely(w: World, s: nat)
    requires Good(w)
    ensures TimelyExcept(w, GuardSession(w, s).sessions, s)
  {
    if WantsGuard(w, s) { assert Timely(w.sessions[s], w.store.demand); }
  }

  lemma BeginIsTimely(w: World, s: nat, actor: Actor, cmd: VoteCommand)
    requires Good(w)
    ensures TimelyExcept(w, BeginSession(w, s, actor, cmd).sessions, s)
  {
    if BeginVote(w.store, actor, cmd).Done? { BegunIsTimely(w.store, actor, cmd); }
  }

  lemma ReadKeepsTimely(w: World, s: nat, c: Command)
    requires Good(w)
    ensures TimelyExcept(w, ReadSession(w, s, c).sessions, s)
  {
    if Refusing(w.store.demand, c).None? && !Idle(c) { ReadIsTimely(w.store.demand, c); }
  }

  lemma ReloadKeepsTimely(w: World, s: nat)
    requires s in w.sessions ==> Timely(w.sessions[s], w.store.demand)
    ensures TimelyExcept(w, ReloadSession(w, s).sessions, s)
  {
    if s in w.sessions && w.sessions[s].Editing? { ReloadIsTimely(w.sessions[s], w.store.demand); }
  }

  lemma LookKeepsTimely(w: World, s: nat)
    requires s in w.sessions ==> Timely(w.sessions[s], w.store.demand)
    ensures TimelyExcept(w, LookSession(w, s).sessions, s)
  {
    if s in w.sessions { LookIsTimely(w.sessions[s], w.store.demand); }
  }

  lemma SessionStepsKeep(w: World, step: Step)
    requires Good(w) && InSession(step)
    ensures Good(Next(w, step)) && StoreEvolves(w.store, Next(w, step).store)
  {
    SessionStepHolds(w, step);
    match step {
      case Begin(s, actor, cmd) => BeginIsTimely(w, s, actor, cmd);
      case Guard(s) => GuardIsTimely(w, s);
      case Read(s, c) => ReadKeepsTimely(w, s, c);
      case Reload(s) => ReloadKeepsTimely(w, s);
      case Look(s) => LookKeepsTimely(w, s);
    }
    SessionStepKeeps(w, Next(w, step), step.session);
  }

  lemma OutsideStepsKeep(w: World, step: Step)
    requires Good(w) && (step.Drift? || step.Rebuild?)
    ensures Good(Next(w, step)) && StoreEvolves(w.store, Next(w, step).store)
  {
    QuietStepIsSafe(w, step);
    SoundnessStays(w.store, Next(w, step).store);
    StoreStepKeeps(w, Next(w, step));
  }

  lemma NextKeeps(w: World, step: Step)
    requires Good(w) && Orderly(w, step)
    ensures Good(Next(w, step)) && StoreEvolves(w.store, Next(w, step).store)
  {
    match step
    case Finish(s, revision) => FinishKeeps(w, s, revision);
    case Write(s, cached) => WriteKeeps(w, s, cached);
    case Drift(_, _, _) => OutsideStepsKeep(w, step);
    case Rebuild => OutsideStepsKeep(w, step);
    case _ => SessionStepsKeep(w, step);
  }

  /** In an orderly run a cycle is open only on a submitted demand, closed cycles are final, every finalized cycle
      stays completed, and whoever changes cycles, decisions or status moves the version up. */
  lemma {:induction false} OrderlyRunsAreSound(w: World, steps: seq<Step>)
    requires Good(w) && OrderlyRun(w, steps)
    ensures Good(After(w, steps)) && StoreEvolves(w.store, After(w, steps).store)
    decreases |steps|
  {
    if steps != [] {
      var before := steps[..|steps| - 1];
      OrderlyRunsAreSound(w, before);
      NextKeeps(After(w, before), steps[|steps| - 1]);
      EvolutionComposes(w.store.demand, After(w, before).store.demand, After(w, steps).store.demand);
    }
  }

  lemma NewDemandIsGood(w: World)
    requires IsNew(w)
    ensures Good(w)
  {
  }

  lemma GoodIsSafe(w: World)
    requires Good(w)
    ensures Safe(w) && OneOpen(w.store.demand.cycles)
  {
  }

  /** An orderly step is at no fault. */
  lemma OrderlyBreaksNothing(f: Fault, w: World, step: Step)
    requires Good(w) && Orderly(w, step)
    ensures !Breaks(f, w, step)
  {
    GoodIsSafe(w);
    NextKeeps(w, step);
    StepExactly(f, w, step);
  }

  lemma {:induction false} OrderlyRunsAreFree(f: Fault, w: World, steps: seq<Step>)
    requires Good(w) && OrderlyRun(w, steps)
    ensures Free(f, w, steps)
    decreases |steps|
  {
    if steps != [] {
      var before := steps[..|steps| - 1];
      OrderlyRunsAreFree(f, w, before);
      OrderlyRunsAreSound(w, before);
      OrderlyBreaksNothing(f, After(w, before), steps[|steps| - 1]);
    }
  }

  /** The same for a new demand, in plain terms. */
  lemma EveryOrderlyRunIsSound(w: World, steps: seq<Step>)
    requires IsNew(w) && OrderlyRun(w, steps)
    ensures var d, log := After(w, steps).store.demand, After(w, steps).store.materialized;
            && (forall i :: 0 <= i < |d.cycles| && d.cycles[i].state == Open ==>
                  i == |d.cycles| - 1 && d.status == Submitted)
            && (forall m :: m in log ==> m.cycleId in CompletedIds(d.cycles))
            && (forall id :: id in CompletedIds(d.cycles) ==> Entered(log, id))
    ensures forall f: Fault :: Free(f, w, steps)
  {
    NewDemandIsGood(w);
    OrderlyRunsAreSound(w, steps);
    forall f: Fault ensures Free(f, w, steps) { OrderlyRunsAreFree(f, w, steps); }
  }

  // ---------------------------------------------------------------- checked runs

  /** An orderly step whose unguarded write was also checked at the stored version, not only made at it: a session
      may read its row again after the check. */
  ghost predicate Checked(w: World, step: Step) {
    && Orderly(w, step)
    && (step.Write? && step.session in w.sessions && w.sessions[step.session].Editing?
        && !Selecting(w.sessions[step.session]) && SwapVersion(w.sessions[step.session].command).None? ==>
          w.sessions[step.session].read.version == w.store.demand.version)
  }

  ghost predicate CheckedRun(w: World, steps: seq<Step>)
    decreases |steps|
  {
    steps == [] ||
    (CheckedRun(w, steps[..|steps| - 1]) && Checked(After(w, steps[..|steps| - 1]), steps[|steps| - 1]))
  }

  lemma {:induction false} CheckedRunsAreOrderly(w: World, steps: seq<Step>)
    requires CheckedRun(w, steps)
    ensures OrderlyRun(w, steps)
    decreases |steps|
  {
    if steps != [] { CheckedRunsAreOrderly(w, steps[..|steps| - 1]); }
  }

  /** Between two versions that are the same nothing has changed that a check or a row depends on. */
  lemma SameVersion(a: Demand, d: Demand, c: Command)
    requires Evolves(a, d) && a.version == d.version
    ensures Refusing(a, c) == Refusing(d, c) && EffectOf(c, a.status) == EffectOf(c, d.status)
  {
  }

  /** A write whose check was made at the stored version is the command alone, whatever row it holds. */
  lemma CheckedWriteIsTheCommand(dir: Directory, d: Demand, x: Session, cached: bool)
    requires Timely(x, d) && MayWrite(x) && !Selecting(x) && x.read.version == d.version
    ensures Written(dir, d, x, cached) == Run(dir, d, x.command) && Refusing(d, x.command).None?
  {
    SameVersion(x.read, d, x.command);
    if SwapVersion(x.command).Some? { SwapIsRead(x.read, x.command); }
    if EffectOf(x.command, d.status).Done? {
      CurrentRowIsEnough(dir, d, x.row, x.command, EffectOf(x.command, d.status).value, cached);
    }
  }

  /** A guarded write is refused or was checked at the stored version. */
  lemma GuardedWriteIsTheCommand(dir: Directory, d: Demand, x: Session, cached: bool)
    requires Timely(x, d) && MayWrite(x) && SwapVersion(x.command).Some? && Written(dir, d, x, cached).Done?
    ensures Written(dir, d, x, cached) == Run(dir, d, x.command) && Refusing(d, x.command).None?
  {
    SwapIsRead(x.read, x.command);
    CheckedWriteIsTheCommand(dir, d, x, cached);
  }

  /** In a checked step a command that writes a row is refused, or does what it does alone to the stored demand, which
      its check accepts. */
  lemma CheckedStepIsTheCommand(w: World, s: nat, cached: bool)
    requires Good(w) && s in w.sessions && Checked(w, Write(s, cached))
    requires MayWrite(w.sessions[s]) && !Selecting(w.sessions[s])
    ensures var d, c := w.store.demand, w.sessions[s].command;
            var after := WriteSession(w, s, cached).store;
            || after == w.store
            || (&& Refusing(d, c).None? && Run(w.dir, d, c).Done?
                && after == w.store.(demand := Run(w.dir, d, c).value))
  {
    var d, x := w.store.demand, w.sessions[s];
    if Written(w.dir, d, x, cached).Done? {
      if SwapVersion(x.command).Some? {
        GuardedWriteIsTheCommand(w.dir, d, x, cached);
      } else {
        CheckedWriteIsTheCommand(w.dir, d, x, cached);
      }
    }
  }

  /** What may change the status of a demand: a finalization, or a command that its check accepts. */
  ghost predicate StatusExplained(w: World, step: Step) {
    var d, after := w.store.demand, Next(w, step).store.demand;
    || after.status == d.status
    || (step.Finish? && d.status == Submitted && after.status == Planned)
    || (step.Write? && step.session in w.sessions && w.sessions[step.session].Editing?
        && Refusing(d, w.sessions[step.session].command).None?)
  }

  lemma FinishedStatus(w: World, s: nat, revision: Option<nat>)
    ensures var d, after := w.store.demand, FinishSession(w, s, revision).store.demand;
            after.status == d.status || (d.status == Submitted && after.status == Planned)
  {
    if s in w.sessions && MayFinish(w.sessions[s]) && Conclude(w.store, w.sessions[s], revision).Done? {
      var x := w.sessions[s];
      if x.intent.plan.Record? {
        var voted, i, targets := VoteResult(w.store, x.intent.user, x.intent.cmd, x.guard, revision);
      }
    }
  }

  lemma WrittenStatus(w: World, s: nat, cached: bool)
    requires Good(w) && Checked(w, Write(s, cached))
    ensures StatusExplained(w, Write(s, cached))
  {
    if s in w.sessions && MayWrite(w.sessions[s]) {
      if !Selecting(w.sessions[s]) {
        CheckedStepIsTheCommand(w, s, cached);
      } else {
        SelectedStatus(w, s, cached);
      }
    }
  }

  /** A chosen alternative leaves the status. */
  lemma SelectedStatus(w: World, s: nat, cached: bool)
    requires s in w.sessions && MayWrite(w.sessions[s]) && Selecting(w.sessions[s])
    ensures WriteSession(w, s, cached).store.demand.status == w.store.demand.status
  {
    if Written(w.dir, w.store.demand, w.sessions[s], cached).Done? {
      SelectionSubmitted(w.dir, w.store.demand, w.sessions[s], cached);
    }
  }

  lemma CheckedStatusIsAccepted(w: World, step: Step)
    requires Good(w) && Checked(w, step)
    ensures StatusExplained(w, step)
  {
    match step
    case Finish(s, revision) => FinishedStatus(w, s, revision);
    case Write(s, cached) => WrittenStatus(w, s, cached);
    case _ => QuietStepIsSafe(w, step);
  }

  /** In a checked run of a new demand a status is never written on a demand on which the check would refuse the
      command. */
  lemma EveryCheckedStatusIsAccepted(w: World, steps: seq<Step>, step: Step)
    requires IsNew(w) && CheckedRun(w, steps) && Checked(After(w, steps), step)
    ensures StatusExplained(After(w, steps), step)
  {
    NewDemandIsGood(w);
    CheckedRunsAreOrderly(w, steps);
    OrderlyRunsAreSound(w, steps);
    CheckedStatusIsAccepted(After(w, steps), step);
  }

  /** In particular no correction takes a finalization back. */
  lemma NoFinalizationIsTakenBack(w: World, steps: seq<Step>, s: nat, cached: bool)
    requires IsNew(w) && CheckedRun(w, steps) && Checked(After(w, steps), Write(s, cached))
    requires s in After(w, steps).sessions && After(w, steps).sessions[s].Editing?
    requires After(w, steps).sessions[s].command.Correct? && After(w, steps).store.demand.status == Planned
    ensures WriteSession(After(w, steps), s, cached).store.demand.status == Planned
  {
    EveryCheckedStatusIsAccepted(w, steps, Write(s, cached));
  }

  /** A correction that holds the current row always leaves the demand to be corrected; it is what the command alone
      would do if and only if the stored demand is still submitted, at the version the correction expects if it
      expects one. So it takes a finalization back exactly when the stored demand is planned. */
  lemma CorrectionIsTheCommandExactly(dir: Directory, d: Demand, x: Session, cached: bool)
    requires WellFormed(d) && Timely(x, d) && x.Editing? && x.command.Correct? && x.row.version == d.version
    ensures var r := Written(dir, d, x, cached);
            && r.Done? && r.value.status == ToCorrect && r.value.version > d.version
            && (r == Run(dir, d, x.command) <==>
                  d.status == Submitted && (x.command.expected.Some? ==> x.command.expected.value == d.version))
  {
    var c, effect := x.command, Effect(Some(ToCorrect), false, CloseHook);
    CurrentRowIsEnough(dir, d, x.row, c, effect, cached);
    var flushed := Flushed(d, d, c, effect);
    FlushKeeps(d, d, c, effect);
    ActiveIsLast(d);
    assert ActiveCycle(flushed) == ActiveCycle(d);
    InvalidatingKeeps(flushed);
  }

  /** In any run: a correction takes a finalization back exactly when it finds the demand planned, unless its row
      was read again after another correction, or two cycles are open. */
  lemma CorrectionTakesBackExactly(dir: Directory, d: Demand, x: Session, cached: bool)
    requires x.Editing? && x.command.Correct?
    ensures var r := Written(dir, d, x, cached);
            d.status == Planned && r.Done? && r.value.status != Planned <==>
              d.status == Planned && ActiveCycle(d).Done? && x.row.status != ToCorrect
  {
    var effect := Effect(Some(ToCorrect), false, CloseHook);
    var flushed := Flushed(d, x.row, x.command, effect);
    assert ActiveCycle(flushed) == ActiveCycle(d);
    assert ActiveCycle(flushed.(status := ToCorrect)) == ActiveCycle(d);
    CorrectionCloses(flushed);
    CorrectionCloses(flushed.(status := ToCorrect));
  }

  lemma CorrectionCloses(d: Demand)
    ensures InvalidateCycle(d, d.version).Done? <==> ActiveCycle(d).Done?
    ensures InvalidateCycle(d, d.version).Done? ==> InvalidateCycle(d, d.version).value.status == d.status
  {
  }

  // ---------------------------------------------------------------- versions, predictions and the guard

  /** In an orderly run a version is spent once: after a recorded vote no later vote expecting the same version is
      accepted. */
  lemma VersionsAreSpentOnce(w: World, s: nat, revision: Option<nat>, steps: seq<Step>, t: nat, other: Option<nat>)
    requires Good(w) && s in w.sessions && MayFinish(w.sessions[s]) && w.sessions[s].intent.plan.Record?
    requires Conclude(w.store, w.sessions[s], revision).Done?
    requires OrderlyRun(FinishSession(w, s, revision), steps)
    requires var later := After(FinishSession(w, s, revision), steps);
             && t in later.sessions && MayFinish(later.sessions[t]) && later.sessions[t].intent.plan.Record?
             && later.sessions[t].intent.cmd.expectedVersion == w.sessions[s].intent.cmd.expectedVersion
    ensures var later := After(FinishSession(w, s, revision), steps);
            Conclude(later.store, later.sessions[t], other) == Failed(DemandVersionConflict)
  {
    RecordedVersion(w.store, w.sessions[s], revision);
    FinishKeeps(w, s, revision);
    OrderlyRunsAreSound(FinishSession(w, s, revision), steps);
    var later := After(FinishSession(w, s, revision), steps);
    SpentVersion(later.store, later.sessions[t], other);
  }

  lemma RecordedVersion(store: Store, x: Session, revision: Option<nat>)
    requires MayFinish(x) && x.intent.plan.Record? && Conclude(store, x, revision).Done?
    ensures Conclude(store, x, revision).value.0.demand.version == x.intent.cmd.expectedVersion + 1
  {
    var voted, i, targets := VoteResult(store, x.intent.user, x.intent.cmd, x.guard, revision);
  }

  lemma SpentVersion(store: Store, x: Session, revision: Option<nat>)
    requires MayFinish(x) && x.intent.plan.Record? && store.demand.version > x.intent.cmd.expectedVersion
    ensures Conclude(store, x, revision) == Failed(DemandVersionConflict)
  {
  }

  /** Quorum after recording, on two states of a demand with the same cycles, subject and decisions. */
  lemma SameCompletion(x: Demand, y: Demand, user: string, r: Reading)
    requires x.cycles == y.cycles && x.decisions == y.decisions && r.Ready? && r.cycle < |x.cycles|
    ensures CurrentQuorum(Recording(x, user, r), r.cycle).Complete() <==> PredictedQuorum(y, user, r).Complete()
  {
    ActionIsIrrelevant(x.cycles[r.cycle].ballots, x.decisions, r.targets, user, 0, x.nextId);
  }

  /** What a reading found ready is found the same in every state with the same cycles. */
  lemma ReadySame(x: Demand, y: Demand, user: string, cmd: VoteCommand)
    requires x.cycles == y.cycles
    requires ReadCycle(x, user, cmd).Done? && ReadCycle(x, user, cmd).value.Ready?
    requires ReadCycle(y, user, cmd).Done? && ReadCycle(y, user, cmd).value.Ready?
    ensures ReadCycle(x, user, cmd) == ReadCycle(y, user, cmd)
  {
  }

  /** If the expected version was reached when the decisions were read, the prediction is exact: when the
      compare-and-swap succeeds and the subject is still the same, the quorum completes iff it was predicted. */
  lemma PredictionIsExact(x: Intent, d: Demand)
    requires Faithful(x, d) && x.plan.Record?
    requires x.cmd.expectedVersion == d.version && x.cmd.expectedVersion <= x.seen.version
    requires var r := ReadCycle(d, x.user, x.cmd); r.Done? && r.value.Ready?
    ensures var r := ReadCycle(d, x.user, x.cmd).value;
            CurrentQuorum(Recording(d, x.user, r), r.cycle).Complete() <==> x.plan == Record(true)
  {
    ReadySame(x.seen, d, x.user, x.cmd);
    SameCompletion(d, x.seen, x.user, ReadCycle(x.seen, x.user, x.cmd).value);
  }

  lemma FinishUnfolds(store: Store, user: string, cmd: VoteCommand, guard: Option<nat>, revision: Option<nat>)
    requires FinishVote(store, user, cmd, guard, revision) == Failed(QuorumGuardMissing)
    ensures guard.None? && store.demand.version == cmd.expectedVersion
    ensures var r := ReadCycle(store.demand, user, cmd);
            r.Done? && r.value.Ready? && CurrentQuorum(Recording(store.demand, user, r.value), r.value.cycle).Complete()
  {
    var d := store.demand.(version := store.demand.version + 1);
    InitializationIsNeverRequested(d, cmd.cycleId);
    ReadingIgnoresVersion(store.demand, d, user, cmd);
  }

  /** So in an orderly run the missing-guard conflict cannot occur with an expected version that was reached when
      the vote read the demand. */
  lemma GuardIsNeverMissing(w: World, steps: seq<Step>, s: nat, revision: Option<nat>)
    requires IsNew(w) && OrderlyRun(w, steps)
    requires s in After(w, steps).sessions && MayFinish(After(w, steps).sessions[s])
    requires var x := After(w, steps).sessions[s].intent; x.cmd.expectedVersion <= x.seen.version
    ensures Conclude(After(w, steps).store, After(w, steps).sessions[s], revision) != Failed(QuorumGuardMissing)
  {
    NewDemandIsGood(w);
    OrderlyRunsAreSound(w, steps);
    var now := After(w, steps);
    assert Timely(now.sessions[s], now.store.demand);
    if now.sessions[s].intent.plan.Close? {
      StaleNeedsNoGuard(now.store, now.sessions[s], revision);
    } else {
      ReachedNeedsNoGuard(now.sessions[s].intent, now.store, now.sessions[s].guard, revision);
    }
  }

  lemma StaleNeedsNoGuard(store: Store, x: Session, revision: Option<nat>)
    requires MayFinish(x) && x.intent.plan.Close?
    ensures Conclude(store, x, revision) != Failed(QuorumGuardMissing)
  {
    assert ActiveCycle(x.looked.value).Failed? ==> ActiveCycle(x.looked.value).error == MultipleActive;
  }

  lemma ReachedNeedsNoGuard(x: Intent, store: Store, guard: Option<nat>, revision: Option<nat>)
    requires Faithful(x, store.demand) && x.plan.Record? && (x.plan == Record(true) ==> guard.Some?)
    requires x.cmd.expectedVersion <= x.seen.version
    ensures FinishVote(store, x.user, x.cmd, guard, revision) != Failed(QuorumGuardMissing)
  {
    if FinishVote(store, x.user, x.cmd, guard, revision) == Failed(QuorumGuardMissing) {
      FinishUnfolds(store, x.user, x.cmd, guard, revision);
      PredictionIsExact(x, store.demand);
    }
  }
}
