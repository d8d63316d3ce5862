/** Interleaved runs of the approval protocol over one demand. Votes are cut into their unlocked reading, their
    planning guard and their transaction; demand commands into the reading they are checked on and the writing of
    the row, from which the row is locked; and whatever else changes the subject, the directory, the users or the
    planning may come in between (app/application/approval_voting.py, app/application/demand_service.py,
    app/application/business_contact_admin.py, app/infrastructure/sql/demand_repository.py).

    The version of a demand is a compare-and-swap only for votes and for the commands that hand their expected
    version on. The others write the version they read, plus one. So the results come in two strengths: those of
    this module hold in every run, those of ApprovalOrder in runs whose unguarded writes find the version read. */
module ApprovalRuns {
  import opened Options
  import opened ApprovalRouting
  import opened ApprovalCycles
  import opened ApprovalVoting
  import opened ApprovalProgress
  import opened ApprovalLifecycle

  /** What a vote read and planned; `seen`, the demand it read, is history. */
  datatype Intent = Intent(user: string, cmd: VoteCommand, seen: Demand, cycle: nat, plan: Plan)

  /** A transaction under way. A vote has the planning version it holds. A command has the demand it was checked
      on and the row it holds, of which only status and version matter; `stale` says that a chosen alternative
      found the active cycle outdated. `looked` is the demand whose active cycle will be closed. */
  datatype Session =
    | Voting(intent: Intent, guard: Option<nat>, looked: Option<Demand>)
    | Editing(command: Command, read: Demand, row: Demand, stale: bool, looked: Option<Demand>)

  /** `holder`: the vote that holds the planning guard, a lock released with its transaction. */
  datatype World = World(dir: Directory, store: Store, holder: Option<nat>, sessions: map<nat, Session>)

  /** `cached`: the hooks of a command use the row it holds instead of reading it again. */
  datatype Step =
    | Drift(dir: Directory, subject: Subject, activeUsers: set<string>)
    | Rebuild
    | Begin(session: nat, actor: Actor, cmd: VoteCommand)
    | Guard(session: nat)
    | Finish(session: nat, revision: Option<nat>)
    | Read(session: nat, command: Command)
    | Reload(session: nat)
    | Look(session: nat)
    | Write(session: nat, cached: bool)

  // ---------------------------------------------------------------- the transactions

  /** invalidate_cycle: the active cycle is looked up before the compare-and-swap and written after it. */
  function CloseLooked(d: Demand, looked: Demand, expected: int): Attempt<Demand> {
    match ActiveCycle(looked)
    case Failed(e) => Failed(e)
    case Done(None) => Done(d)
    case Done(Some(i)) =>
      if i >= |d.cycles| then Failed(CycleMissing)
      else
        match AcquireVersion(d, expected)
        case Failed(e) => Failed(e)
        case Done(acquired) => Done(Closed(acquired, i, Invalidated, acquired.cycles[i].revision))
  }

  /** A vote predicted to complete the quorum finishes only once it holds the guard, one that found its cycle
      stale only once it looked up the cycle to close. */
  predicate MayFinish(x: Session) {
    && x.Voting?
    && (x.intent.plan == Record(true) ==> x.guard.Some?)
    && (x.intent.plan == Close ==> x.looked.Some? && x.intent.cycle < |x.intent.seen.cycles|)
  }

  /** The transaction of a vote. */
  function Conclude(store: Store, x: Session, revision: Option<nat>): Attempt<(Store, Outcome)>
    requires MayFinish(x)
  {
    var Intent(user, cmd, seen, cycle, plan) := x.intent;
    if plan.Record? then FinishVote(store, user, cmd, x.guard, revision)
    else
      match CloseLooked(store.demand, x.looked.value, cmd.expectedVersion)
      case Failed(e) => Failed(e)
      case Done(d) => Done((store.(demand := d),
          CycleInvalidated(d.version, QuorumOf(seen.cycles[cycle].ballots, d.decisions))))
  }

  /** The writing of a row and the hook after it. */
  ghost function Perform(dir: Directory, d: Demand, row: Demand, c: Command, effect: Effect,
      cached: bool): Attempt<Demand> {
    var flushed := Flushed(d, row, c, effect);
    var view := if !cached then flushed.status else if effect.status.Some? then effect.status.value else row.status;
    match Hooked(dir, flushed.(status := view), effect.hook)
    case Failed(e) => Failed(e)
    case Done(h) => Done(h.(status := if h.status == view then flushed.status else h.status))
  }

  predicate Selecting(x: Session) {
    x.Editing? && x.command.SelectAlternative?
  }

  predicate MayWrite(x: Session) {
    x.Editing? && (x.command.SelectAlternative? && x.stale ==> x.looked.Some?)
  }

  /** A chosen alternative writes no row: if it found the cycle outdated, it closes the cycle it looked up under a
      compare-and-swap on the version of its row and opens another; if it then finds none, it only opens one. */
  ghost function Reselected(dir: Directory, d: Demand, x: Session, cached: bool): Attempt<Demand>
    requires Selecting(x) && MayWrite(x)
  {
    var e := d.(subject := x.command.subject);
    if !x.stale then Done(e)
    else if ActiveCycle(x.looked.value) == Done(None) then OpenedUnlocked(dir, e, x.row)
    else
      match CloseLooked(e, x.looked.value, x.row.version)
      case Failed(error) => Failed(error)
      case Done(f) =>
        match InitializeCycle(dir, f.(status := if cached then x.row.status else f.status), f.version)
        case Failed(error) => Failed(error)
        case Done(h) => Done(h.(status := f.status))
  }

  /** The initialization of a session that holds no lock until the compare-and-swap. */
  ghost function OpenedUnlocked(dir: Directory, d: Demand, row: Demand): Attempt<Demand> {
    if row.status != Submitted then Failed(RequestNotSubmitted)
    else
      match NewCycle(dir, d.subject)
      case Err(e) => Failed(RoutingFailed(e))
      case Ok(snapshot) => if d.version != row.version then Failed(DemandVersionConflict) else Done(Opened(d, snapshot))
  }

  /** The transaction of a command. */
  ghost function Written(dir: Directory, d: Demand, x: Session, cached: bool): Attempt<Demand>
    requires MayWrite(x)
  {
    if Selecting(x) then Reselected(dir, d, x, cached)
    else
      match EffectOf(x.command, x.read.status)
      case Failed(e) => Failed(e)
      case Done(effect) =>
        if SwapVersion(x.command).Some? && SwapVersion(x.command).value != d.version then Failed(DemandVersionConflict)
        else Perform(dir, d, x.row, x.command, effect, cached)
  }

  // ---------------------------------------------------------------- steps

  function WithoutSession(w: World, s: nat): World {
    w.(sessions := w.sessions - {s}, holder := if w.holder == Some(s) then None else w.holder)
  }

  /** The session a vote starts with. */
  function Begun(store: Store, actor: Actor, cmd: VoteCommand): Session
    requires BeginVote(store, actor, cmd).Done?
  {
    var user := actor.id.value;
    Voting(Intent(user, cmd, store.demand, ReadCycle(store.demand, user, cmd).value.cycle,
        BeginVote(store, actor, cmd).value),
           None, None)
  }

  function BeginSession(w: World, s: nat, actor: Actor, cmd: VoteCommand): World {
    if s in w.sessions || BeginVote(w.store, actor, cmd).Failed? then w
    else w.(sessions := w.sessions[s := Begun(w.store, actor, cmd)])
  }

  predicate WantsGuard(w: World, s: nat) {
    && s in w.sessions && w.sessions[s].Voting? && w.sessions[s].intent.plan == Record(true)
    && w.sessions[s].guard.None? && w.holder.None?
  }

  function GuardSession(w: World, s: nat): World {
    if !WantsGuard(w, s) then w
    else
      match AcquirePlanning(w.store.planning, w.sessions[s].intent.cmd.expectedPlanning)
      case Failed(_) => WithoutSession(w, s)
      case Done(version) => w.(holder := Some(s), sessions := w.sessions[s := w.sessions[s].(guard := Some(version))])
  }

  function FinishSession(w: World, s: nat, revision: Option<nat>): World {
    if s !in w.sessions || !MayFinish(w.sessions[s]) then w
    else
      match Conclude(w.store, w.sessions[s], revision)
      case Failed(_) => WithoutSession(w, s)
      case Done((store, _)) => WithoutSession(w, s).(store := store)
  }

  /** The reading a command is checked on. */
  function ReadSession(w: World, s: nat, c: Command): World {
    if s in w.sessions || Refusing(w.store.demand, c).Some? || Idle(c) then w
    else w.(sessions := w.sessions[s := Editing(c, w.store.demand, w.store.demand, false, None)])
  }

  /** A session may read its row again before it writes, except a change of contact, which reads it once. */
  function ReloadSession(w: World, s: nat): World {
    if s !in w.sessions || !w.sessions[s].Editing? || w.sessions[s].command.OverrideContact? then w
    else w.(sessions := w.sessions[s := w.sessions[s].(row := w.store.demand, looked := None)])
  }

  /** A chosen alternative finds the active cycle outdated. */
  predicate Outdated(x: Session, d: Demand)
    requires Selecting(x)
  {
    && x.read.status == Submitted && x.row.status == Submitted
    && ActiveCycle(d).Done? && ActiveCycle(d).value.Some?
    && !Matches(d.cycles[ActiveCycle(d).value.value].snapshot, x.command.subject)
  }

  function Looked(x: Session, d: Demand): Session {
    if x.Voting? then Voting(x.intent, x.guard, Some(d))
    else if !Selecting(x) then x
    else
      var stale := x.stale || Outdated(x, d);
      Editing(x.command, x.read, x.row, stale, if stale then Some(d) else None)
  }

  function LookSession(w: World, s: nat): World {
    if s !in w.sessions then w
    else w.(sessions := w.sessions[s := Looked(w.sessions[s], w.store.demand)])
  }

  ghost function WriteSession(w: World, s: nat, cached: bool): World {
    if s !in w.sessions || !MayWrite(w.sessions[s]) then w
    else
      match Written(w.dir, w.store.demand, w.sessions[s], cached)
      case Failed(_) => WithoutSession(w, s)
      case Done(d) => WithoutSession(w, s).(store := w.store.(demand := d))
  }

  function Drifted(w: World, dir: Directory, subject: Subject, activeUsers: set<string>): World {
    w.(dir := dir, store := w.store.(demand := w.store.demand.(subject := subject), activeUsers := activeUsers))
  }

  /** Another planning mutation: it needs the guard. */
  function Rebuilt(w: World): World {
    if w.holder.Some? then w else w.(store := w.store.(planning := w.store.planning + 1))
  }

  /** A step that is not enabled, or that is refused, leaves the stored state as it was. */
  ghost function Next(w: World, step: Step): World {
    match step
    case Drift(dir, subject, activeUsers) => Drifted(w, dir, subject, activeUsers)
    case Rebuild => Rebuilt(w)
    case Begin(s, actor, cmd) => BeginSession(w, s, actor, cmd)
    case Guard(s) => GuardSession(w, s)
    case Finish(s, revision) => FinishSession(w, s, revision)
    case Read(s, c) => ReadSession(w, s, c)
    case Reload(s) => ReloadSession(w, s)
    case Look(s) => LookSession(w, s)
    case Write(s, cached) => WriteSession(w, s, cached)
  }

  ghost function After(w: World, steps: seq<Step>): World {
    if steps == [] then w else Next(After(w, steps[..|steps| - 1]), steps[|steps| - 1])
  }

  /** A demand before its first submission. */
  ghost predicate IsNew(w: World) {
    && w.store.demand.version >= 1 && w.store.demand.cycles == [] && w.store.demand.decisions == []
    && w.store.materialized == [] && w.sessions == map[] && w.holder == None
  }

  // ---------------------------------------------------------------- the invariant of every run

  /** A finalization stands for a closed cycle, with its revision, whose every requirement a frozen approver
      approved. */
  ghost predicate Finalization(d: Demand, m: Materialization, i: nat) {
    && i < |d.cycles| && d.cycles[i].id == m.cycleId && d.cycles[i].state != Open
    && d.cycles[i].revision == Some(m.revision)
    && d.cycles[i].ballots != [] && forall b :: b in d.cycles[i].ballots ==> Satisfied(b, d.decisions)
  }

  ghost predicate Finalized(d: Demand, m: Materialization) {
    exists i: nat :: Finalization(d, m, i)
  }

  ghost predicate Entered(materialized: seq<Materialization>, cycleId: nat) {
    exists k :: 0 <= k < |materialized| && materialized[k].cycleId == cycleId
  }

  /** No cycle twice, and a planning version of its own for each. */
  ghost predicate Separate(materialized: seq<Materialization>, planning: nat) {
    && (forall j, k :: 0 <= j < k < |materialized| ==>
          && materialized[j].cycleId != materialized[k].cycleId
          && materialized[j].planningVersion < materialized[k].planningVersion)
    && (forall k :: 0 <= k < |materialized| ==> materialized[k].planningVersion <= planning)
  }

  /** Every finalization had its complete quorum, every completed cycle its finalization. */
  ghost predicate Booked(store: Store) {
    && (forall m :: m in store.materialized ==> Finalized(store.demand, m))
    && (forall id :: id in CompletedIds(store.demand.cycles) ==> Entered(store.materialized, id))
    && Separate(store.materialized, store.planning)
  }

  ghost predicate StoreGrows(a: Store, b: Store) {
    Grows(a.demand, b.demand) && a.materialized <= b.materialized && a.planning <= b.planning
  }

  predicate HasGuard(x: Session) {
    x.Voting? && x.guard.Some?
  }

  ghost predicate Holding(w: World) {
    && (forall s :: s in w.sessions && HasGuard(w.sessions[s]) ==>
          w.holder == Some(s) && w.sessions[s].guard.value == w.store.planning + 1)
    && (w.holder.Some? ==> w.holder.value in w.sessions && HasGuard(w.sessions[w.holder.value]))
  }

  ghost predicate Safe(w: World) {
    Coherent(w.store.demand) && Booked(w.store) && Holding(w)
  }

  /** A change that completes no cycle. */
  ghost predicate Grown(a: Demand, b: Demand) {
    Coherent(b) && Grows(a, b) && CompletedIds(b.cycles) <= CompletedIds(a.cycles)
  }

  // ---------------------------------------------------------------- what a transaction keeps in any case

  lemma FinalizationStays(a: Demand, b: Demand, m: Materialization)
    requires Finalized(a, m) && Grows(a, b)
    ensures Finalized(b, m)
  {
    var i: nat :| Finalization(a, m, i);
    assert Follows(a.cycles[i], b.cycles[i]);
    forall x | x in b.cycles[i].ballots ensures Satisfied(x, b.decisions) {
      SatisfiedIsMonotone(x, a.decisions, b.decisions);
    }
    assert Finalization(b, m, i);
  }

  lemma BooksStay(a: Store, b: Store)
    requires Booked(a) && Grows(a.demand, b.demand) && CompletedIds(b.demand.cycles) <= CompletedIds(a.demand.cycles)
    requires a.materialized == b.materialized && a.planning <= b.planning
    ensures Booked(b)
  {
    forall m | m in b.materialized ensures Finalized(b.demand, m) {
      FinalizationStays(a.demand, b.demand, m);
    }
  }

  lemma ClosingLookedGrows(d: Demand, looked: Demand, expected: int)
    requires Coherent(d) && CloseLooked(d, looked, expected).Done?
    ensures var r := CloseLooked(d, looked, expected).value;
            Grown(d, r) && r.status == d.status && r.subject == d.subject && (OneOpen(d.cycles) ==> OneOpen(r.cycles))
  {
    if ActiveCycle(looked).value.Some? {
      var i := ActiveCycle(looked).value.value;
      ClosingGrows(d.(version := d.version + 1), i, Invalidated, d.cycles[i].revision);
    }
  }

  lemma PerformGrows(dir: Directory, d: Demand, row: Demand, c: Command, effect: Effect, cached: bool)
    requires Coherent(d) && Perform(dir, d, row, c, effect, cached).Done?
    ensures var r := Perform(dir, d, row, c, effect, cached).value;
            Grown(d, r) && Lasts(d, r) && (OneOpen(d.cycles) ==> OneOpen(r.cycles))
  {
    var flushed := Flushed(d, row, c, effect);
    var view := if !cached then flushed.status else if effect.status.Some? then effect.status.value else row.status;
    var h := Hooked(dir, flushed.(status := view), effect.hook).value;
    FlushKeeps(d, row, c, effect);
    HooksKeep(dir, flushed.(status := view), effect.hook);
    LastingComposes(d, flushed.(status := view), h);
    LastingGrows(d, h);
    OnlyStatus(d, h, Perform(dir, d, row, c, effect, cached).value);
  }

  lemma OnlyStatus(d: Demand, h: Demand, r: Demand)
    requires Grown(d, h) && Lasts(d, h) && r == h.(status := r.status)
    ensures Grown(d, r) && Lasts(d, r)
  {
  }

  /** A session that finds no cycle to close opens one although another was opened since. */
  ghost predicate Overtaken(x: Session, d: Demand) {
    Selecting(x) && x.stale && x.looked.Some? && ActiveCycle(x.looked.value) == Done(None) &&
        ActiveCycle(d) != Done(None)
  }

  lemma ReselectionGrows(dir: Directory, d: Demand, x: Session, cached: bool)
    requires Coherent(d) && Selecting(x) && MayWrite(x) && Reselected(dir, d, x, cached).Done?
    ensures var r := Reselected(dir, d, x, cached).value;
            Grown(d, r) && (OneOpen(d.cycles) && !Overtaken(x, d) ==> OneOpen(r.cycles))
  {
    var e := d.(subject := x.command.subject);
    if x.stale && ActiveCycle(x.looked.value) == Done(None) {
      OpeningKeeps(e, NewCycle(dir, e.subject).value);
      LastingGrows(e, Reselected(dir, d, x, cached).value);
    } else if x.stale {
      ClosingLookedGrows(e, x.looked.value, x.row.version);
      var f := CloseLooked(e, x.looked.value, x.row.version).value;
      var viewed := f.(status := if cached then x.row.status else f.status);
      InitializingKeeps(dir, viewed, f.version);
      LastingGrows(viewed, InitializeCycle(dir, viewed, f.version).value);
      GrowthComposes(d, f, Reselected(dir, d, x, cached).value);
    }
  }

  /** No command completes a cycle, whatever it read. */
  lemma CommandsGrow(dir: Directory, d: Demand, x: Session, cached: bool)
    requires Coherent(d) && MayWrite(x) && Written(dir, d, x, cached).Done?
    ensures var r := Written(dir, d, x, cached).value;
            Grown(d, r) && (OneOpen(d.cycles) && !Overtaken(x, d) ==> OneOpen(r.cycles))
  {
    if Selecting(x) {
      ReselectionGrows(dir, d, x, cached);
    } else {
      PerformGrows(dir, d, x.row, x.command, EffectOf(x.command, x.read.status).value, cached);
    }
  }

  // ---------------------------------------------------------------- votes

  /** Recording an action of a user on targets he is a frozen approver of. */
  lemma RecordingKeeps(d: Demand, user: string, i: nat, targets: set<nat>)
    requires Coherent(d) && i < |d.cycles| && MayVote(d.cycles[i].ballots, user, targets)
    ensures Coherent(Recording(d, user, Ready(i, targets))) && Lasts(d, Recording(d, user, Ready(i, targets)))
  {
    var ballots := d.cycles[i].ballots;
    var added := Approvals(ballots, targets, user, d.nextId);
    ApprovalsAreBallots(ballots, targets, user, d.nextId);
    forall x | x in added ensures Legitimate(d.cycles, x) {
      var b :| b in ballots && b.id == x.requirement;
      var k :| 0 <= k < |ballots| && ballots[k] == b;
      assert FrozenApprover(d.cycles[i], x);
    }
  }

  /** The state a successful vote leaves, by its outcome. */
  lemma VoteResult(store: Store, user: string, cmd: VoteCommand, guard: Option<nat>, revision: Option<nat>)
    returns (voted: Demand, i: nat, targets: set<nat>)
    requires FinishVote(store, user, cmd, guard, revision).Done?
    ensures store.demand.version == cmd.expectedVersion
    ensures i < |store.demand.cycles| && ActiveCycle(store.demand) == Done(Some(i))
    ensures MayVote(store.demand.cycles[i].ballots, user, targets)
    ensures voted == Recording(store.demand.(version := store.demand.version + 1), user, Ready(i, targets))
    ensures var r := FinishVote(store, user, cmd, guard, revision).value;
            if !CurrentQuorum(voted, i).Complete()
            then r == (store.(demand := voted), Recorded(voted.version, CurrentQuorum(voted, i)))
            else && guard.Some? && revision.Some? && voted.status == Submitted
                 && r.0.demand == Closed(voted, i, Completed, revision).(status := Planned, approvedAt := true)
                 && r.0.planning == guard.value && r.0.activeUsers == store.activeUsers
                 && r.0.materialized ==
                      store.materialized + [Materialization(store.demand.cycles[i].id, guard.value, revision.value)]
  {
    var d := store.demand.(version := store.demand.version + 1);
    var r := ReadCycle(d, user, cmd).value;
    assert ActiveCycle(d) == ActiveCycle(store.demand);
    i, targets := r.cycle, r.targets;
    voted := Recording(d, user, r);
  }

  lemma CompleteMeansAllSatisfied(ballots: seq<Ballot>, decisions: seq<Decision>)
    requires QuorumOf(ballots, decisions).Complete()
    ensures ballots != [] && forall b :: b in ballots ==> Satisfied(b, decisions)
  {
    var quorum := QuorumOf(ballots, decisions);
    assert forall b :: b in ballots && !Satisfied(b, decisions) ==> b.id in quorum.remaining;
  }

  /** Finalizations stand for closed cycles, so none for an open one. */
  lemma OpenIsNotFinal(d: Demand, i: nat, m: Materialization)
    requires Coherent(d) && i < |d.cycles| && d.cycles[i].state == Open && Finalized(d, m)
    ensures m.cycleId != d.cycles[i].id
  {
    var j: nat :| Finalization(d, m, j);
    assert Numbered(d.cycles[i], d.nextId) && Numbered(d.cycles[j], d.nextId);
    assert i != j;
  }

  lemma SeparateFromNew(materialized: seq<Materialization>, planning: nat, m: Materialization)
    requires Separate(materialized, planning) && m.planningVersion == planning + 1
    requires forall x :: x in materialized ==> x.cycleId != m.cycleId
    ensures Separate(materialized + [m], planning + 1)
  {
  }

  lemma EnteredStays(materialized: seq<Materialization>, m: Materialization, cycleId: nat)
    requires Entered(materialized, cycleId) || m.cycleId == cycleId
    ensures Entered(materialized + [m], cycleId)
  {
    if m.cycleId == cycleId {
      assert (materialized + [m])[|materialized|] == m;
    } else {
      var k :| 0 <= k < |materialized| && materialized[k].cycleId == cycleId;
      assert (materialized + [m])[k] == materialized[k];
    }
  }

  /** Completing the open cycle adds one finalization, under a planning version above all others. */
  lemma CompletingKeepsBooks(store: Store, after: Store, i: nat, m: Materialization)
    requires Booked(store) && Coherent(store.demand) && Grows(store.demand, after.demand)
    requires i < |store.demand.cycles| && store.demand.cycles[i].state == Open
    requires forall c :: c in after.demand.cycles && c.id != m.cycleId ==> c in store.demand.cycles
    requires m.cycleId == store.demand.cycles[i].id && Finalized(after.demand, m)
    requires after.materialized == store.materialized + [m]
    requires m.planningVersion == store.planning + 1 == after.planning
    ensures Booked(after)
  {
    forall x | x in after.materialized ensures Finalized(after.demand, x) {
      if x in store.materialized { FinalizationStays(store.demand, after.demand, x); }
    }
    forall x | x in store.materialized ensures x.cycleId != m.cycleId { OpenIsNotFinal(store.demand, i, x); }
    SeparateFromNew(store.materialized, store.planning, m);
    forall id | id in CompletedIds(after.demand.cycles) ensures Entered(after.materialized, id) {
      EnteredStays(store.materialized, m, id);
    }
  }

  /** What a vote keeps, in any run: coherence, the books, closed cycles; and it moves the version by one. */
  ghost predicate VoteKeeps(store: Store, after: Store) {
    && Coherent(after.demand) && Booked(after) && Lasts(store.demand, after.demand)
    && after.demand.version == store.demand.version + 1 && store.materialized <= after.materialized
    && (OneOpen(store.demand.cycles) ==> OneOpen(after.demand.cycles))
    && (OpenIsSubmitted(store.demand) ==> OpenIsSubmitted(after.demand))
  }

  lemma VotesKeep(store: Store, user: string, cmd: VoteCommand, guard: Option<nat>, revision: Option<nat>)
    requires Coherent(store.demand) && Booked(store) && FinishVote(store, user, cmd, guard, revision).Done?
    requires guard.Some? ==> guard.value == store.planning + 1
    ensures var r := FinishVote(store, user, cmd, guard, revision).value.0;
            VoteKeeps(store, r) && (r.planning == store.planning || guard == Some(r.planning))
  {
    var after := FinishVote(store, user, cmd, guard, revision).value.0;
    var voted, i, targets := VoteResult(store, user, cmd, guard, revision);
    RecordingKeeps(store.demand.(version := store.demand.version + 1), user, i, targets);
    if CurrentQuorum(voted, i).Complete() {
      CompletionKeeps(store, after, voted, i, guard.value, revision.value);
    } else {
      LastingGrows(store.demand, voted);
      BooksStay(store, after);
    }
  }

  /** The demand after its active cycle is completed. */
  lemma CompletedDemand(d: Demand, voted: Demand, i: nat, revision: nat)
    requires Coherent(voted) && Lasts(d, voted) && voted.cycles == d.cycles && ActiveCycle(d) == Done(Some(i))
    ensures var after := Closed(voted, i, Completed, Some(revision)).(status := Planned, approvedAt := true);
            Coherent(after) && Lasts(d, after) && Grows(d, after) && OneOpen(after.cycles) && OpenIsSubmitted(after)
  {
    var closed := Closed(voted, i, Completed, Some(revision));
    assert ActiveCycle(voted) == ActiveCycle(d);
    ClosingKeeps(voted, i, Completed, Some(revision));
    LastingComposes(d, voted, closed);
    LastingGrows(d, closed);
    ActiveCycleExactly(closed);
  }

  lemma CompletionKeeps(store: Store, after: Store, voted: Demand, i: nat, guard: nat, revision: nat)
    requires Coherent(store.demand) && Booked(store) && Coherent(voted) && Lasts(store.demand, voted)
    requires voted.version == store.demand.version + 1 && voted.cycles == store.demand.cycles
    requires ActiveCycle(store.demand) == Done(Some(i)) && CurrentQuorum(voted, i).Complete()
    requires after.demand == Closed(voted, i, Completed, Some(revision)).(status := Planned, approvedAt := true)
    requires guard == store.planning + 1 == after.planning
    requires after.materialized == store.materialized + [Materialization(store.demand.cycles[i].id, guard, revision)]
    ensures VoteKeeps(store, after)
  {
    CompletedDemand(store.demand, voted, i, revision);
    CompleteMeansAllSatisfied(voted.cycles[i].ballots, voted.decisions);
    var m := Materialization(store.demand.cycles[i].id, guard, revision);
    assert Finalization(after.demand, m, i);
    CompletingKeepsBooks(store, after, i, m);
  }

  lemma ConclusionGrows(store: Store, x: Session, revision: Option<nat>)
    requires Coherent(store.demand) && Booked(store) && MayFinish(x) && Conclude(store, x, revision).Done?
    requires x.guard.Some? ==> x.guard.value == store.planning + 1
    ensures var after := Conclude(store, x, revision).value.0;
            && Coherent(after.demand) && Booked(after) && StoreGrows(store, after)
            && (OneOpen(store.demand.cycles) ==> OneOpen(after.demand.cycles))
            && (after.planning == store.planning || x.guard == Some(after.planning))
  {
    var after := Conclude(store, x, revision).value.0;
    if x.intent.plan.Close? {
      ClosingLookedGrows(store.demand, x.looked.value, x.intent.cmd.expectedVersion);
      BooksStay(store, after);
    } else {
      VotesKeep(store, x.intent.user, x.intent.cmd, x.guard, revision);
      LastingGrows(store.demand, after.demand);
    }
  }

  // ---------------------------------------------------------------- every step keeps Safe

  lemma LeavingHolds(w: World, s: nat, store: Store)
    requires Holding(w) && s in w.sessions && (store.planning == w.store.planning || HasGuard(w.sessions[s]))
    ensures Holding(WithoutSession(w, s).(store := store))
  {
  }

  /** A step that changes no stored state and moves no guard. */
  lemma SessionHolds(w: World, s: nat, x: Session)
    requires Holding(w) && !HasGuard(x) && (s in w.sessions ==> !HasGuard(w.sessions[s]))
    ensures Holding(w.(sessions := w.sessions[s := x]))
  {
  }

  lemma GuardHolds(w: World, s: nat)
    requires Holding(w)
    ensures Holding(GuardSession(w, s)) && GuardSession(w, s).store == w.store
  {
  }

  lemma LookHolds(w: World, s: nat)
    requires Holding(w)
    ensures Holding(LookSession(w, s)) && LookSession(w, s).store == w.store
  {
  }

  lemma RebuildHolds(w: World)
    requires Holding(w)
    ensures Holding(Rebuilt(w))
  {
  }

  lemma FinishIsSafe(w: World, s: nat, revision: Option<nat>)
    requires Safe(w)
    ensures Safe(FinishSession(w, s, revision)) && StoreGrows(w.store, FinishSession(w, s, revision).store)
    ensures OneOpen(w.store.demand.cycles) ==> OneOpen(FinishSession(w, s, revision).store.demand.cycles)
  {
    if s in w.sessions && MayFinish(w.sessions[s]) {
      var r := Conclude(w.store, w.sessions[s], revision);
      if r.Done? { ConclusionGrows(w.store, w.sessions[s], revision); }
      LeavingHolds(w, s, if r.Done? then r.value.0 else w.store);
    }
  }

  lemma WriteIsSafe(w: World, s: nat, cached: bool)
    requires Safe(w)
    ensures Safe(WriteSession(w, s, cached)) && StoreGrows(w.store, WriteSession(w, s, cached).store)
    ensures OneOpen(w.store.demand.cycles) && (s in w.sessions ==> !Overtaken(w.sessions[s], w.store.demand)) ==>
              OneOpen(WriteSession(w, s, cached).store.demand.cycles)
  {
    if s in w.sessions && MayWrite(w.sessions[s]) {
      var r := Written(w.dir, w.store.demand, w.sessions[s], cached);
      var after := if r.Done? then w.store.(demand := r.value) else w.store;
      if r.Done? {
        CommandsGrow(w.dir, w.store.demand, w.sessions[s], cached);
        BooksStay(w.store, after);
      }
      LeavingHolds(w, s, after);
    }
  }

  lemma DriftIsSafe(w: World, dir: Directory, subject: Subject, activeUsers: set<string>)
    requires Safe(w)
    ensures Safe(Drifted(w, dir, subject, activeUsers)) &&
            StoreGrows(w.store, Drifted(w, dir, subject, activeUsers).store)
  {
    BooksStay(w.store, Drifted(w, dir, subject, activeUsers).store);
  }

  lemma RebuildIsSafe(w: World)
    requires Safe(w)
    ensures Safe(Rebuilt(w)) && StoreGrows(w.store, Rebuilt(w).store)
  {
    RebuildHolds(w);
    BooksStay(w.store, Rebuilt(w).store);
  }

  /** The steps that only change sessions. */
  predicate InSession(step: Step) {
    step.Begin? || step.Guard? || step.Read? || step.Reload? || step.Look?
  }

  lemma SessionStepHolds(w: World, step: Step)
    requires Holding(w) && InSession(step)
    ensures Holding(Next(w, step)) && Next(w, step).store == w.store
  {
    match step
    case Begin(s, actor, cmd) =>
      if s !in w.sessions && BeginVote(w.store, actor, cmd).Done? { SessionHolds(w, s, Begun(w.store, actor, cmd)); }
    case Guard(s) => GuardHolds(w, s);
    case Read(s, c) =>
      if s !in w.sessions { SessionHolds(w, s, Editing(c, w.store.demand, w.store.demand, false, None)); }
    case Reload(s) =>
      if s in w.sessions && w.sessions[s].Editing? {
        SessionHolds(w, s, w.sessions[s].(row := w.store.demand, looked := None));
      }
    case Look(s) => LookHolds(w, s);
  }

  lemma QuietStepIsSafe(w: World, step: Step)
    requires Safe(w) && !step.Finish? && !step.Write?
    ensures Safe(Next(w, step)) && StoreGrows(w.store, Next(w, step).store)
    ensures Next(w, step).store.demand == w.store.demand.(subject := Next(w, step).store.demand.subject)
  {
    match step
    case Drift(dir, subject, activeUsers) => DriftIsSafe(w, dir, subject, activeUsers);
    case Rebuild => RebuildIsSafe(w);
    case _ => SessionStepHolds(w, step);
  }

  lemma NextIsSafe(w: World, step: Step)
    requires Safe(w)
    ensures Safe(Next(w, step)) && StoreGrows(w.store, Next(w, step).store)
  {
    match step
    case Finish(s, revision) => FinishIsSafe(w, s, revision);
    case Write(s, cached) => WriteIsSafe(w, s, cached);
    case _ => QuietStepIsSafe(w, step);
  }

  // ---------------------------------------------------------------- every run

  lemma {:induction false} RunsAreSafe(w: World, steps: seq<Step>)
    requires Safe(w)
    ensures Safe(After(w, steps)) && StoreGrows(w.store, After(w, steps).store)
    decreases |steps|
  {
    if steps != [] {
      var before := steps[..|steps| - 1];
      RunsAreSafe(w, before);
      NextIsSafe(After(w, before), steps[|steps| - 1]);
      GrowthComposes(w.store.demand, After(w, before).store.demand, After(w, steps).store.demand);
    }
  }

  lemma NewDemandIsSafe(w: World)
    requires IsNew(w)
    ensures Safe(w)
  {
  }

  /** The safety of every run of a new demand, however its transactions interleave: decisions come from frozen
      approvers only, no cycle is finalized twice, each finalization has a planning version of its own, above the
      earlier ones, and stands for a closed cycle whose every requirement was approved, and every completed cycle
      was finalized. */
  lemma EveryRunIsSafe(w: World, steps: seq<Step>)
    requires IsNew(w)
    ensures var d, log := After(w, steps).store.demand, After(w, steps).store.materialized;
            && (forall x :: x in d.decisions ==> Legitimate(d.cycles, x))
            && (forall m :: m in log ==> Finalized(d, m))
            && (forall id :: id in CompletedIds(d.cycles) ==> Entered(log, id))
            && (forall j, k :: 0 <= j < k < |log| ==>
                  log[j].cycleId != log[k].cycleId && log[j].planningVersion < log[k].planningVersion)
  {
    NewDemandIsSafe(w);
    RunsAreSafe(w, steps);
  }

  /** What is satisfied in a cycle stays satisfied in every later state. */
  lemma SatisfiedNeverShrinks(a: Demand, b: Demand, i: nat)
    requires Grows(a, b) && i < |a.cycles|
    ensures CurrentQuorum(a, i).satisfied <= CurrentQuorum(b, i).satisfied
  {
    assert Follows(a.cycles[i], b.cycles[i]);
    forall r | r in CurrentQuorum(a, i).satisfied ensures r in CurrentQuorum(b, i).satisfied {
      var x :| x in a.cycles[i].ballots && Satisfied(x, a.decisions) && x.id == r;
      SatisfiedIsMonotone(x, a.decisions, b.decisions);
    }
  }

  lemma SatisfiedSurvivesRuns(w: World, steps: seq<Step>, i: nat)
    requires Safe(w) && i < |w.store.demand.cycles|
    ensures i < |After(w, steps).store.demand.cycles|
    ensures CurrentQuorum(w.store.demand, i).satisfied <= CurrentQuorum(After(w, steps).store.demand, i).satisfied
  {
    RunsAreSafe(w, steps);
    SatisfiedNeverShrinks(w.store.demand, After(w, steps).store.demand, i);
  }

  /** Only the vote that holds the planning guard finalizes, and under the version of its guard. */
  lemma OnlyTheHolderMaterializes(w: World, step: Step) returns (cycleId: nat)
    requires Safe(w) && Next(w, step).store.materialized != w.store.materialized
    ensures step.Finish? && w.holder == Some(step.session) && step.revision.Some?
    ensures Next(w, step).store.materialized ==
              w.store.materialized + [Materialization(cycleId, w.store.planning + 1, step.revision.value)]
  {
    if step.Finish? {
      cycleId := FinishMaterializes(w, step.session, step.revision);
    } else {
      OtherStepsKeepTheLog(w, step);
    }
  }

  lemma FinishMaterializes(w: World, s: nat, revision: Option<nat>) returns (cycleId: nat)
    requires Holding(w) && FinishSession(w, s, revision).store.materialized != w.store.materialized
    ensures w.holder == Some(s) && revision.Some?
    ensures FinishSession(w, s, revision).store.materialized ==
              w.store.materialized + [Materialization(cycleId, w.store.planning + 1, revision.value)]
  {
    var x := w.sessions[s];
    var voted, i, targets := VoteResult(w.store, x.intent.user, x.intent.cmd, x.guard, revision);
    assert HasGuard(x);
    cycleId := w.store.demand.cycles[i].id;
  }

  lemma OtherStepsKeepTheLog(w: World, step: Step)
    requires !step.Finish?
    ensures Next(w, step).store.materialized == w.store.materialized
  {
  }

  // ---------------------------------------------------------------- the view of every run

  lemma NumberedAreDistinct(d: Demand, i: nat)
    requires Coherent(d) && i < |d.cycles|
    ensures DistinctIds(d.cycles[i].ballots)
  {
    assert Numbered(d.cycles[i], d.nextId);
  }

  /** In every state any run of a new demand can reach, the view and the voting command agree: while the active
      cycle matches its subject, a requirement not yet satisfied is shown to an actor as approvable exactly when a
      vote of his on it, at the current version, passes every check. */
  lemma ViewAgreesInEveryRun(w: World, steps: seq<Step>, actor: Actor, b: Ballot, planning: Option<int>)
    requires IsNew(w)
    requires var d := After(w, steps).store.demand;
             && ActiveCycle(d).Done? && ActiveCycle(d).value.Some? && b in d.cycles[ActiveCycle(d).value.value].ballots
             && Matches(d.cycles[ActiveCycle(d).value.value].snapshot, d.subject)
    ensures var store := After(w, steps).store;
            var i := ActiveCycle(store.demand).value.value;
            var view := ProgressView(store.demand, store.activeUsers, actor);
            && view.Done? && view.value.Some?
            && (b.id in view.value.value.requirementIds <==>
                  && !Satisfied(b, store.demand.decisions)
                  && BeginVote(store, actor, SingleVote(store.demand, i, b.id, store.demand.version, planning)).Done?)
  {
    NewDemandIsSafe(w);
    RunsAreSafe(w, steps);
    var store := After(w, steps).store;
    NumberedAreDistinct(store.demand, ActiveCycle(store.demand).value.value);
    ViewAgreesWithVote(store, actor, b, planning);
  }

  /** And a vote on what is shown, with nothing in between, is accepted or closes a stale cycle; only the planning
      guard and the materialization can refuse it. */
  lemma ShownIsAcceptedInEveryRun(w: World, steps: seq<Step>, actor: Actor, b: Ballot, planning: Option<int>,
      revision: Option<nat>)
    requires IsNew(w)
    requires var store := After(w, steps).store;
             && ActiveCycle(store.demand).Done? && ActiveCycle(store.demand).value.Some?
             && b in store.demand.cycles[ActiveCycle(store.demand).value.value].ballots
             && ProgressView(store.demand, store.activeUsers, actor).Done?
             && ProgressView(store.demand, store.activeUsers, actor).value.Some?
             && b.id in ProgressView(store.demand, store.activeUsers, actor).value.value.requirementIds
    ensures var store := After(w, steps).store;
            var i := ActiveCycle(store.demand).value.value;
            var r := Vote(store, actor, SingleVote(store.demand, i, b.id, store.demand.version, planning), revision);
            if !Matches(store.demand.cycles[i].snapshot, store.demand.subject)
            then r.Done? && r.value.1.CycleInvalidated? && r.value.0.demand.cycles[i].state == Invalidated
            else || (r.Done? && (r.value.1.Recorded? || r.value.1.Finalized?) && b.id in r.value.1.quorum.satisfied)
                 || r in {Failed(PlanningVersionInvalid), Failed(PlanningVersionConflict), Failed(RevisionMissing)}
  {
    NewDemandIsSafe(w);
    RunsAreSafe(w, steps);
    var store := After(w, steps).store;
    NumberedAreDistinct(store.demand, ActiveCycle(store.demand).value.value);
    ShownIsAccepted(store, actor, b, planning, revision);
  }

  /** And approve_all_eligible is refused for eligibility exactly when no requirement is open to the actor. */
  lemma ApproveAllIsEligibleInEveryRun(
    w: World, steps: seq<Step>, actor: Actor, cycleId: nat, expected: int, planning: Option<int>, revision: Option<nat>)
    requires IsNew(w)
    ensures var store := After(w, steps).store;
            var r := ApproveAllEligible(store, actor, cycleId, expected, planning, revision);
            && r !in {Failed(TargetsRequired), Failed(TargetInvalid)}
            && (r == Failed(ActorNotEligible) <==>
                 && CheckedActor(store.activeUsers, actor).Done? && NamedCycle(store.demand, cycleId).Done?
                 && OpenTo(store.demand.cycles[NamedCycle(store.demand, cycleId).value].ballots, actor.id.value) == {})
  {
    NewDemandIsSafe(w);
    RunsAreSafe(w, steps);
    var store := After(w, steps).store;
    forall i | 0 <= i < |store.demand.cycles| ensures DistinctIds(store.demand.cycles[i].ballots) {
      NumberedAreDistinct(store.demand, i);
    }
    ApproveAllIsEligible(store, actor, cycleId, expected, planning, revision);
  }

  // ---------------------------------------------------------------- runs that nothing interrupts

  function Resulting(store: Store, r: Attempt<(Store, Outcome)>): Store {
    if r.Done? then r.value.0 else store
  }

  /** The store a run leaves after one vote that nothing interrupts. */
  function Uninterrupted(w: World, s: nat, actor: Actor, cmd: VoteCommand, revision: Option<nat>): Store {
    FinishSession(LookSession(GuardSession(BeginSession(w, s, actor, cmd), s), s), s, revision).store
  }

  lemma VoteByConclusion(store: Store, actor: Actor, cmd: VoteCommand, revision: Option<nat>)
    requires BeginVote(store, actor, cmd).Done?
    ensures var x := Begun(store, actor, cmd);
            Vote(store, actor, cmd, revision) ==
              if x.intent.plan != Record(true) then Conclude(store, Looked(x, store.demand), revision)
              else if AcquirePlanning(store.planning, cmd.expectedPlanning).Failed?
              then Failed(AcquirePlanning(store.planning, cmd.expectedPlanning).error)
              else
                Conclude(store, x.(guard := Some(AcquirePlanning(store.planning, cmd.expectedPlanning).value)),
                    revision)
  {
  }

  lemma LookedChangesNoRecording(store: Store, x: Session, revision: Option<nat>)
    requires MayFinish(x) && x.intent.plan.Record?
    ensures MayFinish(Looked(x, store.demand)) &&
            Conclude(store, Looked(x, store.demand), revision) == Conclude(store, x, revision)
  {
  }

  lemma LastSteps(w: World, s: nat, x: Session, revision: Option<nat>)
    requires s in w.sessions && w.sessions[s] == x && x.Voting? && MayFinish(Looked(x, w.store.demand))
    ensures FinishSession(LookSession(w, s), s, revision).store ==
            Resulting(w.store, Conclude(w.store, Looked(x, w.store.demand), revision))
  {
  }

  /** The voting command of the service is the run in which its phases follow one another. */
  lemma VoteIsAnUninterruptedRun(w: World, s: nat, actor: Actor, cmd: VoteCommand, revision: Option<nat>)
    requires s !in w.sessions && w.holder == None
    ensures Uninterrupted(w, s, actor, cmd, revision) == Resulting(w.store, Vote(w.store, actor, cmd, revision))
  {
    if BeginVote(w.store, actor, cmd).Done? {
      var begun, x := BeginSession(w, s, actor, cmd), Begun(w.store, actor, cmd);
      VoteByConclusion(w.store, actor, cmd, revision);
      if x.intent.plan != Record(true) {
        LastSteps(begun, s, x, revision);
      } else if AcquirePlanning(w.store.planning, cmd.expectedPlanning).Done? {
        var guarded := x.(guard := Some(AcquirePlanning(w.store.planning, cmd.expectedPlanning).value));
        LookedChangesNoRecording(w.store, guarded, revision);
        LastSteps(GuardSession(begun, s), s, guarded, revision);
      }
    }
  }

  /** The session of a command that read the current demand, and looked at it if it is a chosen alternative. */
  function Fresh(d: Demand, c: Command): Session {
    Looked(Editing(c, d, d, false, None), d)
  }

  lemma FreshReselection(dir: Directory, d: Demand, c: Command, cached: bool)
    requires c.SelectAlternative? && Refusing(d, c).None? && !Idle(c) && ActiveCycle(d).Done?
    ensures MayWrite(Fresh(d, c)) && Written(dir, d, Fresh(d, c), cached) == Run(dir, d, c)
  {
    var e := d.(subject := c.subject);
    assert ActiveCycle(e) == ActiveCycle(d);
    ActiveCycleExactly(d);
    if Fresh(d, c).stale { InvalidatedStatus(e); }
  }

  lemma InvalidatedStatus(d: Demand)
    requires ActiveCycle(d).Done?
    ensures CloseLooked(d, d, d.version) == InvalidateCycle(d, d.version)
    ensures InvalidateCycle(d, d.version).Done? && InvalidateCycle(d, d.version).value.status == d.status
  {
  }

  /** A session whose row is current writes what the command alone would write. */
  lemma CurrentRowIsEnough(dir: Directory, d: Demand, row: Demand, c: Command, effect: Effect, cached: bool)
    requires row.version == d.version && row.status == d.status
    ensures Perform(dir, d, row, c, effect, cached) == Hooked(dir, Flushed(d, d, c, effect), effect.hook)
  {
    assert Flushed(d, row, c, effect) == Flushed(d, d, c, effect);
  }

  lemma FreshWriting(dir: Directory, d: Demand, c: Command, cached: bool)
    requires !c.SelectAlternative? && Refusing(d, c).None? && !Idle(c)
    ensures MayWrite(Fresh(d, c)) && Written(dir, d, Fresh(d, c), cached) == Run(dir, d, c)
  {
    if EffectOf(c, d.status).Done? { CurrentRowIsEnough(dir, d, d, c, EffectOf(c, d.status).value, cached); }
  }

  /** A command is the run in which its reading and its writing follow one another. */
  lemma CommandIsAnUninterruptedRun(w: World, s: nat, c: Command, cached: bool)
    requires s !in w.sessions && ActiveCycle(w.store.demand).Done?
    ensures WriteSession(LookSession(ReadSession(w, s, c), s), s, cached).store.demand ==
              (var r := Run(w.dir, w.store.demand, c); if r.Done? then r.value else w.store.demand)
  {
    var d := w.store.demand;
    if Refusing(d, c).None? && !Idle(c) {
      if c.SelectAlternative? { FreshReselection(w.dir, d, c, cached); } else { FreshWriting(w.dir, d, c, cached); }
      FreshWrites(w, s, c, cached, Run(w.dir, d, c));
    }
  }

  lemma FreshWrites(w: World, s: nat, c: Command, cached: bool, r: Attempt<Demand>)
    requires s !in w.sessions && Refusing(w.store.demand, c).None? && !Idle(c)
    requires MayWrite(Fresh(w.store.demand, c)) && Written(w.dir, w.store.demand, Fresh(w.store.demand, c), cached) == r
    ensures WriteSession(LookSession(ReadSession(w, s, c), s), s, cached).store.demand ==
              if r.Done? then r.value else w.store.demand
  {
    assert LookSession(ReadSession(w, s, c), s).sessions[s] == Fresh(w.store.demand, c);
  }
}
