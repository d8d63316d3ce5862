/** Three things that hold of every uninterrupted transaction and that an interleaving can break, each with the exact
    steps that break it: at most one cycle is open, closed cycles are final, and a cycle is open only on a submitted
    demand (app/application/demand_service.py, app/application/approval_voting.py,
    app/infrastructure/sql/approval_cycle_repository.py, app/infrastructure/sql/demand_repository.py). */
module ApprovalFaults {
  import opened Options
  import opened ApprovalRouting
  import opened ApprovalCycles
  import opened ApprovalVoting
  import opened ApprovalLifecycle
  import opened ApprovalRuns

  datatype Fault = SecondOpening | Overwriting | Unsubmitted

  /** What a fault breaks between two demands. */
  ghost predicate Upholds(f: Fault, a: Demand, b: Demand) {
    match f
    case SecondOpening => OneOpen(b.cycles)
    case Overwriting => Lasts(a, b)
    case Unsubmitted => OpenIsSubmitted(b)
  }

  /** What it supposes of the demand before. */
  ghost predicate Before(f: Fault, d: Demand) {
    match f
    case SecondOpening => OneOpen(d.cycles)
    case Overwriting => true
    case Unsubmitted => OpenIsSubmitted(d)
  }

  // ---------------------------------------------------------------- the guards that fail

  /** A chosen alternative that found no cycle to close opens one, at the version of its row, next to another that
      was opened since. */
  ghost predicate OpensSecond(dir: Directory, d: Demand, x: Session) {
    && Overtaken(x, d) && x.row.status == Submitted && x.row.version == d.version
    && NewCycle(dir, x.command.subject).Ok?
  }

  /** The active cycle that a session looked up is by now completed. */
  predicate LooksAtCompleted(d: Demand, looked: Demand) {
    && ActiveCycle(looked).Done? && ActiveCycle(looked).value.Some?
    && ActiveCycle(looked).value.value < |d.cycles| && d.cycles[ActiveCycle(looked).value.value].state == Completed
  }

  /** A stale vote that expects the stored version closes it all the same. */
  predicate VoteOverwrites(d: Demand, x: Session) {
    && MayFinish(x) && x.intent.plan == Plan.Close
    && LooksAtCompleted(d, x.looked.value) && x.intent.cmd.expectedVersion == d.version
  }

  /** So does a chosen alternative at the version of its row, if it can then open a cycle. */
  ghost predicate SelectionOverwrites(dir: Directory, d: Demand, x: Session, cached: bool) {
    && Selecting(x) && x.stale && x.looked.Some? && LooksAtCompleted(d, x.looked.value) && x.row.version == d.version
    && (if cached then x.row.status else d.status) == Submitted
    && ActiveCycle(d) == Done(None) && NewCycle(dir, x.command.subject).Ok?
  }

  /** A session that holds a submitted row would open a cycle for a demand that is not submitted any more. */
  ghost predicate TrustsRow(dir: Directory, d: Demand, x: Session) {
    && x.Editing? && x.row.status == Submitted && d.status != Submitted
    && NewCycle(dir, Edited(x.command, d.subject)).Ok?
  }

  /** The hook of a submission, a reapproval or a change of contact does, if it does not read the row again. */
  ghost predicate WriteTrustsRow(dir: Directory, d: Demand, x: Session, cached: bool) {
    && TrustsRow(dir, d, x) && !Selecting(x) && cached
    && (SwapVersion(x.command).Some? ==> SwapVersion(x.command).value == d.version)
    && EffectOf(x.command, x.read.status).Done?
    && var hook := EffectOf(x.command, x.read.status).value.hook;
       hook in {OpenHook, ReopenHook, RenewHook} && (hook == RenewHook ==> d.cycles != [])
  }

  /** So does a chosen alternative, if it found no cycle to close, or closes one without reading the row again. */
  ghost predicate SelectionTrustsRow(dir: Directory, d: Demand, x: Session, cached: bool) {
    && TrustsRow(dir, d, x) && Selecting(x) && x.stale && x.looked.Some? && x.row.version == d.version
    && ActiveCycle(x.looked.value).Done?
    && (ActiveCycle(x.looked.value).value.Some? ==> cached && ActiveCycle(x.looked.value).value.value < |d.cycles|)
  }

  /** The steps at fault. */
  ghost predicate Breaks(f: Fault, w: World, step: Step) {
    && (step.Finish? || step.Write?) && step.session in w.sessions
    && var d, x := w.store.demand, w.sessions[step.session];
       match f
       case SecondOpening => step.Write? && OpensSecond(w.dir, d, x)
       case Overwriting => if step.Finish? then VoteOverwrites(d, x) else SelectionOverwrites(w.dir, d, x, step.cached)
       case Unsubmitted =>
         step.Write? && (WriteTrustsRow(w.dir, d, x, step.cached) || SelectionTrustsRow(w.dir, d, x, step.cached))
  }

  // ---------------------------------------------------------------- a second opening

  lemma SecondOpeningExactly(dir: Directory, d: Demand, x: Session, cached: bool)
    requires Coherent(d) && OneOpen(d.cycles) && MayWrite(x)
    ensures var r := Written(dir, d, x, cached);
            (r.Done? ==> OneOpen(r.value.cycles)) <==> !OpensSecond(dir, d, x)
  {
    var r := Written(dir, d, x, cached);
    if OpensSecond(dir, d, x) {
      ActiveIsLast(d);
      var snapshot := NewCycle(dir, x.command.subject).value;
      assert r == Done(Opened(d.(subject := x.command.subject), snapshot));
      assert r.value.cycles[|d.cycles| - 1].state == Open;
    } else if r.Done? {
      if Overtaken(x, d) { OvertakenOpens(dir, d, x, cached); }
      CommandsGrow(dir, d, x, cached);
    }
  }

  lemma OvertakenOpens(dir: Directory, d: Demand, x: Session, cached: bool)
    requires MayWrite(x) && Overtaken(x, d)
    ensures Written(dir, d, x, cached).Done? <==> OpensSecond(dir, d, x)
  {
  }

  // ---------------------------------------------------------------- an overwritten completion

  lemma ClosingLookedLasts(d: Demand, looked: Demand, expected: int)
    requires CloseLooked(d, looked, expected).Done?
    ensures Lasts(d, CloseLooked(d, looked, expected).value) <==>
              !(LooksAtCompleted(d, looked) && d.version == expected)
  {
    if ActiveCycle(looked).value.Some? {
      var i := ActiveCycle(looked).value.value;
      var r := CloseLooked(d, looked, expected).value;
      assert r.cycles[i] == d.cycles[i].(state := Invalidated);
      assert forall j :: 0 <= j < |d.cycles| && j != i ==> r.cycles[j] == d.cycles[j];
      if d.cycles[i].state != Completed { assert Kept(d.cycles[i], r.cycles[i]); }
    }
  }

  /** Adding a cycle decides nothing. */
  lemma AppendedLasts(d: Demand, f: Demand, h: Demand)
    requires |d.cycles| <= |f.cycles| && f.cycles <= h.cycles && f.decisions == h.decisions && f.nextId <= h.nextId
    requires d.nextId <= f.nextId && d.decisions <= f.decisions
    ensures Lasts(d, f) <==> Lasts(d, h)
  {
    assert forall i :: 0 <= i < |f.cycles| ==> h.cycles[i] == f.cycles[i];
  }

  lemma ClosingKeepsOthersOpen(d: Demand, i: nat)
    requires i < |d.cycles| && d.cycles[i].state == Completed
    ensures ActiveCycle(Closed(d, i, Invalidated, d.cycles[i].revision)) == Done(None) <==> ActiveCycle(d) == Done(None)
  {
    var f := Closed(d, i, Invalidated, d.cycles[i].revision);
    ActiveCycleExactly(d);
    ActiveCycleExactly(f);
    if ActiveCycle(d) == Done(None) { NoneOpen(f.cycles); }
    if ActiveCycle(f) == Done(None) {
      forall j | 0 <= j < |d.cycles| ensures d.cycles[j].state != Open { assert f.cycles[j].state != Open; }
      NoneOpen(d.cycles);
    }
  }

  lemma ClosingLookedFrame(d: Demand, looked: Demand, expected: int)
    requires CloseLooked(d, looked, expected).Done?
    ensures var f := CloseLooked(d, looked, expected).value;
            && f.subject == d.subject && f.status == d.status && f.decisions == d.decisions && f.nextId == d.nextId
            && |f.cycles| == |d.cycles|
  {
  }

  lemma InitializationFrame(dir: Directory, f: Demand, status: Status) returns (h: Demand)
    requires InitializeCycle(dir, f.(status := status), f.version).Done?
    ensures status == Submitted && ActiveCycle(f) == Done(None) && NewCycle(dir, f.subject).Ok?
    ensures h == InitializeCycle(dir, f.(status := status), f.version).value.(status := f.status)
    ensures f.cycles <= h.cycles && f.decisions == h.decisions && f.nextId <= h.nextId && h.status == f.status
    ensures |h.cycles| == |f.cycles| + 1 && h.cycles[|f.cycles|].state == Open
  {
    var viewed := f.(status := status);
    var snapshot := InitializedWith(dir, viewed, f.version);
    assert ActiveCycle(viewed) == ActiveCycle(f);
    h := Opened(viewed, snapshot).(status := f.status);
  }

  /** A chosen alternative that closes what it looked up: the demand in between, and the one it leaves. */
  lemma ReselectionSteps(dir: Directory, d: Demand, x: Session, cached: bool) returns (f: Demand, h: Demand)
    requires Selecting(x) && MayWrite(x) && x.stale && ActiveCycle(x.looked.value) != Done(None)
    requires Reselected(dir, d, x, cached).Done?
    ensures CloseLooked(d.(subject := x.command.subject), x.looked.value, x.row.version) == Done(f)
    ensures f.subject == x.command.subject && f.status == d.status && f.decisions == d.decisions && f.nextId == d.nextId
    ensures |f.cycles| == |d.cycles|
    ensures (if cached then x.row.status else d.status) == Submitted && ActiveCycle(f) == Done(None)
    ensures NewCycle(dir, x.command.subject).Ok?
    ensures h == Reselected(dir, d, x, cached).value && f.cycles <= h.cycles && f.decisions == h.decisions
    ensures f.nextId <= h.nextId && h.status == d.status && |h.cycles| == |d.cycles| + 1
    ensures h.cycles[|d.cycles|].state == Open
  {
    f := CloseLooked(d.(subject := x.command.subject), x.looked.value, x.row.version).value;
    ClosingLookedFrame(d.(subject := x.command.subject), x.looked.value, x.row.version);
    h := InitializationFrame(dir, f, if cached then x.row.status else f.status);
  }

  lemma ReselectionLasts(dir: Directory, d: Demand, x: Session, cached: bool)
    requires Coherent(d) && Selecting(x) && MayWrite(x)
    ensures var r := Reselected(dir, d, x, cached);
            (r.Done? ==> Lasts(d, r.value)) <==> !SelectionOverwrites(dir, d, x, cached)
  {
    var e := d.(subject := x.command.subject);
    if x.stale && ActiveCycle(x.looked.value) == Done(None) {
      if Reselected(dir, d, x, cached).Done? { OpeningKeeps(e, NewCycle(dir, e.subject).value); }
    } else if x.stale {
      if SelectionOverwrites(dir, d, x, cached) { OverwritingSucceeds(dir, d, x, cached); }
      if Reselected(dir, d, x, cached).Done? { ClosingReselectionLasts(dir, d, x, cached); }
    }
  }

  /** Closing what has been completed since leaves as many open cycles as before. */
  lemma CompletedIsClosed(d: Demand, looked: Demand, expected: int) returns (f: Demand)
    requires LooksAtCompleted(d, looked) && d.version == expected
    ensures CloseLooked(d, looked, expected) == Done(f) && f.status == d.status && f.subject == d.subject
    ensures ActiveCycle(f) == Done(None) <==> ActiveCycle(d) == Done(None)
  {
    var i := ActiveCycle(looked).value.value;
    var acquired := d.(version := d.version + 1);
    f := Closed(acquired, i, Invalidated, d.cycles[i].revision);
    assert ActiveCycle(acquired) == ActiveCycle(d);
    ClosingKeepsOthersOpen(acquired, i);
  }

  lemma InitializationSucceeds(dir: Directory, d: Demand, viewed: Demand)
    requires viewed == d.(status := Submitted) && ActiveCycle(d) == Done(None) && NewCycle(dir, d.subject).Ok?
    ensures InitializeCycle(dir, viewed, d.version).Done?
  {
    assert ActiveCycle(viewed) == ActiveCycle(d);
  }

  lemma OverwritingSucceeds(dir: Directory, d: Demand, x: Session, cached: bool)
    requires MayWrite(x) && SelectionOverwrites(dir, d, x, cached)
    ensures Reselected(dir, d, x, cached).Done?
  {
    var e := d.(subject := x.command.subject);
    assert ActiveCycle(e) == ActiveCycle(d);
    var f := CompletedIsClosed(e, x.looked.value, x.row.version);
    InitializationSucceeds(dir, f, f.(status := if cached then x.row.status else f.status));
  }

  lemma ClosingReselectionLasts(dir: Directory, d: Demand, x: Session, cached: bool)
    requires Selecting(x) && MayWrite(x) && x.stale && ActiveCycle(x.looked.value) != Done(None)
    requires Reselected(dir, d, x, cached).Done?
    ensures Lasts(d, Reselected(dir, d, x, cached).value) <==> !SelectionOverwrites(dir, d, x, cached)
  {
    var f, h := ReselectionSteps(dir, d, x, cached);
    ReselectionOverwrites(dir, d, x, cached, f);
    ClosingLookedLasts(d.(subject := x.command.subject), x.looked.value, x.row.version);
    AppendedLasts(d, f, h);
  }

  lemma ReselectionOverwrites(dir: Directory, d: Demand, x: Session, cached: bool, f: Demand)
    requires Selecting(x) && x.stale && x.looked.Some?
    requires CloseLooked(d.(subject := x.command.subject), x.looked.value, x.row.version) == Done(f)
    requires (if cached then x.row.status else d.status) == Submitted && ActiveCycle(f) == Done(None)
    requires NewCycle(dir, x.command.subject).Ok?
    ensures SelectionOverwrites(dir, d, x, cached) <==>
            LooksAtCompleted(d, x.looked.value) && d.version == x.row.version
  {
    if LooksAtCompleted(d, x.looked.value) && d.version == x.row.version {
      var e := d.(subject := x.command.subject);
      var g := CompletedIsClosed(e, x.looked.value, x.row.version);
      assert ActiveCycle(e) == ActiveCycle(d);
    }
  }

  lemma OverwritingExactly(dir: Directory, d: Demand, x: Session, cached: bool)
    requires Coherent(d) && MayWrite(x)
    ensures var r := Written(dir, d, x, cached);
            (r.Done? ==> Lasts(d, r.value)) <==> !SelectionOverwrites(dir, d, x, cached)
  {
    if Selecting(x) {
      ReselectionLasts(dir, d, x, cached);
    } else if Written(dir, d, x, cached).Done? {
      PerformGrows(dir, d, x.row, x.command, EffectOf(x.command, x.read.status).value, cached);
    }
  }

  lemma VoteOverwritesExactly(store: Store, x: Session, revision: Option<nat>)
    requires Coherent(store.demand) && Booked(store) && MayFinish(x)
    requires x.guard.Some? ==> x.guard.value == store.planning + 1
    ensures var r := Conclude(store, x, revision);
            (r.Done? ==> Lasts(store.demand, r.value.0.demand)) <==> !VoteOverwrites(store.demand, x)
  {
    if x.intent.plan.Close? {
      var r := CloseLooked(store.demand, x.looked.value, x.intent.cmd.expectedVersion);
      if r.Done? { ClosingLookedLasts(store.demand, x.looked.value, x.intent.cmd.expectedVersion); }
    } else if Conclude(store, x, revision).Done? {
      VotesKeep(store, x.intent.user, x.intent.cmd, x.guard, revision);
    }
  }

  // ---------------------------------------------------------------- an opening on an unsubmitted demand

  ghost predicate AllClosed(cycles: seq<Cycle>) {
    forall i :: 0 <= i < |cycles| ==> cycles[i].state != Open
  }

  predicate Opening(hook: Hook) {
    hook in {OpenHook, ReopenHook, RenewHook}
  }

  /** Which statuses go with which hooks. */
  ghost predicate Shaped(effect: Effect) {
    && (effect.hook in {OpenHook, RenewHook} ==> effect.status == Some(Submitted))
    && (effect.hook in {ReopenHook, RefreshHook} ==> effect.status == None)
    && (effect.status.Some? && effect.status.value != Submitted ==> effect.hook == CloseHook)
  }

  lemma EffectsAreShaped(c: Command, before: Status)
    requires EffectOf(c, before).Done?
    ensures Shaped(EffectOf(c, before).value)
  {
  }

  /** The status the hook of a command sees, and the one the command leaves in the row. */
  function View(d: Demand, row: Demand, c: Command, effect: Effect, cached: bool): Status {
    if !cached then Flushed(d, row, c, effect).status
    else if effect.status.Some? then effect.status.value else row.status
  }

  /** On a submitted demand the row stays submitted or the cycle is closed. */
  lemma SubmittedStaysOpen(dir: Directory, d: Demand, row: Demand, c: Command, effect: Effect, cached: bool)
    requires Coherent(d) && d.status == Submitted && Shaped(effect) && Perform(dir, d, row, c, effect, cached).Done?
    ensures OpenIsSubmitted(Perform(dir, d, row, c, effect, cached).value)
  {
    var e := Flushed(d, row, c, effect).(status := View(d, row, c, effect, cached));
    FlushKeeps(d, row, c, effect);
    HooksKeep(dir, e, effect.hook);
  }

  /** Without an open cycle only an opening hook leaves one, and only if it sees a submitted demand. */
  lemma HookOpensExactly(dir: Directory, e: Demand, hook: Hook)
    requires AllClosed(e.cycles) && Hooked(dir, e, hook).Done?
    ensures var r := Hooked(dir, e, hook).value;
            !AllClosed(r.cycles) <==>
              && Opening(hook) && (hook == ReopenHook || e.status == Submitted)
              && (hook == RenewHook ==> e.cycles != [])
    ensures !AllClosed(Hooked(dir, e, hook).value.cycles) ==> NewCycle(dir, e.subject).Ok?
    ensures Hooked(dir, e, hook).value.status == (if hook == ReopenHook then Submitted else e.status)
  {
    NoneOpen(e.cycles);
    var u := if hook == ReopenHook then e.(status := Submitted, approvedAt := false) else e;
    assert ActiveCycle(u) == Done(None);
    if Opening(hook) && u.status == Submitted && (hook == RenewHook ==> e.cycles != []) {
      var snapshot := InitializedWith(dir, u, u.version);
      assert Opened(u, snapshot).cycles[|u.cycles|].state == Open;
    }
  }

  lemma RoutedInitializes(dir: Directory, u: Demand)
    requires u.status == Submitted && ActiveCycle(u) == Done(None) && NewCycle(dir, u.subject).Ok?
    ensures InitializeCycle(dir, u, u.version).Done? && InitializeAfterSubmission(dir, u).Done?
    ensures RenewCycle(dir, u).Done?
  {
  }

  lemma HookSucceeds(dir: Directory, e: Demand, hook: Hook)
    requires AllClosed(e.cycles) && Opening(hook) && e.status == Submitted && NewCycle(dir, e.subject).Ok?
    ensures Hooked(dir, e, hook).Done?
  {
    NoneOpen(e.cycles);
    var u := if hook == ReopenHook then e.(status := Submitted, approvedAt := false) else e;
    assert ActiveCycle(u) == Done(None);
    RoutedInitializes(dir, u);
  }

  lemma PerformTrustsExactly(dir: Directory, d: Demand, row: Demand, c: Command, effect: Effect, cached: bool)
    requires AllClosed(d.cycles) && d.status != Submitted && Shaped(effect)
    ensures var r := Perform(dir, d, row, c, effect, cached);
            (r.Done? ==> OpenIsSubmitted(r.value)) <==>
              !(&& cached && row.status == Submitted && NewCycle(dir, Edited(c, d.subject)).Ok?
                && Opening(effect.hook) && (effect.hook == RenewHook ==> d.cycles != []))
  {
    var view := View(d, row, c, effect, cached);
    var e := Flushed(d, row, c, effect).(status := view);
    assert e.cycles == d.cycles && e.subject == Edited(c, d.subject);
    if cached && row.status == Submitted && NewCycle(dir, e.subject).Ok? && Opening(effect.hook) {
      HookSucceeds(dir, e, effect.hook);
    }
    if Hooked(dir, e, effect.hook).Done? { HookOpensExactly(dir, e, effect.hook); }
  }

  lemma WriteUnsubmittedExactly(dir: Directory, d: Demand, x: Session, cached: bool)
    requires Coherent(d) && OpenIsSubmitted(d) && MayWrite(x) && !Selecting(x)
    ensures var r := Written(dir, d, x, cached);
            (r.Done? ==> OpenIsSubmitted(r.value)) <==> !WriteTrustsRow(dir, d, x, cached)
  {
    if EffectOf(x.command, x.read.status).Done? {
      var effect := EffectOf(x.command, x.read.status).value;
      EffectsAreShaped(x.command, x.read.status);
      if d.status == Submitted {
        if Perform(dir, d, x.row, x.command, effect, cached).Done? {
          SubmittedStaysOpen(dir, d, x.row, x.command, effect, cached);
        }
      } else {
        PerformTrustsExactly(dir, d, x.row, x.command, effect, cached);
      }
    }
  }

  lemma SelectionTrustsExactly(dir: Directory, d: Demand, x: Session, cached: bool)
    requires Selecting(x) && MayWrite(x) && d.status != Submitted && AllClosed(d.cycles)
    ensures var r := Reselected(dir, d, x, cached);
            (r.Done? ==> OpenIsSubmitted(r.value)) <==> !SelectionTrustsRow(dir, d, x, cached)
  {
    if x.stale {
      if ActiveCycle(x.looked.value) == Done(None) {
        UnlockedTrustsExactly(dir, d, x, cached);
      } else {
        ClosingTrustsExactly(dir, d, x, cached);
      }
    }
  }

  lemma UnlockedTrustsExactly(dir: Directory, d: Demand, x: Session, cached: bool)
    requires Selecting(x) && MayWrite(x) && d.status != Submitted && AllClosed(d.cycles)
    requires x.stale && ActiveCycle(x.looked.value) == Done(None)
    ensures var r := Reselected(dir, d, x, cached);
            (r.Done? ==> OpenIsSubmitted(r.value)) <==> !SelectionTrustsRow(dir, d, x, cached)
  {
    var r := Reselected(dir, d, x, cached);
    if r.Done? { assert r.value.cycles[|d.cycles|].state == Open; }
  }

  lemma ClosingTrustsExactly(dir: Directory, d: Demand, x: Session, cached: bool)
    requires Selecting(x) && MayWrite(x) && d.status != Submitted && AllClosed(d.cycles)
    requires x.stale && ActiveCycle(x.looked.value) != Done(None)
    ensures var r := Reselected(dir, d, x, cached);
            (r.Done? ==> OpenIsSubmitted(r.value)) <==> !SelectionTrustsRow(dir, d, x, cached)
  {
    if SelectionTrustsRow(dir, d, x, cached) { TrustingSucceeds(dir, d, x); }
    if Reselected(dir, d, x, cached).Done? { ReselectionTrusts(dir, d, x, cached); }
  }

  lemma ReselectionTrusts(dir: Directory, d: Demand, x: Session, cached: bool)
    requires Selecting(x) && MayWrite(x) && d.status != Submitted
    requires x.stale && ActiveCycle(x.looked.value) != Done(None) && Reselected(dir, d, x, cached).Done?
    ensures !OpenIsSubmitted(Reselected(dir, d, x, cached).value) && SelectionTrustsRow(dir, d, x, cached)
  {
    var f, h := ReselectionSteps(dir, d, x, cached);
    LookedAtCurrent(d.(subject := x.command.subject), x.looked.value, x.row.version);
    OpenUnsubmitted(h);
  }

  /** What a closing that succeeds looked at. */
  lemma LookedAtCurrent(e: Demand, looked: Demand, expected: nat)
    requires CloseLooked(e, looked, expected).Done? && ActiveCycle(looked) != Done(None)
    ensures ActiveCycle(looked).Done? && ActiveCycle(looked).value.Some?
    ensures ActiveCycle(looked).value.value < |e.cycles| && expected == e.version
  {
  }

  lemma OpenUnsubmitted(h: Demand)
    requires h.cycles != [] && h.cycles[|h.cycles| - 1].state == Open && h.status != Submitted
    ensures !OpenIsSubmitted(h)
  {
  }

  lemma TrustingSucceeds(dir: Directory, d: Demand, x: Session)
    requires SelectionTrustsRow(dir, d, x, true) && MayWrite(x) && AllClosed(d.cycles)
    requires ActiveCycle(x.looked.value) != Done(None)
    ensures Reselected(dir, d, x, true).Done?
  {
    var e := d.(subject := x.command.subject);
    var f := CloseLooked(e, x.looked.value, x.row.version).value;
    assert AllClosed(f.cycles);
    NoneOpen(f.cycles);
    InitializationSucceeds(dir, f, f.(status := Submitted));
  }

  lemma SelectionSubmitted(dir: Directory, d: Demand, x: Session, cached: bool)
    requires Selecting(x) && MayWrite(x) && Reselected(dir, d, x, cached).Done?
    ensures Reselected(dir, d, x, cached).value.status == d.status
  {
  }

  lemma UnsubmittedExactly(dir: Directory, d: Demand, x: Session, cached: bool)
    requires Coherent(d) && OpenIsSubmitted(d) && MayWrite(x)
    ensures var r := Written(dir, d, x, cached);
            (r.Done? ==> OpenIsSubmitted(r.value)) <==>
              !(WriteTrustsRow(dir, d, x, cached) || SelectionTrustsRow(dir, d, x, cached))
  {
    if !Selecting(x) {
      WriteUnsubmittedExactly(dir, d, x, cached);
    } else if d.status == Submitted {
      if Reselected(dir, d, x, cached).Done? { SelectionSubmitted(dir, d, x, cached); }
    } else {
      SelectionTrustsExactly(dir, d, x, cached);
    }
  }

  lemma ConclusionSubmitted(store: Store, x: Session, revision: Option<nat>)
    requires Coherent(store.demand) && Booked(store) && MayFinish(x) && Conclude(store, x, revision).Done?
    requires x.guard.Some? ==> x.guard.value == store.planning + 1
    ensures OpenIsSubmitted(store.demand) ==> OpenIsSubmitted(Conclude(store, x, revision).value.0.demand)
    ensures OneOpen(store.demand.cycles) ==> OneOpen(Conclude(store, x, revision).value.0.demand.cycles)
  {
    ConclusionGrows(store, x, revision);
    if x.intent.plan.Record? { VotesKeep(store, x.intent.user, x.intent.cmd, x.guard, revision); }
  }

  // ---------------------------------------------------------------- every step

  lemma WriteExactly(f: Fault, dir: Directory, d: Demand, x: Session, cached: bool)
    requires Coherent(d) && Before(f, d) && MayWrite(x)
    ensures var r := Written(dir, d, x, cached);
            (r.Done? ==> Upholds(f, d, r.value)) <==>
              !match f
               case SecondOpening => OpensSecond(dir, d, x)
               case Overwriting => SelectionOverwrites(dir, d, x, cached)
               case Unsubmitted => WriteTrustsRow(dir, d, x, cached) || SelectionTrustsRow(dir, d, x, cached)
  {
    match f
    case SecondOpening => SecondOpeningExactly(dir, d, x, cached);
    case Overwriting => OverwritingExactly(dir, d, x, cached);
    case Unsubmitted => UnsubmittedExactly(dir, d, x, cached);
  }

  lemma SameDemand(f: Fault, d: Demand, e: Demand)
    requires Before(f, d) && e == d.(subject := e.subject)
    ensures Upholds(f, d, e)
  {
  }

  lemma FinishExactly(f: Fault, w: World, s: nat, revision: Option<nat>)
    requires Safe(w) && Before(f, w.store.demand)
    ensures Upholds(f, w.store.demand, FinishSession(w, s, revision).store.demand) <==>
            !Breaks(f, w, Finish(s, revision))
  {
    SameDemand(f, w.store.demand, w.store.demand);
    if s in w.sessions && MayFinish(w.sessions[s]) {
      var x := w.sessions[s];
      VoteOverwritesExactly(w.store, x, revision);
      if Conclude(w.store, x, revision).Done? { ConclusionSubmitted(w.store, x, revision); }
    }
  }

  /** What must hold of a session for its write to be possible is part of each guard. */
  lemma BreakingMayWrite(dir: Directory, d: Demand, x: Session, cached: bool)
    ensures OpensSecond(dir, d, x) ==> MayWrite(x)
    ensures SelectionOverwrites(dir, d, x, cached) ==> MayWrite(x)
    ensures WriteTrustsRow(dir, d, x, cached) || SelectionTrustsRow(dir, d, x, cached) ==> MayWrite(x)
  {
  }

  lemma WriteStepExactly(f: Fault, w: World, s: nat, cached: bool)
    requires Safe(w) && Before(f, w.store.demand)
    ensures Upholds(f, w.store.demand, WriteSession(w, s, cached).store.demand) <==> !Breaks(f, w, Write(s, cached))
  {
    SameDemand(f, w.store.demand, w.store.demand);
    if s in w.sessions {
      BreakingMayWrite(w.dir, w.store.demand, w.sessions[s], cached);
      if MayWrite(w.sessions[s]) { WriteExactly(f, w.dir, w.store.demand, w.sessions[s], cached); }
    }
  }

  /** Each of the three properties is kept by exactly the steps that are not at fault. */
  lemma StepExactly(f: Fault, w: World, step: Step)
    requires Safe(w) && Before(f, w.store.demand)
    ensures Upholds(f, w.store.demand, Next(w, step).store.demand) <==> !Breaks(f, w, step)
  {
    match step
    case Finish(s, revision) => FinishExactly(f, w, s, revision);
    case Write(s, cached) => WriteStepExactly(f, w, s, cached);
    case _ =>
      QuietStepIsSafe(w, step);
      SameDemand(f, w.store.demand, Next(w, step).store.demand);
  }

  // ---------------------------------------------------------------- every run

  ghost predicate Free(f: Fault, w: World, steps: seq<Step>)
    decreases |steps|
  {
    steps == [] ||
    (Free(f, w, steps[..|steps| - 1]) && !Breaks(f, After(w, steps[..|steps| - 1]), steps[|steps| - 1]))
  }

  /** The property held after the k-th step of a run. */
  ghost predicate UpheldAt(f: Fault, w: World, steps: seq<Step>, k: nat)
    requires k < |steps|
  {
    Upholds(f, After(w, steps[..k]).store.demand, After(w, steps[..k + 1]).store.demand)
  }

  ghost predicate AlwaysUpheld(f: Fault, w: World, steps: seq<Step>) {
    forall k: nat :: k < |steps| ==> UpheldAt(f, w, steps, k)
  }

  lemma UpheldInPrefix(f: Fault, w: World, steps: seq<Step>, n: nat, k: nat)
    requires k < n <= |steps|
    ensures UpheldAt(f, w, steps[..n], k) <==> UpheldAt(f, w, steps, k)
  {
    assert steps[..n][..k] == steps[..k] && steps[..n][..k + 1] == steps[..k + 1];
  }

  lemma AlwaysSnoc(f: Fault, w: World, steps: seq<Step>)
    requires steps != []
    ensures AlwaysUpheld(f, w, steps) <==>
              AlwaysUpheld(f, w, steps[..|steps| - 1]) && UpheldAt(f, w, steps, |steps| - 1)
  {
    var n := |steps| - 1;
    forall k: nat | k < n ensures UpheldAt(f, w, steps[..n], k) <==> UpheldAt(f, w, steps, k) {
      UpheldInPrefix(f, w, steps, n, k);
    }
  }

  /** The last step of a run. */
  lemma UpheldLast(f: Fault, w: World, steps: seq<Step>)
    requires steps != [] && Safe(After(w, steps[..|steps| - 1])) &&
             Before(f, After(w, steps[..|steps| - 1]).store.demand)
    ensures UpheldAt(f, w, steps, |steps| - 1) <==> !Breaks(f, After(w, steps[..|steps| - 1]), steps[|steps| - 1])
  {
    var before := After(w, steps[..|steps| - 1]);
    assert steps[..|steps|] == steps;
    StepExactly(f, before, steps[|steps| - 1]);
  }

  lemma UpheldBefore(f: Fault, w: World, steps: seq<Step>)
    requires Before(f, w.store.demand) && AlwaysUpheld(f, w, steps)
    ensures Before(f, After(w, steps).store.demand)
  {
    if steps != [] {
      assert UpheldAt(f, w, steps, |steps| - 1);
      assert steps[..|steps|] == steps;
    }
  }

  /** However the transactions interleave, a run keeps such a property at every moment if and only if none of its
      steps is at fault. */
  lemma {:induction false} RunExactly(f: Fault, w: World, steps: seq<Step>)
    requires Safe(w) && Before(f, w.store.demand)
    ensures AlwaysUpheld(f, w, steps) <==> Free(f, w, steps)
    decreases |steps|
  {
    if steps != [] {
      var before := steps[..|steps| - 1];
      RunExactly(f, w, before);
      AlwaysSnoc(f, w, steps);
      if AlwaysUpheld(f, w, before) {
        RunsAreSafe(w, before);
        UpheldBefore(f, w, before);
        UpheldLast(f, w, steps);
      }
    }
  }

  /** So in the runs of a new demand: after every step only the last cycle can be open, exactly while no step opens a
      second one; every step leaves the closed cycles as they are, exactly while none overwrites a completed one;
      and after every step a cycle is open only on a submitted demand, exactly while none trusts an old row. */
  lemma FaultsAreExact(f: Fault, w: World, steps: seq<Step>)
    requires IsNew(w)
    ensures AlwaysUpheld(f, w, steps) <==> Free(f, w, steps)
    ensures Free(f, w, steps) ==> Before(f, After(w, steps).store.demand)
  {
    NewDemandIsSafe(w);
    RunExactly(f, w, steps);
    if Free(f, w, steps) { UpheldBefore(f, w, steps); }
  }

  ghost predicate OneOpenAfter(w: World, steps: seq<Step>, k: nat)
    requires k <= |steps|
  {
    OneOpen(After(w, steps[..k]).store.demand.cycles)
  }

  /** In plain terms for the first: at every moment of a run of a new demand at most one cycle is open, and it is the
      last, if and only if no chosen alternative is overtaken and opens a second one at the version of its row. */
  lemma OneCycleIsOpen(w: World, steps: seq<Step>)
    requires IsNew(w)
    ensures (forall k: nat :: k <= |steps| ==> OneOpenAfter(w, steps, k)) <==> Free(SecondOpening, w, steps)
  {
    FaultsAreExact(SecondOpening, w, steps);
    forall k: nat | k < |steps| ensures OneOpenAfter(w, steps, k + 1) <==> UpheldAt(SecondOpening, w, steps, k) {
    }
    assert OneOpenAfter(w, steps, 0) by { assert steps[..0] == []; }
    if AlwaysUpheld(SecondOpening, w, steps) {
      forall k: nat | k <= |steps| ensures OneOpenAfter(w, steps, k) {
        if k > 0 { assert UpheldAt(SecondOpening, w, steps, k - 1); }
      }
    }
    if forall k: nat :: k <= |steps| ==> OneOpenAfter(w, steps, k) {
      forall k: nat | k < |steps| ensures UpheldAt(SecondOpening, w, steps, k) {
        assert OneOpenAfter(w, steps, k + 1);
      }
    }
  }
}
