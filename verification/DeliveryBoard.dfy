/** The versioned Delivery board and its change history (app/application/delivery_service.py,
    app/application/delivery_security.py, app/application/delivery_contracts.py, app/domain/delivery.py,
    app/infrastructure/sql/delivery_repository.py).

    Texts are given trimmed, a blank one being absent (a blank title is ""). Hours are integers in a common
    unit. Identifiers of plans and items are drawn from a counter. */
module DeliveryBoard {
  import opened Options

  datatype PlanStatus = DRAFT | ACTIVE | ARCHIVED

  datatype ItemStatus = BACKLOG | TODO | IN_PROGRESS | BLOCKED | DONE | CANCELLED

  datatype Kind = EPIC | STORY

  datatype Plan = Plan(id: nat, workPackage: string, status: PlanStatus, lead: Option<string>, version: nat)

  datatype Item = Item(
    id: nat, plan: nat, kind: Kind, title: string, parent: Option<nat>, description: Option<string>,
        priority: Option<string>,
    status: ItemStatus, assignee: Option<string>, current: Option<int>, reference: Option<int>, remaining: Option<int>,
    due: Option<string>, position: int, sprint: Option<string>)

  datatype Row = Row(plan: nat, item: Option<nat>, action: string, version: nat, actor: string)

  datatype Board = Board(plans: map<nat, Plan>, items: map<nat, Item>, history: seq<Row>, nextId: nat,
      users: set<string>, workPackages: set<string>)

  datatype Action =
    | MANAGE_PLAN_LIFECYCLE | ASSIGN_TEAM_LEAD | SET_PLAN_PRIORITY_DUE_DATE | MANAGE_STRUCTURE | ORDER_ITEMS
    | ASSIGN_STORIES | ESTIMATE_STORIES | MANAGE_STORY_STATUS_BLOCKING | MANAGE_SPRINT
    | UPDATE_OWN_STORY_STATUS | UPDATE_OWN_REMAINING_HOURS | DOCUMENT_OWN_BLOCKAGE

  /** `leader`: the role ADMIN or PROJECT_MANAGER. */
  datatype Principal = Principal(user: Option<string>, leader: bool, technician: bool, managesDelivery: bool,
      contributes: bool)

  datatype Refusal =
    | IdentityRequired | PlanNotFound | ItemNotFound | ActionDenied | PlanArchived
    | VersionInvalid | VersionConflict | UserNotFound
    | WorkPackageNotFound | PlanExists | TransitionInvalid | VerificationRequired | ItemInvalid | NoteRequired

  datatype Result<T> = Ok(value: T) | Err(error: Refusal)

  /** The fields an update gives a value to. */
  datatype Changes = Changes(
    title: Option<string>, parent: Option<Option<nat>>, description: Option<Option<string>>,
        priority: Option<Option<string>>,
    status: Option<ItemStatus>, assignee: Option<Option<string>>, current: Option<Option<int>>,
        remaining: Option<Option<int>>,
    due: Option<Option<string>>, position: Option<int>, sprint: Option<Option<string>>)

  /** The fields of a new item. */
  datatype Draft = Draft(
    kind: Kind, title: string, parent: Option<nat>, description: Option<string>, priority: Option<string>,
        status: ItemStatus,
    assignee: Option<string>, current: Option<int>, remaining: Option<int>, due: Option<string>, position: Option<int>,
        sprint: Option<string>)

  datatype Command =
    | CreatePlan(workPackage: string, planLead: Option<string>)
    | SetStatus(plan: nat, target: PlanStatus, expected: int)
    | SetLead(plan: nat, newLead: Option<string>, expected: int)
    | CreateItem(plan: nat, draft: Draft, expected: int)
    | UpdateItem(item: nat, changes: Changes, expected: int)
    | DocumentBlockage(item: nat, note: string, expected: int)

  // ---------------------------------------------------------------- authorization

  const PLAN_MANAGEMENT := {MANAGE_PLAN_LIFECYCLE, ASSIGN_TEAM_LEAD, SET_PLAN_PRIORITY_DUE_DATE}

  const LEAD_ACTIONS := {MANAGE_STRUCTURE, ORDER_ITEMS, ASSIGN_STORIES, ESTIMATE_STORIES, MANAGE_STORY_STATUS_BLOCKING,
      MANAGE_SPRINT}

  const OWN_ACTIONS := {UPDATE_OWN_STORY_STATUS, UPDATE_OWN_REMAINING_HOURS, DOCUMENT_OWN_BLOCKAGE}

  /** delivery_actions_for and its binding to the permissions of the principal. */
  function Allowed(p: Principal, plan: Plan, item: Option<Item>): set<Action> {
    if p.user.None? then {}
    else
      (if p.managesDelivery && p.leader then PLAN_MANAGEMENT else {}) +
      (if p.contributes && plan.lead == p.user then LEAD_ACTIONS else {}) +
      (if p.contributes && p.technician && item.Some? && item.value.kind == STORY && item.value.assignee == p.user
          then OWN_ACTIONS else {})
  }

  // ---------------------------------------------------------------- domain rules

  predicate ValidItem(i: Item) {
    && i.title != "" && i.position >= 0 && (i.current.Some? ==> i.current.value > 0) &&
         (i.reference.Some? ==> i.reference.value > 0)
    && (i.remaining.Some? ==> i.remaining.value >= 0)
  }

  predicate CapturesReference(s: ItemStatus) {
    s in {TODO, IN_PROGRESS, BLOCKED, DONE}
  }

  /** transition_story_status: leaving the backlog freezes the estimate as the reference. */
  function Transition(story: Item, target: ItemStatus): Option<Item> {
    if story.kind != STORY then None
    else
      var reference := if story.reference.None? && story.status == BACKLOG && CapturesReference(target)
          then story.current else story.reference;
      Some(story.(status := target, reference := reference))
  }

  /** reestimate_story. */
  function Reestimate(story: Item, hours: Option<int>): Option<Item> {
    if story.kind != STORY || (hours.Some? && hours.value <= 0) then None
    else
      var reference := if story.reference.None? && CapturesReference(story.status) then hours else story.reference;
      Some(story.(current := hours, reference := reference))
  }

  /** update_story_remaining_hours. */
  function SetRemaining(story: Item, hours: Option<int>): Option<Item> {
    if story.kind != STORY || (hours.Some? && hours.value < 0) then None else Some(story.(remaining := hours))
  }

  /** transition_delivery_plan, between different statuses. */
  function PlanTransition(from: PlanStatus, to: PlanStatus): bool {
    (from == DRAFT && to == ACTIVE) || (from == ACTIVE && to == ARCHIVED)
  }

  predicate UnderEpic(items: map<nat, Item>, story: Item, plan: nat)
    requires story.parent.Some?
  {
    story.kind == STORY && story.parent.value in items && items[story.parent.value].plan == plan &&
        items[story.parent.value].kind == EPIC
  }

  /** validate_delivery_hierarchy on the items of one plan: epics at the top, a story under an epic or alone. */
  predicate ValidHierarchy(items: map<nat, Item>, plan: nat) {
    forall i :: i in items && items[i].plan == plan && items[i].parent.Some? ==> UnderEpic(items, items[i], plan)
  }

  // ---------------------------------------------------------------- guards

  function CheckExpected(plan: Plan, expected: int): Option<Refusal> {
    if expected < 1 then Some(VersionInvalid) else if plan.version != expected then Some(VersionConflict) else None
  }

  function ValidUser(b: Board, user: Option<string>): bool {
    user.Some? ==> user.value in b.users
  }

  /** compare_and_increment_version, the write of the plan row and the history entry of a mutation. */
  function Bumped(b: Board, plan: Plan, item: Option<nat>, action: string, actor: string): Board {
    b.(plans := b.plans[plan.id := plan.(version := plan.version + 1)],
       history := b.history + [Row(plan.id, item, action, plan.version + 1, actor)])
  }

  // ---------------------------------------------------------------- commands

  function NonArchived(b: Board, workPackage: string): bool {
    exists p :: p in b.plans && b.plans[p].workPackage == workPackage && b.plans[p].status != ARCHIVED
  }

  function DoCreatePlan(b: Board, p: Principal, workPackage: string, lead: Option<string>): Result<Board> {
    if p.user.None? then Err(IdentityRequired)
    else if workPackage !in b.workPackages then Err(WorkPackageNotFound)
    else if NonArchived(b, workPackage) then Err(PlanExists)
    else if !ValidUser(b, lead) then Err(UserNotFound)
    else
      var plan := Plan(b.nextId, workPackage, DRAFT, lead, 1);
      if MANAGE_PLAN_LIFECYCLE !in Allowed(p, plan, None) then Err(ActionDenied)
      else if lead.Some? && ASSIGN_TEAM_LEAD !in Allowed(p, plan, None) then Err(ActionDenied)
      else
        Ok(b.(plans := b.plans[plan.id := plan], nextId := b.nextId + 1,
              history := b.history + [Row(plan.id, None, "PLAN_CREATED", 1, p.user.value)]))
  }

  function StatusAction(target: PlanStatus): string {
    match target
    case DRAFT => "PLAN_DRAFT"
    case ACTIVE => "PLAN_ACTIVE"
    case ARCHIVED => "PLAN_ARCHIVED"
  }

  function DoSetStatus(b: Board, p: Principal, planId: nat, target: PlanStatus, expected: int): Result<Board> {
    if p.user.None? then Err(IdentityRequired)
    else if planId !in b.plans then Err(PlanNotFound)
    else
      var plan := b.plans[planId];
      if MANAGE_PLAN_LIFECYCLE !in Allowed(p, plan, None) then Err(ActionDenied)
      else
        match CheckExpected(plan, expected)
        case Some(e) => Err(e)
        case None =>
          if plan.status == target then Ok(b)
          else if !PlanTransition(plan.status, target) then Err(TransitionInvalid)
          else Ok(Bumped(b, plan.(status := target), None, StatusAction(target), p.user.value))
  }

  function DoSetLead(b: Board, p: Principal, planId: nat, lead: Option<string>, expected: int): Result<Board> {
    if p.user.None? then Err(IdentityRequired)
    else if planId !in b.plans then Err(PlanNotFound)
    else
      var plan := b.plans[planId];
      if plan.status == ARCHIVED then Err(PlanArchived)
      else if ASSIGN_TEAM_LEAD !in Allowed(p, plan, None) then Err(ActionDenied)
      else if !ValidUser(b, lead) then Err(UserNotFound)
      else
        match CheckExpected(plan, expected)
        case Some(e) => Err(e)
        case None => if lead == plan.lead then Ok(b)
            else Ok(Bumped(b, plan.(lead := lead), None, "PLAN_LEAD_CHANGED", p.user.value))
  }

  /** One more than the largest position in the plan, or 0, over the identifiers below n. */
  function NextPosition(items: map<nat, Item>, plan: nat, n: nat): int {
    if n == 0 then 0
    else
      var rest := NextPosition(items, plan, n - 1);
      if n - 1 in items && items[n - 1].plan == plan && items[n - 1].position >= rest then items[n - 1].position + 1
          else rest
  }

  /** The new item, if its fields and its status are acceptable. */
  function NewItem(b: Board, plan: nat, d: Draft): Option<Item> {
    var position := if d.position.Some? then d.position.value else NextPosition(b.items, plan, b.nextId);
    var item := Item(b.nextId, plan, d.kind, d.title, d.parent, d.description, d.priority, BACKLOG, d.assignee,
        d.current, None, d.remaining,
                     d.due, position, d.sprint);
    if !ValidItem(item) then None
    else if d.status == BACKLOG then Some(item)
    else Transition(item, d.status)
  }

  function DoCreateItem(b: Board, p: Principal, planId: nat, d: Draft, expected: int): Result<Board> {
    if p.user.None? then Err(IdentityRequired)
    else if planId !in b.plans then Err(PlanNotFound)
    else
      var plan := b.plans[planId];
      if plan.status == ARCHIVED then Err(PlanArchived)
      else if MANAGE_STRUCTURE !in Allowed(p, plan, None) then Err(ActionDenied)
      else if d.kind == STORY && d.status == DONE then Err(VerificationRequired)
      else if !ValidUser(b, d.assignee) then Err(UserNotFound)
      else if d.assignee.Some? && ASSIGN_STORIES !in Allowed(p, plan, None) then Err(ActionDenied)
      else
        var item := NewItem(b, planId, d);
        if item.None? || !ValidHierarchy(b.items[b.nextId := item.value], planId) then Err(ItemInvalid)
        else
          match CheckExpected(plan, expected)
          case Some(e) => Err(e)
          case None =>
            Ok(Bumped(b.(items := b.items[b.nextId := item.value], nextId := b.nextId + 1), plan, Some(b.nextId),
                "ITEM_CREATED", p.user.value))
  }

  function Or<T>(change: Option<T>, value: T): T {
    if change.Some? then change.value else value
  }

  /** The directly assigned fields. */
  function Assigned(i: Item, c: Changes): Item {
    i.(title := Or(c.title, i.title), parent := Or(c.parent, i.parent), description := Or(c.description, i.description),
       priority := Or(c.priority, i.priority), assignee := Or(c.assignee, i.assignee), due := Or(c.due, i.due),
       position := Or(c.position, i.position), sprint := Or(c.sprint, i.sprint))
  }

  /** The item after its changes: fields, then estimate, then remaining hours, then status. */
  function Changed(item: Item, c: Changes): Option<Item> {
    var edited := Assigned(item, c);
    if !ValidItem(edited) then None
    else
      var estimated := if c.current.Some? then Reestimate(edited, c.current.value) else Some(edited);
      if estimated.None? then None
      else
        var remaining := if c.remaining.Some? then SetRemaining(estimated.value, c.remaining.value) else estimated;
        if remaining.None? then None
        else if c.status.Some? then Transition(remaining.value, c.status.value) else remaining
  }

  const NO_CHANGES := Changes(None, None, None, None, None, None, None, None, None, None, None)

  /** The authorizations an update needs. */
  predicate MayChange(p: Principal, plan: Plan, item: Item, c: Changes) {
    var wide, own := Allowed(p, plan, None), Allowed(p, plan, Some(item));
    && (c.title.Some? || c.parent.Some? || c.description.Some? ==> MANAGE_STRUCTURE in wide)
    && (c.position.Some? ==> ORDER_ITEMS in wide)
    && (c.assignee.Some? ==> ASSIGN_STORIES in wide)
    && (c.current.Some? ==> ESTIMATE_STORIES in wide)
    && (c.sprint.Some? ==> MANAGE_SPRINT in wide)
    && (c.priority.Some? || c.due.Some? ==> SET_PLAN_PRIORITY_DUE_DATE in own || MANAGE_STRUCTURE in own)
    && (c.status.Some? ==> MANAGE_STORY_STATUS_BLOCKING in own || UPDATE_OWN_STORY_STATUS in own)
    && (c.remaining.Some? ==> ESTIMATE_STORIES in own || UPDATE_OWN_REMAINING_HOURS in own)
  }

  function DoUpdateItem(b: Board, p: Principal, itemId: nat, c: Changes, expected: int): Result<Board> {
    if p.user.None? then Err(IdentityRequired)
    else if itemId !in b.items then Err(ItemNotFound)
    else if b.items[itemId].plan !in b.plans then Err(PlanNotFound)
    else
      var item := b.items[itemId];
      var plan := b.plans[item.plan];
      if plan.status == ARCHIVED then Err(PlanArchived)
      else if c == NO_CHANGES then Ok(b)
      else if !MayChange(p, plan, item, c) then Err(ActionDenied)
      else if item.kind == STORY && item.status != DONE && c.status == Some(DONE) then Err(VerificationRequired)
      else if c.assignee.Some? && !ValidUser(b, c.assignee.value) then Err(UserNotFound)
      else
        var changed := Changed(item, c);
        if changed.None? || !ValidHierarchy(b.items[itemId := changed.value], item.plan) then Err(ItemInvalid)
        else
          match CheckExpected(plan, expected)
          case Some(e) => Err(e)
          case None =>
            if changed.value == item then Ok(b)
            else
              Ok(Bumped(b.(items := b.items[itemId := changed.value]), plan, Some(itemId), "ITEM_UPDATED",
                  p.user.value))
  }

  function DoDocumentBlockage(b: Board, p: Principal, itemId: nat, note: string, expected: int): Result<Board> {
    if p.user.None? then Err(IdentityRequired)
    else if itemId !in b.items then Err(ItemNotFound)
    else if b.items[itemId].plan !in b.plans then Err(PlanNotFound)
    else
      var item := b.items[itemId];
      var plan := b.plans[item.plan];
      if plan.status == ARCHIVED then Err(PlanArchived)
      else if Allowed(p, plan, Some(item)) * {MANAGE_STORY_STATUS_BLOCKING, DOCUMENT_OWN_BLOCKAGE} == {}
          then Err(ActionDenied)
      else if note == "" then Err(NoteRequired)
      else
        match CheckExpected(plan, expected)
        case Some(e) => Err(e)
        case None => Ok(Bumped(b, plan, Some(itemId), "BLOCKAGE_DOCUMENTED", p.user.value))
  }

  function Execute(b: Board, p: Principal, c: Command): Result<Board> {
    match c
    case CreatePlan(workPackage, lead) => DoCreatePlan(b, p, workPackage, lead)
    case SetStatus(plan, target, expected) => DoSetStatus(b, p, plan, target, expected)
    case SetLead(plan, lead, expected) => DoSetLead(b, p, plan, lead, expected)
    case CreateItem(plan, draft, expected) => DoCreateItem(b, p, plan, draft, expected)
    case UpdateItem(item, changes, expected) => DoUpdateItem(b, p, item, changes, expected)
    case DocumentBlockage(item, note, expected) => DoDocumentBlockage(b, p, item, note, expected)
  }

  /** A sequence of service calls, a refused one leaving the board as it was. */
  function After(b: Board, calls: seq<(Principal, Command)>): Board {
    if calls == [] then b
    else
      var before := After(b, calls[..|calls| - 1]);
      var (p, c) := calls[|calls| - 1];
      var r := Execute(before, p, c);
      if r.Ok? then r.value else before
  }

  // ---------------------------------------------------------------- the invariant

  /** The versions of the history rows of a plan, in order. */
  function Versions(history: seq<Row>, plan: nat): seq<nat> {
    if history == [] then []
    else
      var last := history[|history| - 1];
      Versions(history[..|history| - 1], plan) + (if last.plan == plan then [last.version] else [])
  }

  /** 1, 2, ..., n. */
  ghost predicate Gapless(versions: seq<nat>, n: nat) {
    |versions| == n && forall i :: 0 <= i < n ==> versions[i] == i + 1
  }

  /** One current plan per work package. */
  ghost predicate OneCurrentPlan(plans: map<nat, Plan>) {
    forall p, q :: p in plans && q in plans && p != q && plans[p].workPackage == plans[q].workPackage ==>
      plans[p].status == ARCHIVED || plans[q].status == ARCHIVED
  }

  ghost predicate Logged(b: Board) {
    && (forall p :: p in b.plans ==>
         p < b.nextId && b.plans[p].id == p && Gapless(Versions(b.history, p), b.plans[p].version))
    && (forall r :: r in b.history ==> r.plan in b.plans)
  }

  ghost predicate Structured(b: Board) {
    && (forall i :: i in b.items ==>
         i < b.nextId && b.items[i].id == i && b.items[i].plan in b.plans && ValidItem(b.items[i]))
    && (forall i :: i in b.items && b.items[i].kind == EPIC ==> b.items[i].status == BACKLOG)
    && (forall p :: p in b.plans ==> ValidHierarchy(b.items, p))
  }

  ghost predicate Valid(b: Board) {
    Logged(b) && Structured(b) && OneCurrentPlan(b.plans)
  }

  ghost predicate IsDone(b: Board, i: nat) {
    i in b.items && b.items[i].kind == STORY && b.items[i].status == DONE
  }

  /** A plan's version only grows, and changes with anything else; an archived plan never changes. */
  ghost predicate PlanEvolves(a: Plan, b: Plan) {
    a.version <= b.version && (a.version == b.version ==> a == b) && (a.status == ARCHIVED ==> a == b)
  }

  /** An item keeps its plan and kind and, once captured, its reference estimate. */
  ghost predicate ItemEvolves(a: Item, b: Item) {
    a.plan == b.plan && a.kind == b.kind && (a.reference.Some? ==> b.reference == a.reference)
  }

  /** The plan of an item is archived, or its version has not moved. */
  ghost predicate Still(a: Board, b: Board, p: nat) {
    p in a.plans && p in b.plans && (a.plans[p].status == ARCHIVED || a.plans[p].version == b.plans[p].version)
  }

  /** What no call undoes. */
  ghost predicate Evolves(a: Board, b: Board) {
    && a.history <= b.history && a.nextId <= b.nextId
    && (forall p :: p in a.plans ==> p in b.plans && PlanEvolves(a.plans[p], b.plans[p]))
    && (forall i :: i in a.items ==> i in b.items && ItemEvolves(a.items[i], b.items[i]))
    && (forall i :: i in a.items && Still(a, b, a.items[i].plan) ==> b.items[i] == a.items[i])
    && (forall i :: IsDone(b, i) ==> IsDone(a, i))
  }

  lemma EvolutionComposes(a: Board, b: Board, c: Board)
    requires Evolves(a, b) && Evolves(b, c)
    ensures Evolves(a, c)
  {
    forall p | p in a.plans ensures p in c.plans && PlanEvolves(a.plans[p], c.plans[p]) {
      assert PlanEvolves(a.plans[p], b.plans[p]) && PlanEvolves(b.plans[p], c.plans[p]);
    }
    forall i | i in a.items ensures i in c.items && ItemEvolves(a.items[i], c.items[i]) {
      assert ItemEvolves(a.items[i], b.items[i]) && ItemEvolves(b.items[i], c.items[i]);
    }
    forall i | i in a.items && Still(a, c, a.items[i].plan) ensures c.items[i] == a.items[i] {
      var p := a.items[i].plan;
      assert PlanEvolves(a.plans[p], b.plans[p]) && PlanEvolves(b.plans[p], c.plans[p]);
      assert Still(a, b, p) && Still(b, c, p);
    }
  }

  // ---------------------------------------------------------------- preservation

  lemma VersionsSnoc(history: seq<Row>, r: Row, plan: nat)
    ensures Versions(history + [r], plan) == Versions(history, plan) + (if r.plan == plan then [r.version] else [])
  {
    assert (history + [r])[..|history|] == history;
  }

  lemma {:induction false} NoVersions(history: seq<Row>, plan: nat)
    requires forall r :: r in history ==> r.plan != plan
    ensures Versions(history, plan) == []
  {
    if history != [] { NoVersions(history[..|history| - 1], plan); }
  }

  /** A mutation of a plan row logs the next version of that plan. */
  lemma BumpLogs(b: Board, plan: Plan, item: Option<nat>, action: string, actor: string)
    requires Logged(b) && plan.id in b.plans && plan.version == b.plans[plan.id].version
    ensures Logged(Bumped(b, plan, item, action, actor)) && b.history <= Bumped(b, plan, item, action, actor).history
  {
    var after := Bumped(b, plan, item, action, actor);
    forall p | p in after.plans
        ensures p < b.nextId && after.plans[p].id == p && Gapless(Versions(after.history, p), after.plans[p].version) {
      VersionsSnoc(b.history, Row(plan.id, item, action, plan.version + 1, actor), p);
    }
  }

  /** The plan row a mutation writes: the status stands still or moves forward. */
  ghost predicate PlanMutation(b: Board, plan: Plan) {
    && plan.id in b.plans
    && var stored := b.plans[plan.id];
       stored.status != ARCHIVED && plan.version == stored.version && plan.workPackage == stored.workPackage
  }

  lemma PlanMutationKeeps(b: Board, plan: Plan, item: Option<nat>, action: string, actor: string)
    requires Valid(b) && PlanMutation(b, plan)
    ensures Valid(Bumped(b, plan, item, action, actor)) && Evolves(b, Bumped(b, plan, item, action, actor))
  {
    BumpLogs(b, plan, item, action, actor);
  }

  /** A mutation that also writes one item. */
  ghost predicate ItemMutation(b: Board, plan: Plan, item: Item) {
    && PlanMutation(b, plan) && item.plan == plan.id && ValidItem(item) && item.id < b.nextId
    && ValidHierarchy(b.items[item.id := item], plan.id) && (item.kind == EPIC ==> item.status == BACKLOG)
    && (item.id in b.items ==> ItemEvolves(b.items[item.id], item))
    && (item.kind == STORY && item.status == DONE ==> IsDone(b, item.id))
  }

  lemma OtherHierarchies(items: map<nat, Item>, item: Item, p: nat)
    requires ValidHierarchy(items, p) && item.plan != p && (item.id in items ==> items[item.id].plan == item.plan)
    ensures ValidHierarchy(items[item.id := item], p)
  {
  }

  lemma ItemMutationStructures(b: Board, plan: Plan, item: Item)
    requires Structured(b) && ItemMutation(b, plan, item)
    ensures Structured(b.(items := b.items[item.id := item]))
  {
    var items := b.items[item.id := item];
    forall p | p in b.plans ensures ValidHierarchy(items, p) {
      if p != plan.id { OtherHierarchies(b.items, item, p); }
    }
  }

  lemma BumpStructures(b: Board, plan: Plan, item: Option<nat>, action: string, actor: string)
    requires Structured(b) && plan.id in b.plans
    ensures Structured(Bumped(b, plan, item, action, actor))
  {
  }

  lemma BumpKeepsOneCurrent(b: Board, plan: Plan)
    requires OneCurrentPlan(b.plans) && PlanMutation(b, plan)
    ensures OneCurrentPlan(b.plans[plan.id := plan.(version := plan.version + 1)])
  {
  }

  lemma WrittenItemEvolves(b: Board, plan: Plan, item: Item)
    requires ItemMutation(b, plan, item)
    ensures var written := b.(items := b.items[item.id := item]);
            && (forall i :: i in b.items ==> i in written.items && ItemEvolves(b.items[i], written.items[i]))
            && (forall i :: i in b.items && b.items[i].plan != plan.id ==> written.items[i] == b.items[i])
            && (forall i :: IsDone(written, i) ==> IsDone(b, i))
  {
  }

  lemma BumpedPlansEvolve(b: Board, plan: Plan)
    requires PlanMutation(b, plan)
    ensures var plans := b.plans[plan.id := plan.(version := plan.version + 1)];
            && (forall p :: p in b.plans ==> p in plans && PlanEvolves(b.plans[p], plans[p]))
            && plans[plan.id].version != b.plans[plan.id].version && b.plans[plan.id].status != ARCHIVED
  {
  }

  lemma ItemMutationEvolves(b: Board, plan: Plan, item: Item, action: string, actor: string)
    requires ItemMutation(b, plan, item)
    ensures Evolves(b, Bumped(b.(items := b.items[item.id := item]), plan, Some(item.id), action, actor))
  {
    var written := b.(items := b.items[item.id := item]);
    var after := Bumped(written, plan, Some(item.id), action, actor);
    WrittenItemEvolves(b, plan, item);
    BumpedPlansEvolve(b, plan);
    assert !Still(b, after, plan.id);
    assert after.items == written.items;
    forall i | IsDone(after, i) ensures IsDone(b, i) { assert IsDone(written, i); }
  }

  lemma ItemMutationKeeps(b: Board, plan: Plan, item: Item, action: string, actor: string)
    requires Valid(b) && ItemMutation(b, plan, item)
    ensures var after := Bumped(b.(items := b.items[item.id := item]), plan, Some(item.id), action, actor);
            Valid(after) && Evolves(b, after)
  {
    var written := b.(items := b.items[item.id := item]);
    ItemMutationStructures(b, plan, item);
    BumpLogs(written, plan, Some(item.id), action, actor);
    BumpStructures(written, plan, Some(item.id), action, actor);
    BumpKeepsOneCurrent(b, plan);
    ItemMutationEvolves(b, plan, item, action, actor);
  }

  /** The counter only names what is not there yet. */
  lemma CounterKeeps(b: Board)
    requires Valid(b)
    ensures Valid(b.(nextId := b.nextId + 1)) && Evolves(b, b.(nextId := b.nextId + 1))
  {
  }

  /** A new plan and its first history row. */
  function WithPlan(b: Board, plan: Plan, actor: string): Board {
    b.(plans := b.plans[plan.id := plan], nextId := b.nextId + 1, history :=
        b.history + [Row(plan.id, None, "PLAN_CREATED", 1, actor)])
  }

  lemma NewPlanLogs(b: Board, plan: Plan, actor: string)
    requires Logged(b) && plan.id == b.nextId && plan.version == 1
    ensures Logged(WithPlan(b, plan, actor))
  {
    var after := WithPlan(b, plan, actor);
    assert b.nextId !in b.plans;
    NoVersions(b.history, b.nextId);
    forall q | q in after.plans
        ensures q < after.nextId && after.plans[q].id == q &&
                Gapless(Versions(after.history, q), after.plans[q].version) {
      VersionsSnoc(b.history, Row(plan.id, None, "PLAN_CREATED", 1, actor), q);
    }
  }

  lemma NewPlanStructures(b: Board, plan: Plan, actor: string)
    requires Structured(b) && plan.id == b.nextId && plan.id !in b.plans
    ensures Structured(WithPlan(b, plan, actor))
  {
  }

  lemma NewPlanIsCurrent(b: Board, plan: Plan)
    requires OneCurrentPlan(b.plans) && plan.id !in b.plans && !NonArchived(b, plan.workPackage)
    ensures OneCurrentPlan(b.plans[plan.id := plan])
  {
  }

  lemma NewPlanEvolves(b: Board, plan: Plan, actor: string)
    requires plan.id !in b.plans
    ensures Evolves(b, WithPlan(b, plan, actor))
  {
  }

  lemma CreatePlanKeeps(b: Board, p: Principal, workPackage: string, lead: Option<string>)
    requires Valid(b) && DoCreatePlan(b, p, workPackage, lead).Ok?
    ensures Valid(DoCreatePlan(b, p, workPackage, lead).value) &&
            Evolves(b, DoCreatePlan(b, p, workPackage, lead).value)
  {
    var plan := Plan(b.nextId, workPackage, DRAFT, lead, 1);
    NewPlanLogs(b, plan, p.user.value);
    NewPlanStructures(b, plan, p.user.value);
    NewPlanIsCurrent(b, plan);
    NewPlanEvolves(b, plan, p.user.value);
  }

  /** What each step of an update keeps of an item. */
  ghost predicate StepKeeps(item: Item, after: Item) {
    ItemEvolves(item, after) && after.id == item.id && ValidItem(after) &&
        (item.kind == EPIC ==> after.status == item.status)
  }

  lemma StepsKeep(item: Item, hours: Option<int>, target: ItemStatus)
    requires ValidItem(item)
    ensures Reestimate(item, hours).Some? ==>
            StepKeeps(item, Reestimate(item, hours).value) && Reestimate(item, hours).value.status == item.status
    ensures SetRemaining(item, hours).Some? ==>
            StepKeeps(item, SetRemaining(item, hours).value) && SetRemaining(item, hours).value.status == item.status
    ensures Transition(item, target).Some? ==>
            StepKeeps(item, Transition(item, target).value) && Transition(item, target).value.status == target
  {
  }

  /** What an update keeps of an item. */
  lemma ChangedKeeps(item: Item, c: Changes)
    requires ValidItem(item) && Changed(item, c).Some?
    ensures StepKeeps(item, Changed(item, c).value)
    ensures Changed(item, c).value.status == Or(c.status, item.status)
  {
    var edited := Assigned(item, c);
    var estimated := if c.current.Some? then Reestimate(edited, c.current.value).value else edited;
    var remaining := if c.remaining.Some? then SetRemaining(estimated, c.remaining.value).value else estimated;
    StepsKeep(edited, Or(c.current, None), BACKLOG);
    StepsKeep(estimated, Or(c.remaining, None), BACKLOG);
    StepsKeep(remaining, None, Or(c.status, BACKLOG));
  }

  /** A story in progress with an estimate but without a reference. */
  predicate Uncaptured(i: Item) {
    i.kind == STORY && CapturesReference(i.status) && i.current.Some? && i.reference.None?
  }

  /** An update leaves a story uncaptured exactly when it puts a cancelled, unreferenced one, with its old estimate
      or a new one, back to work: only the exit from the backlog and an estimate made at work capture a reference. */
  lemma ReferenceIsCapturedExactly(item: Item, c: Changes)
    requires item.kind == STORY && !Uncaptured(item) && Changed(item, c).Some?
    ensures Uncaptured(Changed(item, c).value) <==>
              && item.status == CANCELLED && item.reference.None?
              && CapturesReference(Or(c.status, item.status)) && Or(c.current, item.current).Some?
  {
    var edited := Assigned(item, c);
    var estimated := if c.current.Some? then Reestimate(edited, c.current.value).value else edited;
    var remaining := if c.remaining.Some? then SetRemaining(estimated, c.remaining.value).value else estimated;
    assert Changed(item, c).value == if c.status.Some? then Transition(remaining, c.status.value).value else remaining;
  }

  /** A story of 8 hours that was cancelled before anyone worked on it. */
  const CANCELLED_STORY :=
    Item(1, 0, STORY, "story", None, None, None, CANCELLED, None, Some(8), None, None, None, 0, None)

  /** Taken up again, it is in progress with its estimate but without a reference. */
  lemma RevivedStoryIsUncaptured()
    ensures !Uncaptured(CANCELLED_STORY)
    ensures var revived := Changed(CANCELLED_STORY, NO_CHANGES.(status := Some(IN_PROGRESS)));
            revived.Some? && Uncaptured(revived.value)
  {
    assert ValidItem(CANCELLED_STORY);
  }

  /** The default position is past every item of the plan, and just past one of them or 0. */
  lemma {:induction false} NextPositionIsPast(items: map<nat, Item>, plan: nat, n: nat)
    requires forall i :: i in items ==> items[i].position >= 0
    ensures forall i :: 0 <= i < n && i in items && items[i].plan == plan ==>
            items[i].position < NextPosition(items, plan, n)
    ensures || NextPosition(items, plan, n) == 0
            || exists i :: 0 <= i < n && i in items && items[i].plan == plan
                           && items[i].position + 1 == NextPosition(items, plan, n)
  {
    if n > 0 { NextPositionIsPast(items, plan, n - 1); }
  }

  lemma NewItemIsFresh(b: Board, plan: nat, d: Draft)
    requires NewItem(b, plan, d).Some?
    ensures var item := NewItem(b, plan, d).value;
            item.id == b.nextId && item.plan == plan && item.kind == d.kind && ValidItem(item) &&
                item.status == d.status
            && (d.kind == EPIC ==> item.status == BACKLOG)
  {
  }

  lemma CreateItemIsMutation(b: Board, p: Principal, planId: nat, d: Draft, expected: int)
    requires Valid(b) && DoCreateItem(b, p, planId, d, expected).Ok?
    ensures NewItem(b, planId, d).Some? && planId in b.plans && p.user.Some?
    ensures var room, item := b.(nextId := b.nextId + 1), NewItem(b, planId, d).value;
            && ItemMutation(room, b.plans[planId], item) && item.id == b.nextId
            && DoCreateItem(b, p, planId, d, expected).value ==
                 Bumped(room.(items := b.items[item.id := item]), b.plans[planId], Some(item.id), "ITEM_CREATED",
                     p.user.value)
  {
    NewItemIsFresh(b, planId, d);
  }

  lemma CreateItemKeeps(b: Board, p: Principal, planId: nat, d: Draft, expected: int)
    requires Valid(b) && DoCreateItem(b, p, planId, d, expected).Ok?
    ensures Valid(DoCreateItem(b, p, planId, d, expected).value) &&
            Evolves(b, DoCreateItem(b, p, planId, d, expected).value)
  {
    CreateItemIsMutation(b, p, planId, d, expected);
    MutationInRoomKeeps(b, b.plans[planId], NewItem(b, planId, d).value, p.user.value);
  }

  lemma MutationInRoomKeeps(b: Board, plan: Plan, item: Item, actor: string)
    requires Valid(b) && ItemMutation(b.(nextId := b.nextId + 1), plan, item)
    ensures var after := Bumped(b.(nextId := b.nextId + 1, items := b.items[item.id := item]), plan, Some(item.id),
            "ITEM_CREATED", actor);
            Valid(after) && Evolves(b, after)
  {
    var room := b.(nextId := b.nextId + 1);
    CounterKeeps(b);
    ItemMutationKeeps(room, plan, item, "ITEM_CREATED", actor);
    EvolutionComposes(b, room,
        Bumped(room.(items := b.items[item.id := item]), plan, Some(item.id), "ITEM_CREATED", actor));
  }

  lemma UpdateItemIsMutation(b: Board, p: Principal, itemId: nat, c: Changes, expected: int)
    requires Structured(b) && Logged(b) && DoUpdateItem(b, p, itemId, c, expected).Ok? &&
             DoUpdateItem(b, p, itemId, c, expected).value != b
    ensures p.user.Some? && itemId in b.items && b.items[itemId].plan in b.plans && Changed(b.items[itemId], c).Some?
    ensures var plan, item := b.plans[b.items[itemId].plan], Changed(b.items[itemId], c).value;
            && ItemMutation(b, plan, item) && item.id == itemId
            && DoUpdateItem(b, p, itemId, c, expected).value ==
                 Bumped(b.(items := b.items[itemId := item]), plan, Some(itemId), "ITEM_UPDATED", p.user.value)
  {
    ChangedKeeps(b.items[itemId], c);
  }

  lemma UpdateItemKeeps(b: Board, p: Principal, itemId: nat, c: Changes, expected: int)
    requires Valid(b) && DoUpdateItem(b, p, itemId, c, expected).Ok?
    ensures Valid(DoUpdateItem(b, p, itemId, c, expected).value) &&
            Evolves(b, DoUpdateItem(b, p, itemId, c, expected).value)
  {
    if DoUpdateItem(b, p, itemId, c, expected).value != b {
      UpdateItemIsMutation(b, p, itemId, c, expected);
      ItemMutationKeeps(b, b.plans[b.items[itemId].plan], Changed(b.items[itemId], c).value, "ITEM_UPDATED",
          p.user.value);
    }
  }

  lemma SetStatusKeeps(b: Board, p: Principal, planId: nat, target: PlanStatus, expected: int)
    requires Valid(b) && DoSetStatus(b, p, planId, target, expected).Ok?
    ensures Valid(DoSetStatus(b, p, planId, target, expected).value) &&
            Evolves(b, DoSetStatus(b, p, planId, target, expected).value)
  {
    if b.plans[planId].status != target {
      PlanMutationKeeps(b, b.plans[planId].(status := target), None, StatusAction(target), p.user.value);
    }
  }

  lemma SetLeadKeeps(b: Board, p: Principal, planId: nat, lead: Option<string>, expected: int)
    requires Valid(b) && DoSetLead(b, p, planId, lead, expected).Ok?
    ensures Valid(DoSetLead(b, p, planId, lead, expected).value) &&
            Evolves(b, DoSetLead(b, p, planId, lead, expected).value)
  {
    if b.plans[planId].lead != lead {
      PlanMutationKeeps(b, b.plans[planId].(lead := lead), None, "PLAN_LEAD_CHANGED", p.user.value);
    }
  }

  lemma DocumentBlockageKeeps(b: Board, p: Principal, itemId: nat, note: string, expected: int)
    requires Valid(b) && DoDocumentBlockage(b, p, itemId, note, expected).Ok?
    ensures Valid(DoDocumentBlockage(b, p, itemId, note, expected).value) &&
            Evolves(b, DoDocumentBlockage(b, p, itemId, note, expected).value)
  {
    PlanMutationKeeps(b, b.plans[b.items[itemId].plan], Some(itemId), "BLOCKAGE_DOCUMENTED", p.user.value);
  }

  /** Every call keeps the board valid and undoes nothing. */
  lemma CallsKeep(b: Board, p: Principal, c: Command)
    requires Valid(b) && Execute(b, p, c).Ok?
    ensures Valid(Execute(b, p, c).value) && Evolves(b, Execute(b, p, c).value)
  {
    match c
    case CreatePlan(workPackage, lead) => CreatePlanKeeps(b, p, workPackage, lead);
    case SetStatus(plan, target, expected) => SetStatusKeeps(b, p, plan, target, expected);
    case SetLead(plan, lead, expected) => SetLeadKeeps(b, p, plan, lead, expected);
    case CreateItem(plan, draft, expected) => CreateItemKeeps(b, p, plan, draft, expected);
    case UpdateItem(item, changes, expected) => UpdateItemKeeps(b, p, item, changes, expected);
    case DocumentBlockage(item, note, expected) => DocumentBlockageKeeps(b, p, item, note, expected);
  }

  // ---------------------------------------------------------------- every run

  /** After any calls the history of each plan reads 1, 2, ..., its version; there is one current plan per work
      package; stories are never closed through this service; references and archived plans are frozen. */
  lemma {:induction false} RunsKeep(b: Board, calls: seq<(Principal, Command)>)
    requires Valid(b)
    ensures Valid(After(b, calls)) && Evolves(b, After(b, calls))
    decreases |calls|
  {
    if calls != [] {
      var before := After(b, calls[..|calls| - 1]);
      RunsKeep(b, calls[..|calls| - 1]);
      var (p, c) := calls[|calls| - 1];
      if Execute(before, p, c).Ok? {
        CallsKeep(before, p, c);
        EvolutionComposes(b, before, Execute(before, p, c).value);
      }
    }
  }

  lemma EmptyBoardIsValid(users: set<string>, workPackages: set<string>)
    ensures Valid(Board(map[], map[], [], 0, users, workPackages))
  {
  }

  /** The plan a command is about, and the version it expects. */
  function Target(b: Board, c: Command): Option<(nat, int)> {
    match c
    case CreatePlan(_, _) => None
    case SetStatus(plan, _, expected) => Some((plan, expected))
    case SetLead(plan, _, expected) => Some((plan, expected))
    case CreateItem(plan, _, expected) => Some((plan, expected))
    case UpdateItem(item, _, expected) => if item in b.items then Some((b.items[item].plan, expected)) else None
    case DocumentBlockage(item, _, expected) => if item in b.items then Some((b.items[item].plan, expected)) else None
  }

  /** A call that takes effect was made at the current version of its plan, moves it by one and adds one row;
      a call without effect adds nothing. */
  lemma EffectsAreVersioned(b: Board, p: Principal, c: Command)
    requires Valid(b) && Execute(b, p, c).Ok? && !c.CreatePlan?
    ensures Target(b, c).Some? && Target(b, c).value.0 in b.plans
    ensures var (plan, expected) := Target(b, c).value;
            var after := Execute(b, p, c).value;
            || after == b
            || (&& b.plans[plan].version == expected && plan in after.plans && after.plans[plan].version == expected + 1
                && |after.history| == |b.history| + 1 && after.history[|b.history|].plan == plan &&
                     after.history[|b.history|].version == expected + 1)
  {
  }

  /** Of several calls expecting the same version of a plan at most one takes effect, whatever happens between. */
  lemma VersionsAreSpentOnce(b: Board, p: Principal, c: Command, calls: seq<(Principal, Command)>, q: Principal,
      e: Command)
    requires Valid(b) && !c.CreatePlan? && !e.CreatePlan? && Execute(b, p, c).Ok? && Execute(b, p, c).value != b
    requires Target(After(Execute(b, p, c).value, calls), e) == Target(b, c)
    ensures var later := After(Execute(b, p, c).value, calls);
            Execute(later, q, e).Ok? ==> Execute(later, q, e).value == later
  {
    EffectsAreVersioned(b, p, c);
    CallsKeep(b, p, c);
    var later := After(Execute(b, p, c).value, calls);
    RunsKeep(Execute(b, p, c).value, calls);
    if Execute(later, q, e).Ok? { EffectsAreVersioned(later, q, e); }
  }

  /** Nothing but the status and the remaining hours. */
  predicate ReportsOnly(c: Changes) {
    c == NO_CHANGES.(status := c.status, remaining := c.remaining)
  }

  lemma TechnicianMayReport(p: Principal, plan: Plan, item: Item, c: Changes)
    requires MayChange(p, plan, item, c) && p.user.Some? && plan.lead != p.user && !p.leader
    ensures ReportsOnly(c)
    ensures c != NO_CHANGES ==> item.kind == STORY && item.assignee == p.user && p.technician && p.contributes
  {
    assert Allowed(p, plan, None) == {};
    assert Allowed(p, plan, Some(item)) <= OWN_ACTIONS;
  }

  lemma ReportsChange(item: Item, c: Changes)
    requires ReportsOnly(c) && Changed(item, c).Some?
    ensures var after := Changed(item, c).value;
            after == item.(status := after.status, remaining := after.remaining, reference := after.reference)
  {
  }

  /** A technician who does not lead the plan reports on his own stories only: an accepted update of his changes
      nothing but the status, the remaining hours and the captured reference, and only of a story assigned to him. */
  lemma TechniciansReportOwnWork(b: Board, p: Principal, itemId: nat, c: Changes, expected: int)
    requires DoUpdateItem(b, p, itemId, c, expected).Ok? && DoUpdateItem(b, p, itemId, c, expected).value != b
    requires b.plans[b.items[itemId].plan].lead != p.user && !p.leader
    ensures var item := b.items[itemId];
            && item.kind == STORY && item.assignee == p.user && p.technician && p.contributes
            && itemId in DoUpdateItem(b, p, itemId, c, expected).value.items
            && var after := DoUpdateItem(b, p, itemId, c, expected).value.items[itemId];
               after == item.(status := after.status, remaining := after.remaining, reference := after.reference)
  {
    TechnicianMayReport(p, b.plans[b.items[itemId].plan], b.items[itemId], c);
    ReportsChange(b.items[itemId], c);
  }

  lemma EvolutionIsReflexive(b: Board)
    ensures Evolves(b, b)
  {
  }

  /** What a call leaves, refused or not. */
  lemma CallOutcome(b: Board, p: Principal, c: Command) returns (after: Board)
    requires Valid(b)
    ensures Valid(after) && Evolves(b, after) && after == (if Execute(b, p, c).Ok? then Execute(b, p, c).value else b)
  {
    after := if Execute(b, p, c).Ok? then Execute(b, p, c).value else b;
    if Execute(b, p, c).Ok? { CallsKeep(b, p, c); } else { EvolutionIsReflexive(b); }
  }
}
