/** What a call of the Delivery service does, in terms of the board alone: when it is refused and why, and what it
    stores otherwise (app/application/delivery_service.py, app/application/delivery_security.py,
    app/domain/delivery.py). */
module DeliveryOutcome {
  import opened Options
  import opened DeliveryBoard

  // ---------------------------------------------------------------- who may do what

  predicate Manages(p: Principal) {
    p.user.Some? && p.managesDelivery && p.leader
  }

  predicate Leads(p: Principal, plan: Plan) {
    p.user.Some? && p.contributes && plan.lead == p.user
  }

  predicate WorksOn(p: Principal, item: Item) {
    p.user.Some? && p.contributes && p.technician && item.kind == STORY && item.assignee == p.user
  }

  /** An action belongs to those who manage plans, to the lead of the plan, or to the assignee of the story. */
  lemma AllowedExactly(p: Principal, plan: Plan, item: Option<Item>)
    ensures forall a :: a in Allowed(p, plan, item) <==>
              match a
              case MANAGE_PLAN_LIFECYCLE => Manages(p)
              case ASSIGN_TEAM_LEAD => Manages(p)
              case SET_PLAN_PRIORITY_DUE_DATE => Manages(p)
              case UPDATE_OWN_STORY_STATUS => item.Some? && WorksOn(p, item.value)
              case UPDATE_OWN_REMAINING_HOURS => item.Some? && WorksOn(p, item.value)
              case DOCUMENT_OWN_BLOCKAGE => item.Some? && WorksOn(p, item.value)
              case _ => Leads(p, plan)
  {
  }

  // ---------------------------------------------------------------- what every change of a plan leaves

  /** The plan is stored, and a row says what happened to it or to one of its items. */
  ghost predicate Stores(b: Board, after: Board, plan: Plan, item: Option<nat>, action: string, actor: string) {
    && after.plans == b.plans[plan.id := plan]
    && after.history == b.history + [Row(plan.id, item, action, plan.version, actor)]
    && after.users == b.users && after.workPackages == b.workPackages
  }

  /** The next version of a stored plan. */
  function Next(b: Board, plan: nat): Plan
    requires plan in b.plans
  {
    b.plans[plan].(version := b.plans[plan].version + 1)
  }

  ghost predicate SameItems(b: Board, after: Board) {
    after.items == b.items && after.nextId == b.nextId
  }

  ghost predicate Known(b: Board, user: Option<string>) {
    user.Some? ==> user.value in b.users
  }

  /** Not the version that is expected. */
  predicate Outdated(plan: Plan, expected: int, e: Refusal) {
    match e
    case VersionInvalid => expected < 1
    case VersionConflict => expected >= 1 && expected != plan.version
    case _ => false
  }

  // ---------------------------------------------------------------- plans

  /** The work package has a plan that is not archived. */
  ghost predicate Planned(b: Board, workPackage: string) {
    exists q :: q in b.plans && b.plans[q].workPackage == workPackage && b.plans[q].status != ARCHIVED
  }

  ghost predicate CreatePlanRefused(b: Board, p: Principal, workPackage: string, lead: Option<string>, e: Refusal) {
    match e
    case IdentityRequired => p.user.None?
    case WorkPackageNotFound => p.user.Some? && workPackage !in b.workPackages
    case PlanExists => p.user.Some? && workPackage in b.workPackages && Planned(b, workPackage)
    case UserNotFound =>
      p.user.Some? && workPackage in b.workPackages && !Planned(b, workPackage) && !Known(b, lead)
    case ActionDenied =>
      && p.user.Some? && workPackage in b.workPackages && !Planned(b, workPackage) && Known(b, lead)
      && !Manages(p)
    case _ => false
  }

  ghost predicate CreatePlanEnds(b: Board, p: Principal, workPackage: string, lead: Option<string>,
      error: Option<Refusal>, after: Board)
  {
    match error
    case Some(e) => CreatePlanRefused(b, p, workPackage, lead, e) && after == b
    case None =>
      && workPackage in b.workPackages && !Planned(b, workPackage) && Known(b, lead) && Manages(p)
      && Stores(b, after, Plan(b.nextId, workPackage, DRAFT, lead, 1), None, "PLAN_CREATED", p.user.value)
      && after.items == b.items && after.nextId == b.nextId + 1
  }

  /** One step forward. */
  predicate Forward(from: PlanStatus, to: PlanStatus) {
    match from
    case DRAFT => to == ACTIVE
    case ACTIVE => to == ARCHIVED
    case ARCHIVED => false
  }

  ghost predicate SetStatusRefused(b: Board, p: Principal, plan: nat, target: PlanStatus, expected: int, e: Refusal) {
    match e
    case IdentityRequired => p.user.None?
    case PlanNotFound => p.user.Some? && plan !in b.plans
    case ActionDenied => p.user.Some? && plan in b.plans && !Manages(p)
    case TransitionInvalid =>
      && plan in b.plans && Manages(p) && expected == b.plans[plan].version && expected >= 1
      && b.plans[plan].status != target && !Forward(b.plans[plan].status, target)
    case _ => plan in b.plans && Manages(p) && Outdated(b.plans[plan], expected, e)
  }

  ghost predicate SetStatusEnds(b: Board, p: Principal, plan: nat, target: PlanStatus, expected: int,
      error: Option<Refusal>, after: Board)
  {
    match error
    case Some(e) => SetStatusRefused(b, p, plan, target, expected, e) && after == b
    case None =>
      && plan in b.plans && Manages(p) && expected == b.plans[plan].version
      && if b.plans[plan].status == target then after == b
         else
           && Forward(b.plans[plan].status, target) && SameItems(b, after)
           && Stores(b, after, Next(b, plan).(status := target), None,
                     if target == ACTIVE then "PLAN_ACTIVE" else "PLAN_ARCHIVED", p.user.value)
  }

  ghost predicate SetLeadRefused(b: Board, p: Principal, plan: nat, lead: Option<string>, expected: int, e: Refusal) {
    match e
    case IdentityRequired => p.user.None?
    case PlanNotFound => p.user.Some? && plan !in b.plans
    case PlanArchived => p.user.Some? && plan in b.plans && b.plans[plan].status == ARCHIVED
    case ActionDenied => p.user.Some? && Editable(b, plan) && !Manages(p)
    case UserNotFound => Editable(b, plan) && Manages(p) && !Known(b, lead)
    case _ => Editable(b, plan) && Manages(p) && Known(b, lead) && Outdated(b.plans[plan], expected, e)
  }

  predicate Editable(b: Board, plan: nat) {
    plan in b.plans && b.plans[plan].status != ARCHIVED
  }

  ghost predicate SetLeadEnds(b: Board, p: Principal, plan: nat, lead: Option<string>, expected: int,
      error: Option<Refusal>, after: Board)
  {
    match error
    case Some(e) => SetLeadRefused(b, p, plan, lead, expected, e) && after == b
    case None =>
      && Editable(b, plan) && Manages(p) && Known(b, lead) && expected == b.plans[plan].version
      && if lead == b.plans[plan].lead then after == b
         else
           && SameItems(b, after)
           && Stores(b, after, Next(b, plan).(lead := lead), None, "PLAN_LEAD_CHANGED", p.user.value)
  }

  lemma CreatePlanEndsSo(b: Board, p: Principal, workPackage: string, lead: Option<string>)
    ensures var r := DoCreatePlan(b, p, workPackage, lead);
            CreatePlanEnds(b, p, workPackage, lead, if r.Ok? then None else Some(r.error), if r.Ok? then r.value else b)
  {
    AllowedExactly(p, Plan(b.nextId, workPackage, DRAFT, lead, 1), None);
  }

  lemma SetStatusEndsSo(b: Board, p: Principal, plan: nat, target: PlanStatus, expected: int)
    requires Valid(b)
    ensures var r := DoSetStatus(b, p, plan, target, expected);
            SetStatusEnds(b, p, plan, target, expected, if r.Ok? then None else Some(r.error), if r.Ok? then r.value
                else b)
  {
    if plan in b.plans { AllowedExactly(p, b.plans[plan], None); }
  }

  lemma SetLeadEndsSo(b: Board, p: Principal, plan: nat, lead: Option<string>, expected: int)
    requires Valid(b)
    ensures var r := DoSetLead(b, p, plan, lead, expected);
            SetLeadEnds(b, p, plan, lead, expected, if r.Ok? then None else Some(r.error), if r.Ok? then r.value else b)
  {
    if plan in b.plans { AllowedExactly(p, b.plans[plan], None); }
  }

  // ---------------------------------------------------------------- items

  /** A status of a story somebody works or worked on. */
  predicate AtWork(s: ItemStatus) {
    s == TODO || s == IN_PROGRESS || s == BLOCKED || s == DONE
  }

  /** A story may have an epic of its plan above it; an epic has nothing above it. */
  predicate Placed(b: Board, kind: Kind, plan: nat, parent: Option<nat>) {
    parent.Some? ==>
      kind == STORY && parent.value in b.items && b.items[parent.value].plan == plan &&
          b.items[parent.value].kind == EPIC
  }

  predicate Positive(hours: Option<int>) {
    hours.Some? ==> hours.value > 0
  }

  predicate NotNegative(hours: Option<int>) {
    hours.Some? ==> hours.value >= 0
  }

  /** The position of a new item: the one given, or just past the items of the plan. */
  ghost predicate PositionOf(b: Board, plan: nat, given: Option<int>, position: int) {
    match given
    case Some(n) => position == n
    case None =>
      && (forall i :: i in b.items && b.items[i].plan == plan ==> b.items[i].position < position)
      && (position == 0 || exists i :: i in b.items && b.items[i].plan == plan && b.items[i].position + 1 == position)
  }

  ghost predicate DraftFits(b: Board, plan: nat, d: Draft) {
    && d.title != "" && Positive(d.current) && NotNegative(d.remaining) && (d.position.Some? ==> d.position.value >= 0)
    && (d.status != BACKLOG ==> d.kind == STORY) && Placed(b, d.kind, plan, d.parent)
  }

  ghost predicate CreateItemRefused(b: Board, p: Principal, plan: nat, d: Draft, expected: int, e: Refusal) {
    match e
    case IdentityRequired => p.user.None?
    case PlanNotFound => p.user.Some? && plan !in b.plans
    case PlanArchived => p.user.Some? && plan in b.plans && b.plans[plan].status == ARCHIVED
    case ActionDenied => p.user.Some? && Editable(b, plan) && !Leads(p, b.plans[plan])
    case VerificationRequired => LedBy(b, p, plan) && d.kind == STORY && d.status == DONE
    case UserNotFound => LedBy(b, p, plan) && !(d.kind == STORY && d.status == DONE) && !Known(b, d.assignee)
    case ItemInvalid =>
      && LedBy(b, p, plan) && !(d.kind == STORY && d.status == DONE) && Known(b, d.assignee)
      && !DraftFits(b, plan, d)
    case _ =>
      && LedBy(b, p, plan) && !(d.kind == STORY && d.status == DONE) && Known(b, d.assignee)
      && DraftFits(b, plan, d) && Outdated(b.plans[plan], expected, e)
  }

  predicate LedBy(b: Board, p: Principal, plan: nat) {
    Editable(b, plan) && Leads(p, b.plans[plan])
  }

  ghost predicate CreateItemEnds(b: Board, p: Principal, plan: nat, d: Draft, expected: int, error: Option<Refusal>,
      after: Board)
  {
    match error
    case Some(e) => CreateItemRefused(b, p, plan, d, expected, e) && after == b
    case None =>
      && LedBy(b, p, plan) && !(d.kind == STORY && d.status == DONE) && Known(b, d.assignee)
      && DraftFits(b, plan, d) && expected == b.plans[plan].version
      && Stores(b, after, Next(b, plan), Some(b.nextId), "ITEM_CREATED", p.user.value)
      && after.nextId == b.nextId + 1
      && b.nextId in after.items && after.items == b.items[b.nextId := after.items[b.nextId]]
      && IsDrafted(b, plan, d, after.items[b.nextId])
  }

  /** Every field of the new item is that of its draft; its estimate is the reference if it is at work. */
  ghost predicate IsDrafted(b: Board, plan: nat, d: Draft, item: Item) {
    && item.id == b.nextId && item.plan == plan && item.kind == d.kind && item.title == d.title
    && item.parent == d.parent && item.description == d.description && item.priority == d.priority
    && item.status == d.status && item.assignee == d.assignee && item.current == d.current
    && item.remaining == d.remaining && item.due == d.due && item.sprint == d.sprint
    && item.reference == (if AtWork(d.status) then d.current else None)
    && PositionOf(b, plan, d.position, item.position)
  }

  lemma NewItemIsDrafted(b: Board, plan: nat, d: Draft)
    requires Valid(b)
    ensures NewItem(b, plan, d).Some? ==> IsDrafted(b, plan, d, NewItem(b, plan, d).value)
    ensures NewItem(b, plan, d).Some? <==>
            && d.title != "" && Positive(d.current) && NotNegative(d.remaining)
            && (d.position.Some? ==> d.position.value >= 0) && (d.status != BACKLOG ==> d.kind == STORY)
  {
    NextPositionIsPast(b.items, plan, b.nextId);
  }

  /** Writing an item of a valid board keeps the hierarchy exactly if the item is placed. */
  lemma PlacedExactly(b: Board, item: Item)
    requires Valid(b) && item.plan in b.plans
    requires item.id in b.items ==> b.items[item.id].kind == item.kind && b.items[item.id].plan == item.plan
    ensures ValidHierarchy(b.items[item.id := item], item.plan) <==> Placed(b, item.kind, item.plan, item.parent)
  {
    var items := b.items[item.id := item];
    if Placed(b, item.kind, item.plan, item.parent) {
      forall i | i in items && items[i].plan == item.plan && items[i].parent.Some?
        ensures UnderEpic(items, items[i], item.plan)
      {
        if i != item.id { assert UnderEpic(b.items, b.items[i], item.plan); }
      }
    }
    if ValidHierarchy(items, item.plan) && item.parent.Some? {
      assert UnderEpic(items, items[item.id], item.plan);
    }
  }

  lemma LeadExactly(p: Principal, plan: Plan)
    ensures MANAGE_STRUCTURE in Allowed(p, plan, None) <==> Leads(p, plan)
    ensures ASSIGN_STORIES in Allowed(p, plan, None) <==> Leads(p, plan)
  {
    AllowedExactly(p, plan, None);
  }

  /** A new item is acceptable on its board exactly if its draft fits. */
  lemma DraftFitsExactly(b: Board, plan: nat, d: Draft)
    requires Valid(b) && plan in b.plans
    ensures var item := NewItem(b, plan, d);
            && (item.Some? ==> IsDrafted(b, plan, d, item.value))
            && (DraftFits(b, plan, d) <==> item.Some? && ValidHierarchy(b.items[b.nextId := item.value], plan))
  {
    NewItemIsDrafted(b, plan, d);
    if NewItem(b, plan, d).Some? { PlacedExactly(b, NewItem(b, plan, d).value); }
  }

  lemma CreateItemEndsSo(b: Board, p: Principal, plan: nat, d: Draft, expected: int)
    requires Valid(b)
    ensures var r := DoCreateItem(b, p, plan, d, expected);
            CreateItemEnds(b, p, plan, d, expected, if r.Ok? then None else Some(r.error), if r.Ok? then r.value else b)
  {
    if plan in b.plans {
      LeadExactly(p, b.plans[plan]);
      DraftFitsExactly(b, plan, d);
      var r := DoCreateItem(b, p, plan, d, expected);
      if r.Ok? { DraftIsStored(b, p, plan, d, expected); }
    }
  }

  lemma DraftIsStored(b: Board, p: Principal, plan: nat, d: Draft, expected: int)
    requires Valid(b) && DoCreateItem(b, p, plan, d, expected).Ok?
    ensures var after := DoCreateItem(b, p, plan, d, expected).value;
            && plan in b.plans && p.user.Some? && NewItem(b, plan, d).Some?
            && Stores(b, after, Next(b, plan), Some(b.nextId), "ITEM_CREATED", p.user.value)
            && after.nextId == b.nextId + 1 && after.items == b.items[b.nextId := NewItem(b, plan, d).value]
  {
  }

  // ---------------------------------------------------------------- updates

  /** What an update asks for is the actor's to change: structure, order, assignment, estimate and sprint are the
      lead's; priority and due date also those of who manages plans; status and remaining hours also the assignee's. */
  predicate MayUpdate(p: Principal, plan: Plan, item: Item, c: Changes) {
    && (c.title.Some? || c.parent.Some? || c.description.Some? ==> Leads(p, plan))
    && (c.position.Some? || c.assignee.Some? || c.current.Some? || c.sprint.Some? ==> Leads(p, plan))
    && (c.priority.Some? || c.due.Some? ==> Manages(p) || Leads(p, plan))
    && (c.status.Some? || c.remaining.Some? ==> Leads(p, plan) || WorksOn(p, item))
  }

  /** Nothing is asked for. */
  predicate Nothing(c: Changes) {
    && c.title.None? && c.parent.None? && c.description.None? && c.priority.None? && c.status.None?
    && c.assignee.None? && c.current.None? && c.remaining.None? && c.due.None? && c.position.None? && c.sprint.None?
  }

  /** A story is done by its verification, not by an update. */
  predicate Finishes(item: Item, c: Changes) {
    item.kind == STORY && item.status != DONE && c.status == Some(DONE)
  }

  /** The new values are acceptable; estimates, remaining hours and a status are those of a story. */
  predicate Fits(b: Board, item: Item, c: Changes) {
    && c.title != Some("") && (c.position.Some? ==> c.position.value >= 0)
    && (c.current.Some? ==> item.kind == STORY && Positive(c.current.value))
    && (c.remaining.Some? ==> item.kind == STORY && NotNegative(c.remaining.value))
    && (c.status.Some? ==> item.kind == STORY)
    && (c.parent.Some? ==> Placed(b, item.kind, item.plan, c.parent.value))
  }

  /** Every field asked for has its new value, and every other one its old value. */
  predicate IsUpdated(item: Item, c: Changes, after: Item) {
    IsEdited(item, c, after) && IsMeasured(item, c, after)
  }

  predicate IsEdited(item: Item, c: Changes, after: Item) {
    && after.id == item.id && after.plan == item.plan && after.kind == item.kind
    && after.title == (if c.title.Some? then c.title.value else item.title)
    && after.parent == (if c.parent.Some? then c.parent.value else item.parent)
    && after.description == (if c.description.Some? then c.description.value else item.description)
    && after.priority == (if c.priority.Some? then c.priority.value else item.priority)
    && after.assignee == (if c.assignee.Some? then c.assignee.value else item.assignee)
    && after.due == (if c.due.Some? then c.due.value else item.due)
    && after.position == (if c.position.Some? then c.position.value else item.position)
    && after.sprint == (if c.sprint.Some? then c.sprint.value else item.sprint)
  }

  /** The reference stays once it is there; without one, an estimate given at work is it, or the estimate with which
      the backlog is left for work. */
  predicate IsMeasured(item: Item, c: Changes, after: Item) {
    && after.status == (if c.status.Some? then c.status.value else item.status)
    && after.current == (if c.current.Some? then c.current.value else item.current)
    && after.remaining == (if c.remaining.Some? then c.remaining.value else item.remaining)
    && (item.reference.Some? ==> after.reference == item.reference)
    && (item.reference.None? ==>
         after.reference ==
           if (c.current.Some? && AtWork(item.status)) || (item.status == BACKLOG && AtWork(after.status))
           then after.current else None)
  }

  ghost predicate UpdateItemRefused(b: Board, p: Principal, i: nat, c: Changes, expected: int, e: Refusal)
    requires Valid(b)
  {
    match e
    case IdentityRequired => p.user.None?
    case ItemNotFound => p.user.Some? && i !in b.items
    case PlanArchived => p.user.Some? && i in b.items && b.plans[b.items[i].plan].status == ARCHIVED
    case ActionDenied =>
      p.user.Some? && EditableItem(b, i) && !Nothing(c) && !MayUpdate(p, b.plans[b.items[i].plan], b.items[i], c)
    case VerificationRequired => Granted(b, p, i, c) && Finishes(b.items[i], c)
    case UserNotFound =>
      Granted(b, p, i, c) && !Finishes(b.items[i], c) && c.assignee.Some? && !Known(b, c.assignee.value)
    case ItemInvalid => Admitted(b, p, i, c) && !Fits(b, b.items[i], c)
    case _ => Admitted(b, p, i, c) && Fits(b, b.items[i], c) && Outdated(b.plans[b.items[i].plan], expected, e)
  }

  predicate EditableItem(b: Board, i: nat) {
    i in b.items && Editable(b, b.items[i].plan)
  }

  predicate Granted(b: Board, p: Principal, i: nat, c: Changes) {
    && p.user.Some? && EditableItem(b, i) && !Nothing(c)
    && MayUpdate(p, b.plans[b.items[i].plan], b.items[i], c)
  }

  ghost predicate Admitted(b: Board, p: Principal, i: nat, c: Changes) {
    Granted(b, p, i, c) && !Finishes(b.items[i], c) && (c.assignee.Some? ==> Known(b, c.assignee.value))
  }

  ghost predicate UpdateItemEnds(b: Board, p: Principal, i: nat, c: Changes, expected: int, error: Option<Refusal>,
      after: Board)
    requires Valid(b)
  {
    match error
    case Some(e) => UpdateItemRefused(b, p, i, c, expected, e) && after == b
    case None =>
      if Nothing(c) then p.user.Some? && EditableItem(b, i) && after == b
      else
        && Admitted(b, p, i, c) && Fits(b, b.items[i], c) && expected == b.plans[b.items[i].plan].version
        && if IsUpdated(b.items[i], c, b.items[i]) then after == b
           else
             && i in after.items && IsUpdated(b.items[i], c, after.items[i])
             && after.items == b.items[i := after.items[i]] && after.nextId == b.nextId
             && Stores(b, after, Next(b, b.items[i].plan), Some(i), "ITEM_UPDATED", p.user.value)
  }

  /** The edited fields, before estimate, remaining hours and status. */
  lemma FieldsAreEdited(item: Item, c: Changes)
    ensures var edited := Assigned(item, c);
            && IsEdited(item, c, edited) && edited.status == item.status && edited.current == item.current
            && edited.remaining == item.remaining && edited.reference == item.reference
  {
  }

  lemma StoryIsMeasured(edited: Item, c: Changes, estimated: Item, remaining: Item, after: Item)
    requires if c.current.Some? then Reestimate(edited, c.current.value) == Some(estimated) else estimated == edited
    requires if c.remaining.Some? then SetRemaining(estimated, c.remaining.value) == Some(remaining)
             else remaining == estimated
    requires if c.status.Some? then Transition(remaining, c.status.value) == Some(after) else after == remaining
    ensures IsMeasured(edited, c, after)
    ensures after == edited.(status := after.status, current := after.current, remaining := after.remaining,
                             reference := after.reference)
  {
  }

  lemma BothAreUpdated(item: Item, c: Changes, edited: Item, after: Item)
    requires IsEdited(item, c, edited) && edited.status == item.status && edited.current == item.current
    requires edited.remaining == item.remaining && edited.reference == item.reference
    requires IsMeasured(edited, c, after)
    requires after == edited.(status := after.status, current := after.current, remaining := after.remaining,
                              reference := after.reference)
    ensures IsUpdated(item, c, after)
  {
  }

  lemma FieldsAreUpdated(item: Item, c: Changes)
    requires Changed(item, c).Some?
    ensures IsUpdated(item, c, Changed(item, c).value)
  {
    var edited := Assigned(item, c);
    var estimated := if c.current.Some? then Reestimate(edited, c.current.value).value else edited;
    var remaining := if c.remaining.Some? then SetRemaining(estimated, c.remaining.value).value else estimated;
    FieldsAreEdited(item, c);
    StoryIsMeasured(edited, c, estimated, remaining, Changed(item, c).value);
    BothAreUpdated(item, c, edited, Changed(item, c).value);
  }

  lemma ChangeIsPossible(b: Board, item: Item, c: Changes)
    requires ValidItem(item)
    ensures Changed(item, c).Some? <==> Fits(b, item, c.(parent := None))
  {
  }

  /** There is one item an update leads to. */
  lemma UpdateIsOne(item: Item, c: Changes, x: Item, y: Item)
    requires IsUpdated(item, c, x) && IsUpdated(item, c, y)
    ensures x == y
  {
  }

  lemma MayUpdateExactly(p: Principal, plan: Plan, item: Item, c: Changes)
    ensures MayChange(p, plan, item, c) <==> MayUpdate(p, plan, item, c)
  {
    AllowedExactly(p, plan, None);
    AllowedExactly(p, plan, Some(item));
  }

  /** The changed item is acceptable on its board exactly if the changes fit. */
  lemma FitsExactly(b: Board, item: Item, c: Changes)
    requires Valid(b) && item.id in b.items && b.items[item.id] == item
    ensures var changed := Changed(item, c);
            Fits(b, item, c) <==> changed.Some? && ValidHierarchy(b.items[item.id := changed.value], item.plan)
  {
    ChangeIsPossible(b, item, c);
    if Changed(item, c).Some? {
      FieldsAreUpdated(item, c);
      PlacedExactly(b, Changed(item, c).value);
      PlacedExactly(b, item);
      assert b.items[item.id := item] == b.items;
    }
  }

  /** The new state of an update that is not refused. */
  lemma UpdateIsStored(b: Board, item: Item, c: Changes, changed: Item)
    requires Changed(item, c) == Some(changed)
    ensures IsUpdated(item, c, changed) && (IsUpdated(item, c, item) <==> changed == item)
  {
    FieldsAreUpdated(item, c);
    if IsUpdated(item, c, item) { UpdateIsOne(item, c, item, changed); }
  }

  lemma ChangeIsStored(b: Board, p: Principal, i: nat, c: Changes, expected: int)
    requires Valid(b) && DoUpdateItem(b, p, i, c, expected).Ok? && c != NO_CHANGES
    ensures i in b.items && Changed(b.items[i], c).Some? && p.user.Some?
    ensures var after, changed := DoUpdateItem(b, p, i, c, expected).value, Changed(b.items[i], c).value;
            if changed == b.items[i] then after == b
            else
              && after.items == b.items[i := changed] && after.nextId == b.nextId
              && Stores(b, after, Next(b, b.items[i].plan), Some(i), "ITEM_UPDATED", p.user.value)
  {
  }

  lemma AcceptedUpdateEndsSo(b: Board, p: Principal, i: nat, c: Changes, expected: int)
    requires Valid(b) && DoUpdateItem(b, p, i, c, expected).Ok?
    ensures UpdateItemEnds(b, p, i, c, expected, None, DoUpdateItem(b, p, i, c, expected).value)
  {
    if c != NO_CHANGES {
      var item := b.items[i];
      MayUpdateExactly(p, b.plans[item.plan], item, c);
      FitsExactly(b, item, c);
      ChangeIsStored(b, p, i, c, expected);
      UpdateIsStored(b, item, c, Changed(item, c).value);
    }
  }

  lemma UpdateItemEndsSo(b: Board, p: Principal, i: nat, c: Changes, expected: int)
    requires Valid(b)
    ensures var r := DoUpdateItem(b, p, i, c, expected);
            UpdateItemEnds(b, p, i, c, expected, if r.Ok? then None else Some(r.error), if r.Ok? then r.value else b)
  {
    if DoUpdateItem(b, p, i, c, expected).Ok? {
      AcceptedUpdateEndsSo(b, p, i, c, expected);
    } else if i in b.items {
      MayUpdateExactly(p, b.plans[b.items[i].plan], b.items[i], c);
      FitsExactly(b, b.items[i], c);
    }
  }

  // ---------------------------------------------------------------- blockages

  ghost predicate DocumentBlockageRefused(b: Board, p: Principal, i: nat, note: string, expected: int, e: Refusal)
    requires Valid(b)
  {
    match e
    case IdentityRequired => p.user.None?
    case ItemNotFound => p.user.Some? && i !in b.items
    case PlanArchived => p.user.Some? && i in b.items && b.plans[b.items[i].plan].status == ARCHIVED
    case ActionDenied => p.user.Some? && EditableItem(b, i) && !MayDocument(b, p, i)
    case NoteRequired => EditableItem(b, i) && MayDocument(b, p, i) && note == ""
    case _ =>
      EditableItem(b, i) && MayDocument(b, p, i) && note != "" && Outdated(b.plans[b.items[i].plan], expected, e)
  }

  predicate MayDocument(b: Board, p: Principal, i: nat)
    requires EditableItem(b, i)
  {
    Leads(p, b.plans[b.items[i].plan]) || WorksOn(p, b.items[i])
  }

  ghost predicate DocumentBlockageEnds(b: Board, p: Principal, i: nat, note: string, expected: int,
      error: Option<Refusal>, after: Board)
    requires Valid(b)
  {
    match error
    case Some(e) => DocumentBlockageRefused(b, p, i, note, expected, e) && after == b
    case None =>
      && EditableItem(b, i) && MayDocument(b, p, i) && note != "" && expected == b.plans[b.items[i].plan].version
      && Stores(b, after, Next(b, b.items[i].plan), Some(i), "BLOCKAGE_DOCUMENTED", p.user.value)
      && SameItems(b, after)
  }

  lemma MayDocumentExactly(b: Board, p: Principal, i: nat)
    requires EditableItem(b, i)
    ensures MayDocument(b, p, i) <==>
            Allowed(p, b.plans[b.items[i].plan], Some(b.items[i])) *
              {MANAGE_STORY_STATUS_BLOCKING, DOCUMENT_OWN_BLOCKAGE} != {}
  {
    AllowedExactly(p, b.plans[b.items[i].plan], Some(b.items[i]));
    var both := Allowed(p, b.plans[b.items[i].plan], Some(b.items[i])) *
        {MANAGE_STORY_STATUS_BLOCKING, DOCUMENT_OWN_BLOCKAGE};
    assert MANAGE_STORY_STATUS_BLOCKING in both <==> Leads(p, b.plans[b.items[i].plan]);
    assert DOCUMENT_OWN_BLOCKAGE in both <==> WorksOn(p, b.items[i]);
  }

  lemma DocumentBlockageEndsSo(b: Board, p: Principal, i: nat, note: string, expected: int)
    requires Valid(b)
    ensures var r := DoDocumentBlockage(b, p, i, note, expected);
            DocumentBlockageEnds(b, p, i, note, expected, if r.Ok? then None else Some(r.error), if r.Ok? then r.value
                else b)
  {
    if EditableItem(b, i) { MayDocumentExactly(b, p, i); }
  }
}
