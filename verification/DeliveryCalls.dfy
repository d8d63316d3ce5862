/** The Delivery service over the board it updates step by step. Every call is one transaction: what its guards refuse
    leaves the board as it was (app/application/delivery_service.py, app/infrastructure/sql/delivery_repository.py). */
module DeliveryCalls {
  import opened Options
  import opened DeliveryBoard
  import O = DeliveryOutcome

  class DeliveryService {
    var plans: map<nat, Plan>
    var items: map<nat, Item>
    var history: seq<Row>
    var nextId: nat
    var users: set<string>
    var workPackages: set<string>

    function Contents(): Board
      reads this
    {
      Board(plans, items, history, nextId, users, workPackages)
    }

    /** Rows are stored under their identifiers. */
    ghost predicate Keyed()
      reads this`plans
    {
      forall i :: i in plans ==> plans[i].id == i
    }

    constructor (users: set<string>, workPackages: set<string>)
      ensures Contents() == Board(map[], map[], [], 0, users, workPackages) && Valid(Contents())
    {
      plans, items, history, nextId := map[], map[], [], 0;
      this.users, this.workPackages := users, workPackages;
    }

    /** compare_and_increment_version: the row is updated iff it still has the expected version. */
    method CompareAndIncrement(planId: nat, expected: int) returns (next: Option<nat>)
      requires planId in plans
      modifies this`plans
      ensures next == if expected >= 1 && old(plans)[planId].version == expected
              then Some(old(plans)[planId].version + 1) else None
      ensures plans == if next.Some? then old(plans)[planId := old(plans)[planId].(version := next.value)]
              else old(plans)
    {
      if expected < 1 || plans[planId].version != expected { return None; }
      next := Some(plans[planId].version + 1);
      plans := plans[planId := plans[planId].(version := next.value)];
    }

    method AppendHistory(planId: nat, item: Option<nat>, action: string, version: nat, actor: string)
      modifies this`history
      ensures history == old(history) + [Row(planId, item, action, version, actor)]
    {
      history := history + [Row(planId, item, action, version, actor)];
    }

    /** _bump. */
    method Bump(planId: nat, expected: int) returns (next: nat, error: Option<Refusal>)
      requires planId in plans
      modifies this`plans
      ensures error == CheckExpected(old(plans)[planId], expected)
      ensures error.Some? ==> plans == old(plans)
      ensures error.None? ==>
                && next == old(plans)[planId].version + 1
                && plans == old(plans)[planId := old(plans)[planId].(version := next)]
    {
      next := 0;
      error := CheckExpected(plans[planId], expected);
      if error.Some? { return; }
      var incremented := CompareAndIncrement(planId, expected);
      next := incremented.value;
    }

    method TryCreatePlan(p: Principal, workPackage: string, lead: Option<string>) returns (error: Option<Refusal>)
      requires Keyed()
      modifies this
      ensures match DoCreatePlan(old(Contents()), p, workPackage, lead)
              case Err(e) => error == Some(e) && Contents() == old(Contents())
              case Ok(b) => error == None && Contents() == b
    {
      if p.user.None? { return Some(IdentityRequired); }
      if workPackage !in workPackages { return Some(WorkPackageNotFound); }
      if NonArchived(Contents(), workPackage) { return Some(PlanExists); }
      if !ValidUser(Contents(), lead) { return Some(UserNotFound); }
      var plan := Plan(nextId, workPackage, DRAFT, lead, 1);
      if MANAGE_PLAN_LIFECYCLE !in Allowed(p, plan, None) { return Some(ActionDenied); }
      if lead.Some? && ASSIGN_TEAM_LEAD !in Allowed(p, plan, None) { return Some(ActionDenied); }
      nextId := nextId + 1;
      plans := plans[plan.id := plan];
      AppendHistory(plan.id, None, "PLAN_CREATED", 1, p.user.value);
      error := None;
    }

    method TrySetPlanStatus(p: Principal, planId: nat, target: PlanStatus, expected: int)
      returns (error: Option<Refusal>)
      requires Keyed()
      modifies this
      ensures match DoSetStatus(old(Contents()), p, planId, target, expected)
              case Err(e) => error == Some(e) && Contents() == old(Contents())
              case Ok(b) => error == None && Contents() == b
    {
      if p.user.None? { return Some(IdentityRequired); }
      if planId !in plans { return Some(PlanNotFound); }
      var plan := plans[planId];
      if MANAGE_PLAN_LIFECYCLE !in Allowed(p, plan, None) { return Some(ActionDenied); }
      error := CheckExpected(plan, expected);
      if error.Some? || plan.status == target { return; }
      if !PlanTransition(plan.status, target) { return Some(TransitionInvalid); }
      var next;
      next, error := Bump(planId, expected);
      plans := plans[planId := plan.(status := target, version := next)];
      AppendHistory(planId, None, StatusAction(target), next, p.user.value);
    }

    method TrySetLead(p: Principal, planId: nat, lead: Option<string>, expected: int) returns (error: Option<Refusal>)
      requires Keyed()
      modifies this
      ensures match DoSetLead(old(Contents()), p, planId, lead, expected)
              case Err(e) => error == Some(e) && Contents() == old(Contents())
              case Ok(b) => error == None && Contents() == b
    {
      if p.user.None? { return Some(IdentityRequired); }
      if planId !in plans { return Some(PlanNotFound); }
      var plan := plans[planId];
      if plan.status == ARCHIVED { return Some(PlanArchived); }
      if ASSIGN_TEAM_LEAD !in Allowed(p, plan, None) { return Some(ActionDenied); }
      if !ValidUser(Contents(), lead) { return Some(UserNotFound); }
      error := CheckExpected(plan, expected);
      if error.Some? || plan.lead == lead { return; }
      var next;
      next, error := Bump(planId, expected);
      plans := plans[planId := plan.(lead := lead, version := next)];
      AppendHistory(planId, None, "PLAN_LEAD_CHANGED", next, p.user.value);
    }

    method TryCreateItem(p: Principal, planId: nat, d: Draft, expected: int) returns (error: Option<Refusal>)
      requires Keyed()
      modifies this
      ensures match DoCreateItem(old(Contents()), p, planId, d, expected)
              case Err(e) => error == Some(e) && Contents() == old(Contents())
              case Ok(b) => error == None && Contents() == b
    {
      if p.user.None? { return Some(IdentityRequired); }
      if planId !in plans { return Some(PlanNotFound); }
      var plan := plans[planId];
      if plan.status == ARCHIVED { return Some(PlanArchived); }
      if MANAGE_STRUCTURE !in Allowed(p, plan, None) { return Some(ActionDenied); }
      if d.kind == STORY && d.status == DONE { return Some(VerificationRequired); }
      if !ValidUser(Contents(), d.assignee) { return Some(UserNotFound); }
      if d.assignee.Some? && ASSIGN_STORIES !in Allowed(p, plan, None) { return Some(ActionDenied); }
      var item := NewItem(Contents(), planId, d);
      if item.None? || !ValidHierarchy(items[nextId := item.value], planId) { return Some(ItemInvalid); }
      var next;
      next, error := Bump(planId, expected);
      if error.Some? { return; }
      items := items[nextId := item.value];
      AppendHistory(planId, Some(nextId), "ITEM_CREATED", next, p.user.value);
      nextId := nextId + 1;
    }

    method TryUpdateItem(p: Principal, itemId: nat, c: Changes, expected: int) returns (error: Option<Refusal>)
      requires Keyed()
      modifies this
      ensures match DoUpdateItem(old(Contents()), p, itemId, c, expected)
              case Err(e) => error == Some(e) && Contents() == old(Contents())
              case Ok(b) => error == None && Contents() == b
    {
      if p.user.None? { return Some(IdentityRequired); }
      if itemId !in items { return Some(ItemNotFound); }
      var item := items[itemId];
      if item.plan !in plans { return Some(PlanNotFound); }
      var plan := plans[item.plan];
      if plan.status == ARCHIVED { return Some(PlanArchived); }
      if c == NO_CHANGES { return None; }
      if !MayChange(p, plan, item, c) { return Some(ActionDenied); }
      if item.kind == STORY && item.status != DONE && c.status == Some(DONE) { return Some(VerificationRequired); }
      if c.assignee.Some? && !ValidUser(Contents(), c.assignee.value) { return Some(UserNotFound); }
      var changed := Changed(item, c);
      if changed.None? || !ValidHierarchy(items[itemId := changed.value], item.plan) { return Some(ItemInvalid); }
      error := CheckExpected(plan, expected);
      if error.Some? || changed.value == item { return; }
      error := SaveItem(p.user.value, itemId, changed.value, expected);
    }

    /** The bump, the write of the item and its history row. */
    method SaveItem(actor: string, itemId: nat, changed: Item, expected: int) returns (error: Option<Refusal>)
      requires changed.plan in plans && plans[changed.plan].id == changed.plan
      requires CheckExpected(plans[changed.plan], expected) == None
      modifies this
      ensures error == None
      ensures Contents() == Bumped(old(Contents()).(items := old(items)[itemId := changed]), old(plans)[changed.plan],
              Some(itemId), "ITEM_UPDATED", actor)
    {
      var next;
      next, error := Bump(changed.plan, expected);
      items := items[itemId := changed];
      AppendHistory(changed.plan, Some(itemId), "ITEM_UPDATED", next, actor);
    }

    method TryDocumentBlockage(p: Principal, itemId: nat, note: string, expected: int) returns (error: Option<Refusal>)
      requires Keyed()
      modifies this
      ensures match DoDocumentBlockage(old(Contents()), p, itemId, note, expected)
              case Err(e) => error == Some(e) && Contents() == old(Contents())
              case Ok(b) => error == None && Contents() == b
    {
      if p.user.None? { return Some(IdentityRequired); }
      if itemId !in items { return Some(ItemNotFound); }
      var item := items[itemId];
      if item.plan !in plans { return Some(PlanNotFound); }
      var plan := plans[item.plan];
      if plan.status == ARCHIVED { return Some(PlanArchived); }
      if Allowed(p, plan, Some(item)) * {MANAGE_STORY_STATUS_BLOCKING, DOCUMENT_OWN_BLOCKAGE} ==
          {} { return Some(ActionDenied); }
      if note == "" { return Some(NoteRequired); }
      var next;
      next, error := Bump(item.plan, expected);
      if error.Some? { return; }
      AppendHistory(item.plan, Some(itemId), "BLOCKAGE_DOCUMENTED", next, p.user.value);
    }

    // -------------------------------------------------------------- the calls

    /** A draft plan and its first history row. */
    method CreatePlan(p: Principal, workPackage: string, lead: Option<string>) returns (error: Option<Refusal>)
      requires Valid(Contents())
      modifies this
      ensures Valid(Contents()) && Evolves(old(Contents()), Contents())
      ensures match DoCreatePlan(old(Contents()), p, workPackage, lead)
              case Err(e) => error == Some(e) && Contents() == old(Contents())
              case Ok(b) => error == None && Contents() == b
      ensures O.CreatePlanEnds(old(Contents()), p, workPackage, lead, error, Contents())
    {
      O.CreatePlanEndsSo(Contents(), p, workPackage, lead);
      ghost var after := CallOutcome(Contents(), p, Command.CreatePlan(workPackage, lead));
      error := TryCreatePlan(p, workPackage, lead);
      assert Contents() == after;
    }

    /** One step forward, with the version and a history row. */
    method SetPlanStatus(p: Principal, planId: nat, target: PlanStatus, expected: int) returns (error: Option<Refusal>)
      requires Valid(Contents())
      modifies this
      ensures Valid(Contents()) && Evolves(old(Contents()), Contents())
      ensures match DoSetStatus(old(Contents()), p, planId, target, expected)
              case Err(e) => error == Some(e) && Contents() == old(Contents())
              case Ok(b) => error == None && Contents() == b
      ensures O.SetStatusEnds(old(Contents()), p, planId, target, expected, error, Contents())
    {
      O.SetStatusEndsSo(Contents(), p, planId, target, expected);
      ghost var after := CallOutcome(Contents(), p, Command.SetStatus(planId, target, expected));
      error := TrySetPlanStatus(p, planId, target, expected);
      assert Contents() == after;
    }

    /** The team lead, with the version and a history row. */
    method SetLead(p: Principal, planId: nat, lead: Option<string>, expected: int) returns (error: Option<Refusal>)
      requires Valid(Contents())
      modifies this
      ensures Valid(Contents()) && Evolves(old(Contents()), Contents())
      ensures match DoSetLead(old(Contents()), p, planId, lead, expected)
              case Err(e) => error == Some(e) && Contents() == old(Contents())
              case Ok(b) => error == None && Contents() == b
      ensures O.SetLeadEnds(old(Contents()), p, planId, lead, expected, error, Contents())
    {
      O.SetLeadEndsSo(Contents(), p, planId, lead, expected);
      ghost var after := CallOutcome(Contents(), p, Command.SetLead(planId, lead, expected));
      error := TrySetLead(p, planId, lead, expected);
      assert Contents() == after;
    }

    /** An item, with the version of its plan and a history row. */
    method CreateItem(p: Principal, planId: nat, d: Draft, expected: int) returns (error: Option<Refusal>)
      requires Valid(Contents())
      modifies this
      ensures Valid(Contents()) && Evolves(old(Contents()), Contents())
      ensures match DoCreateItem(old(Contents()), p, planId, d, expected)
              case Err(e) => error == Some(e) && Contents() == old(Contents())
              case Ok(b) => error == None && Contents() == b
      ensures O.CreateItemEnds(old(Contents()), p, planId, d, expected, error, Contents())
    {
      O.CreateItemEndsSo(Contents(), p, planId, d, expected);
      ghost var after := CallOutcome(Contents(), p, Command.CreateItem(planId, d, expected));
      error := TryCreateItem(p, planId, d, expected);
      assert Contents() == after;
    }

    /** A changed item, with the version of its plan and a history row. */
    method UpdateItem(p: Principal, itemId: nat, c: Changes, expected: int) returns (error: Option<Refusal>)
      requires Valid(Contents())
      modifies this
      ensures Valid(Contents()) && Evolves(old(Contents()), Contents())
      ensures match DoUpdateItem(old(Contents()), p, itemId, c, expected)
              case Err(e) => error == Some(e) && Contents() == old(Contents())
              case Ok(b) => error == None && Contents() == b
      ensures O.UpdateItemEnds(old(Contents()), p, itemId, c, expected, error, Contents())
    {
      O.UpdateItemEndsSo(Contents(), p, itemId, c, expected);
      ghost var after := CallOutcome(Contents(), p, Command.UpdateItem(itemId, c, expected));
      error := TryUpdateItem(p, itemId, c, expected);
      assert Contents() == after;
    }

    /** The version and a history row; the item stays. */
    method DocumentBlockage(p: Principal, itemId: nat, note: string, expected: int) returns (error: Option<Refusal>)
      requires Valid(Contents())
      modifies this
      ensures Valid(Contents()) && Evolves(old(Contents()), Contents())
      ensures match DoDocumentBlockage(old(Contents()), p, itemId, note, expected)
              case Err(e) => error == Some(e) && Contents() == old(Contents())
              case Ok(b) => error == None && Contents() == b
      ensures O.DocumentBlockageEnds(old(Contents()), p, itemId, note, expected, error, Contents())
    {
      O.DocumentBlockageEndsSo(Contents(), p, itemId, note, expected);
      ghost var after := CallOutcome(Contents(), p, Command.DocumentBlockage(itemId, note, expected));
      error := TryDocumentBlockage(p, itemId, note, expected);
      assert Contents() == after;
    }
  }
}
