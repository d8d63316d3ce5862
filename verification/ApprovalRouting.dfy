/** Routing of one demand line to its approval scope and approvers
    (app/application/approval_scopes.py, app/domain/approval_routing.py, and the per-period
    resolution of app/application/approval_cycles.py).

    An explicit resource class decides first, then the scopes of the task, then the class of the
    proposed resource, then the class of the task; an asset line is routed by its asset type. A line
    whose periods propose different resources is resolved once per period, and all resolutions must
    name one scope. */
module ApprovalRouting {
  import opened Options

  datatype Scope = Scope(id: string, active: bool)

  datatype Task = Task(active: bool, classCode: Option<string>)

  datatype Resource = Resource(active: bool, classCode: Option<string>)

  datatype Asset = Asset(active: bool, typeId: string)

  datatype User = User(active: bool, mayApprove: bool)

  /** What the repositories answer. */
  datatype Directory = Directory(
    tasks: map<string, Task>, taskScopes: map<string, seq<Scope>>,
    resources: map<string, Resource>, classes: map<string, bool>, classScopes: map<string, seq<Scope>>,
    assetTypes: map<string, bool>, assetTypeScopes: map<string, seq<Scope>>, assets: map<string, Asset>,
    scopeApprovers: map<string, seq<string>>, assetApprovers: map<string, seq<string>>,
    resourceApprovers: map<string, seq<string>>, users: map<string, User>)

  /** A request line as the scope repository reads it; blank texts are None. */
  datatype Line = Line(
    active: bool, kind: string, task: Option<string>, requiredClass: Option<string>,
    assetType: Option<string>, proposedAsset: Option<string>)

  datatype Source =
    | ApprovalScope | ProposedResource | ProposedAsset
    | RequiredResourceClass | ProposedResourceClass | AssetTypeSource

  datatype Diagnostic =
    | LineInactive | TaskNotFound | TaskInactive | RoutingSourceMissing | ResourceClassMissing | ResourceClassNotFound
    | ResourceClassInactive | ProposedResourceUnknown | ProposedResourceInactive
    | ScopeUnmapped | ScopeAmbiguous | ScopeInactive
    | NoEligibleApprover | AssetTypeUnknown | AssetTypeInactive
    | ProposedAssetUnknown | ProposedAssetInactive | ProposedAssetTypeMismatch

  datatype Choice = Block(diagnostic: Diagnostic) | Candidates(scopes: seq<Scope>)

  /** approvers: the eligible users with what makes them eligible; a blocked line has a diagnostic. */
  datatype Resolution = Resolution(
    scope: Option<string>, approvers: map<string, set<Source>>, diagnostic: Option<Diagnostic>)

  /** A resolution with the sources that routed it. */
  datatype Resolved = Resolved(resolution: Resolution, sources: set<Source>)

  function Lookup<T>(m: map<string, T>, key: Option<string>): Option<T> {
    if key.Some? && key.value in m then Some(m[key.value]) else None
  }

  function ListOf<T>(m: map<string, seq<T>>, key: string): seq<T> {
    if key in m then m[key] else []
  }

  function ActiveOnly(scopes: seq<Scope>): seq<Scope> {
    if scopes == [] then []
    else (if scopes[0].active then [scopes[0]] else []) + ActiveOnly(scopes[1..])
  }

  function Preferred(scopes: seq<Scope>): seq<Scope> {
    if ActiveOnly(scopes) != [] then ActiveOnly(scopes) else scopes
  }

  function UpperAscii(s: string): string {
    seq(|s|, i requires 0 <= i < |s| => if 'a' <= s[i] <= 'z' then s[i] - 'a' + 'A' else s[i])
  }

  predicate IsAssetLine(line: Line) {
    UpperAscii(line.kind) == "ASSET"
  }

  // ---------------------------------------------------------------- workforce lines

  /** The scopes of the task decide: active task with scopes, active line, no explicit class. */
  predicate TaskDecides(dir: Directory, line: Line) {
    var task := Lookup(dir.tasks, line.task);
    line.requiredClass.None? && line.active && task.Some? && task.value.active &&
        ListOf(dir.taskScopes, line.task.value) != []
  }

  /** The class that routes a line when neither the class nor the line or task is missing. */
  function EffectiveClass(dir: Directory, line: Line,
      proposed: Option<string>): (r: (Option<Diagnostic>, Option<string>)) {
    var task := Lookup(dir.tasks, line.task);
    if line.requiredClass.Some? then (None, line.requiredClass)
    else if proposed.Some? then
      var resource := Lookup(dir.resources, proposed);
      if resource.None? then (Some(ProposedResourceUnknown), None)
      else if !resource.value.active then (Some(ProposedResourceInactive), None)
      else if resource.value.classCode.Some? then (None, resource.value.classCode)
      else if task.Some? then (None, task.value.classCode)
      else (Some(ResourceClassMissing), None)
    else if task.Some? then (None, task.value.classCode)
    else (Some(RoutingSourceMissing), None)
  }

  function ChooseScopes(dir: Directory, line: Line, proposed: Option<string>): Choice {
    var task := Lookup(dir.tasks, line.task);
    if TaskDecides(dir, line) then Candidates(Preferred(ListOf(dir.taskScopes, line.task.value)))
    else if line.active && (line.task.None? || (task.Some? && task.value.active)) then
      var (diagnostic, code) := EffectiveClass(dir, line, proposed);
      if diagnostic.Some? then Block(diagnostic.value)
      else if code.None? then Block(ResourceClassMissing)
      else if code.value !in dir.classes then Block(ResourceClassNotFound)
      else if !dir.classes[code.value] then Block(ResourceClassInactive)
      else Candidates(Preferred(ListOf(dir.classScopes, code.value)))
    else Candidates([])
  }

  /** routing_sources of a workforce resolution. */
  function RoutingSources(dir: Directory, line: Line, proposed: Option<string>): set<Source> {
    if line.requiredClass.Some? then {RequiredResourceClass}
    else if !TaskDecides(dir, line) && line.active && proposed.Some?
            && (line.task.None? || (Lookup(dir.tasks, line.task).Some? && Lookup(dir.tasks, line.task).value.active))
                 then {ProposedResourceClass}
    else {}
  }

  predicate Eligible(dir: Directory, user: string) {
    user in dir.users && dir.users[user].active && dir.users[user].mayApprove
  }

  function Members(ids: seq<string>): set<string> {
    set u | u in ids && u != ""
  }

  function EligibleApprovers(dir: Directory, scopeIds: seq<string>, otherIds: seq<string>,
      other: Source): map<string, set<Source>> {
    map u: string | u in Members(scopeIds) + Members(otherIds) && Eligible(dir, u) ::
      (if u in scopeIds then {ApprovalScope} else {}) + (if u in otherIds then {other} else {})
  }

  /** An unblocked resolution names a scope and has approvers, all eligible through a scope, a resource or an asset. */
  ghost predicate Sound(dir: Directory, r: Resolution) {
    && (forall u :: u in r.approvers ==>
         Eligible(dir, u) && r.approvers[u] <= {ApprovalScope, ProposedResource, ProposedAsset})
    && (r.diagnostic.None? ==> r.scope.Some? && r.approvers != map[])
  }

  /** One candidate scope must remain, and be active; its approvers and the others must include an eligible user. */
  function ResolveScope(dir: Directory, scopes: seq<Scope>, otherIds: seq<string>, other: Source): (r: Resolution)
    requires other == ProposedResource || other == ProposedAsset
    ensures Sound(dir, r)
  {
    if scopes == [] then Resolution(None, map[], Some(ScopeUnmapped))
    else if |scopes| != 1 then Resolution(None, map[], Some(ScopeAmbiguous))
    else if !scopes[0].active then Resolution(Some(scopes[0].id), map[], Some(ScopeInactive))
    else
      var approvers := EligibleApprovers(dir, ListOf(dir.scopeApprovers, scopes[0].id), otherIds, other);
      Resolution(Some(scopes[0].id), approvers, if approvers == map[] then Some(NoEligibleApprover) else None)
  }

  function ResolveWorkforceLine(dir: Directory, line: Line, proposed: Option<string>,
      resourceApprovers: seq<string>): (r: Resolution)
    ensures Sound(dir, r)
  {
    match ChooseScopes(dir, line, proposed)
    case Block(diagnostic) => Resolution(None, map[], Some(diagnostic))
    case Candidates(scopes) =>
      if !line.active then Resolution(None, map[], Some(LineInactive))
      else if line.task.Some? && line.task.value !in dir.tasks then Resolution(None, map[], Some(TaskNotFound))
      else if line.task.Some? && !dir.tasks[line.task.value].active then Resolution(None, map[], Some(TaskInactive))
      else ResolveScope(dir, scopes, resourceApprovers, ProposedResource)
  }

  // ---------------------------------------------------------------- asset lines

  function ResolveAssetLine(dir: Directory, line: Line): (r: Resolution)
    ensures Sound(dir, r)
  {
    var known := Lookup(dir.assetTypes, line.assetType);
    var asset := Lookup(dir.assets, line.proposedAsset);
    if !line.active then Resolution(None, map[], Some(LineInactive))
    else if known.None? then Resolution(None, map[], Some(AssetTypeUnknown))
    else if !known.value then Resolution(None, map[], Some(AssetTypeInactive))
    else if line.proposedAsset.Some? && asset.None? then Resolution(None, map[], Some(ProposedAssetUnknown))
    else if asset.Some? && !asset.value.active then Resolution(None, map[], Some(ProposedAssetInactive))
    else if asset.Some? && asset.value.typeId != line.assetType.value
        then Resolution(None, map[], Some(ProposedAssetTypeMismatch))
    else
      ResolveScope(dir, Preferred(ListOf(dir.assetTypeScopes, line.assetType.value)),
                   if asset.Some? then ListOf(dir.assetApprovers, line.proposedAsset.value) else [], ProposedAsset)
  }

  function ResolveLine(dir: Directory, line: Line, proposed: Option<string>): (r: Resolved)
    ensures Sound(dir, r.resolution) && AssetTypeSource !in r.sources
  {
    if IsAssetLine(line) then Resolved(ResolveAssetLine(dir, line), {})
    else
      Resolved(ResolveWorkforceLine(dir, line, proposed, if proposed.Some?
          then ListOf(dir.resourceApprovers, proposed.value) else []),
               RoutingSources(dir, line, proposed))
  }

  // ---------------------------------------------------------------- who decides

  lemma {:induction false} ActiveOnesRemain(scopes: seq<Scope>)
    ensures forall x :: x in ActiveOnly(scopes) <==> x in scopes && x.active
  {
    if scopes != [] {
      ActiveOnesRemain(scopes[1..]);
      assert scopes == [scopes[0]] + scopes[1..];
    }
  }

  /** An unblocked resolution names the only active scope of its candidates, and approves with exactly the
      active, permitted users of that scope or of the other authority. */
  lemma ResolvedByOnlyActive(dir: Directory, scopes: seq<Scope>, otherIds: seq<string>, other: Source)
    requires other == ProposedResource || other == ProposedAsset
    requires ResolveScope(dir, Preferred(scopes), otherIds, other).diagnostic.None?
    ensures var r := ResolveScope(dir, Preferred(scopes), otherIds, other);
            && r.scope.Some? && ActiveOnly(scopes) == [Scope(r.scope.value, true)]
            && forall u :: u in r.approvers <==>
                 u != "" && Eligible(dir, u) && (u in ListOf(dir.scopeApprovers, r.scope.value) || u in otherIds)
  {
    ActiveOnesRemain(scopes);
    var chosen := Preferred(scopes);
    assert chosen[0] in chosen;
    assert chosen[0] in ActiveOnly(scopes);
  }

  /** The scopes that have authority over a workforce line, in order of precedence: those of its explicit class,
      of its active task, of the class of the proposed resource, of the class of the task. */
  function Authority(dir: Directory, line: Line, proposed: Option<string>): seq<Scope> {
    var task, resource := Lookup(dir.tasks, line.task), Lookup(dir.resources, proposed);
    if line.requiredClass.Some? then ListOf(dir.classScopes, line.requiredClass.value)
    else if task.Some? && ListOf(dir.taskScopes, line.task.value) != [] then ListOf(dir.taskScopes, line.task.value)
    else if resource.Some? && resource.value.classCode.Some?
        then ListOf(dir.classScopes, resource.value.classCode.value)
    else if task.Some? && task.value.classCode.Some? then ListOf(dir.classScopes, task.value.classCode.value)
    else []
  }

  /** A workforce line is resolved by the only active scope of the first authority that applies to it. */
  lemma WorkforceAuthority(dir: Directory, line: Line, proposed: Option<string>)
    requires !IsAssetLine(line) && ResolveLine(dir, line, proposed).resolution.diagnostic.None?
    ensures var r := ResolveLine(dir, line, proposed).resolution;
            && line.active && r.scope.Some? &&
                 ActiveOnly(Authority(dir, line, proposed)) == [Scope(r.scope.value, true)]
            && (proposed.Some? && line.requiredClass.None? && !TaskDecides(dir, line) ==>
                 proposed.value in dir.resources && dir.resources[proposed.value].active)
            && forall u :: u in r.approvers <==>
                 u != "" && Eligible(dir, u)
                 && (u in ListOf(dir.scopeApprovers, r.scope.value) ||
                      (proposed.Some? && u in ListOf(dir.resourceApprovers, proposed.value)))
  {
    ResolvedByOnlyActive(dir, Authority(dir, line, proposed), if proposed.Some?
        then ListOf(dir.resourceApprovers, proposed.value) else [], ProposedResource);
  }

  /** An asset line is resolved by the only active scope of its type, and by the approvers of the proposed asset. */
  lemma AssetAuthority(dir: Directory, line: Line, proposed: Option<string>)
    requires IsAssetLine(line) && ResolveLine(dir, line, proposed).resolution.diagnostic.None?
    ensures var r := ResolveLine(dir, line, proposed).resolution;
            && line.active && line.assetType.Some? && r.scope.Some?
            && ActiveOnly(ListOf(dir.assetTypeScopes, line.assetType.value)) == [Scope(r.scope.value, true)]
            && (line.proposedAsset.Some? ==>
                 line.proposedAsset.value in dir.assets &&
                     dir.assets[line.proposedAsset.value].typeId == line.assetType.value)
            && forall u :: u in r.approvers <==>
                 u != "" && Eligible(dir, u)
                 && (u in ListOf(dir.scopeApprovers, r.scope.value) ||
                      (line.proposedAsset.Some? && u in ListOf(dir.assetApprovers, line.proposedAsset.value)))
  {
    ResolvedByOnlyActive(dir, ListOf(dir.assetTypeScopes, line.assetType.value),
                         if line.proposedAsset.Some? then ListOf(dir.assetApprovers, line.proposedAsset.value)
                             else [], ProposedAsset);
  }

  // ---------------------------------------------------------------- all periods of a line

  datatype Routed = Routed(scope: string, approvers: map<string, set<Source>>, sources: set<Source>)

  datatype RoutingOutcome =
    | Accepted(routed: Routed)
    | Blocked(period: nat, resolution: Resolution)
    | PeriodsIncompatible(scopes: set<string>)

  function UnionSources(a: map<string, set<Source>>, b: map<string, set<Source>>): map<string, set<Source>> {
    map u | u in a.Keys + b.Keys :: (if u in a then a[u] else {}) + (if u in b then b[u] else {})
  }

  datatype Gathered = Gathered(scopes: set<string>, approvers: map<string, set<Source>>, sources: set<Source>)

  /** What the resolutions of all proposals bring together. */
  function Gather(rs: seq<Resolved>): Gathered {
    if rs == [] then Gathered({}, map[], {})
    else AddResolved(Gather(rs[..|rs| - 1]), rs[|rs| - 1])
  }

  function AddResolved(g: Gathered, r: Resolved): Gathered {
    Gathered(g.scopes + (if r.resolution.scope.Some? then {r.resolution.scope.value} else {}),
             UnionSources(g.approvers, r.resolution.approvers), g.sources + r.sources)
  }

  function FirstBlocked(rs: seq<Resolved>): (i: nat)
    ensures i <= |rs| && forall k :: 0 <= k < i ==> rs[k].resolution.diagnostic.None?
    ensures i < |rs| ==> rs[i].resolution.diagnostic.Some?
  {
    if rs == [] || rs[0].resolution.diagnostic.Some? then 0 else 1 + FirstBlocked(rs[1..])
  }

  ghost function Combine(rs: seq<Resolved>): RoutingOutcome {
    var i, g := FirstBlocked(rs), Gather(rs);
    if i < |rs| then Blocked(i, rs[i].resolution)
    else if |g.scopes| != 1 then PeriodsIncompatible(g.scopes)
    else
      var scope :| scope in g.scopes;
      Accepted(Routed(scope, g.approvers, g.sources))
  }

  ghost function Resolutions(dir: Directory, line: Line, proposals: seq<Option<string>>): (rs: seq<Resolved>)
    ensures |rs| == |proposals| && forall i :: 0 <= i < |rs| ==>
            rs[i] == ResolveLine(dir, line, proposals[i]) && Sound(dir, rs[i].resolution) &&
                AssetTypeSource !in rs[i].sources
  {
    seq(|proposals|, i requires 0 <= i < |proposals| => ResolveLine(dir, line, proposals[i]))
  }

  ghost function RouteProposals(dir: Directory, line: Line, proposals: seq<Option<string>>): RoutingOutcome {
    Combine(Resolutions(dir, line, proposals))
  }

  lemma {:induction false} GatheredScopes(rs: seq<Resolved>, s: string)
    ensures s in Gather(rs).scopes <==> exists r :: r in rs && r.resolution.scope == Some(s)
  {
    if rs != [] {
      GatheredScopes(rs[..|rs| - 1], s);
      assert rs == rs[..|rs| - 1] + [rs[|rs| - 1]];
    }
  }

  lemma {:induction false} GatheredApprovers(rs: seq<Resolved>, u: string)
    ensures u in Gather(rs).approvers <==> exists i :: 0 <= i < |rs| && u in rs[i].resolution.approvers
  {
    if rs != [] { GatheredApprovers(rs[..|rs| - 1], u); }
  }

  lemma {:induction false} GatheredKinds(dir: Directory, rs: seq<Resolved>)
    requires forall i :: 0 <= i < |rs| ==> Sound(dir, rs[i].resolution) && AssetTypeSource !in rs[i].sources
    ensures AssetTypeSource !in Gather(rs).sources
    ensures forall u :: u in Gather(rs).approvers ==> AssetTypeSource !in Gather(rs).approvers[u]
  {
    if rs != [] {
      GatheredKinds(dir, rs[..|rs| - 1]);
      assert Sound(dir, rs[|rs| - 1].resolution);
    }
  }

  lemma CombineAccepted(rs: seq<Resolved>, scope: string)
    requires FirstBlocked(rs) == |rs| && Gather(rs).scopes == {scope}
    ensures Combine(rs) == Accepted(Routed(scope, Gather(rs).approvers, Gather(rs).sources))
  {
  }

  lemma AcceptedScope(rs: seq<Resolved>, i: nat)
    requires Combine(rs).Accepted? && i < |rs| && (rs[i].resolution.diagnostic.None? ==> rs[i].resolution.scope.Some?)
    ensures rs[i].resolution.scope == Some(Combine(rs).routed.scope) && rs[i].resolution.diagnostic.None?
  {
    Singleton(Gather(rs).scopes, Combine(rs).routed.scope);
    GatheredScopes(rs, rs[i].resolution.scope.value);
    assert rs[i] in rs;
  }

  ghost predicate AllSound(dir: Directory, rs: seq<Resolved>) {
    forall i :: 0 <= i < |rs| ==> Sound(dir, rs[i].resolution) && AssetTypeSource !in rs[i].sources
  }

  /** An accepted outcome has one scope, shared by all resolutions, and exactly their approvers, all of whom
      are active and permitted. */
  ghost predicate JoinsAll(dir: Directory, rs: seq<Resolved>, routed: Routed) {
    && (forall i :: 0 <= i < |rs| ==> rs[i].resolution.scope == Some(routed.scope))
    && (forall u :: u in routed.approvers <==> exists i :: 0 <= i < |rs| && u in rs[i].resolution.approvers)
    && (forall u :: u in routed.approvers ==> Eligible(dir, u) && AssetTypeSource !in routed.approvers[u])
    && routed.approvers != map[] && AssetTypeSource !in routed.sources
  }

  lemma CombinedApprovers(dir: Directory, rs: seq<Resolved>)
    requires rs != [] && AllSound(dir, rs) && Combine(rs).Accepted?
    ensures JoinsAll(dir, rs, Combine(rs).routed)
  {
    var routed := Combine(rs).routed;
    GatheredKinds(dir, rs);
    forall i | 0 <= i < |rs| ensures rs[i].resolution.scope == Some(routed.scope) { AcceptedScope(rs, i); }
    forall u ensures u in routed.approvers <==>
        exists i :: 0 <= i < |rs| && u in rs[i].resolution.approvers { GatheredApprovers(rs, u); }
    AcceptedScope(rs, 0);
    var u :| u in rs[0].resolution.approvers;
    assert u in routed.approvers;
  }

  lemma AcceptedLine(dir: Directory, line: Line, proposals: seq<Option<string>>)
    requires proposals != [] && RouteProposals(dir, line, proposals).Accepted?
    ensures JoinsAll(dir, Resolutions(dir, line, proposals), RouteProposals(dir, line, proposals).routed)
  {
    CombinedApprovers(dir, Resolutions(dir, line, proposals));
  }

  /** _resolve_line_routing: every proposal is resolved; one scope must be common to all. */
  method ResolveProposals(dir: Directory, line: Line, proposals: seq<Option<string>>) returns (outcome: RoutingOutcome)
    requires proposals != []
    ensures outcome == RouteProposals(dir, line, proposals)
  {
    ghost var rs := Resolutions(dir, line, proposals);
    var g := Gathered({}, map[], {});
    assert rs[..0] == [];
    for i := 0 to |proposals|
      invariant i <= FirstBlocked(rs)
      invariant g == Gather(rs[..i])
    {
      assert rs[..i + 1][..i] == rs[..i] && rs[..i + 1][i] == rs[i];
      var r := ResolveLine(dir, line, proposals[i]);
      if r.resolution.diagnostic.Some? {
        assert FirstBlocked(rs) == i;
        return Blocked(i, r.resolution);
      }
      g := AddResolved(g, r);
    }
    assert rs[..|proposals|] == rs;
    if |g.scopes| != 1 { return PeriodsIncompatible(g.scopes); }
    var scope :| scope in g.scopes;
    Singleton(g.scopes, scope);
    CombineAccepted(rs, scope);
    outcome := Accepted(Routed(scope, g.approvers, g.sources));
  }

  lemma Singleton(s: set<string>, x: string)
    requires |s| == 1 && x in s
    ensures s == {x}
  {
    assert |s - {x}| == 0;
  }

  // ---------------------------------------------------------------- when periods can disagree

  /** Only a line that is routed by the class of its proposed resource can be led to several scopes. */
  predicate ProposalDecides(dir: Directory, line: Line) {
    !IsAssetLine(line) && line.requiredClass.None? && !TaskDecides(dir, line)
  }

  /** Two-run property: unless the proposal decides, two proposals accepted for one line name the same scope. */
  lemma SameScopeForAllProposals(dir: Directory, line: Line, p: Option<string>, q: Option<string>)
    requires !ProposalDecides(dir, line)
    requires ResolveLine(dir, line, p).resolution.diagnostic.None? &&
             ResolveLine(dir, line, q).resolution.diagnostic.None?
    ensures ResolveLine(dir, line, p).resolution.scope == ResolveLine(dir, line, q).resolution.scope
  {
  }

  /** The incompatibility is raised exactly when no resolution is blocked and two of them name different scopes. */
  lemma IncompatibleExactly(dir: Directory, rs: seq<Resolved>)
    requires rs != [] && forall r :: r in rs ==> Sound(dir, r.resolution)
    ensures Combine(rs).PeriodsIncompatible? <==>
            && (forall r :: r in rs ==> r.resolution.diagnostic.None?)
            && (exists r, t :: r in rs && t in rs && r.resolution.scope != t.resolution.scope)
  {
    var g, i := Gather(rs), FirstBlocked(rs);
    if i < |rs| {
      assert rs[i] in rs;
    } else {
      forall r | r in rs ensures r.resolution.diagnostic.None? && r.resolution.scope.Some? &&
          r.resolution.scope.value in g.scopes {
        var k :| 0 <= k < |rs| && rs[k] == r;
        GatheredScopes(rs, r.resolution.scope.value);
      }
      var first := rs[0];
      assert first in rs;
      var s := first.resolution.scope.value;
      if forall r :: r in rs ==> r.resolution.scope == Some(s) {
        forall t ensures t in g.scopes <==> t == s { GatheredScopes(rs, t); }
        assert g.scopes == {s};
      }
      if |g.scopes| == 1 { Singleton(g.scopes, s); }
    }
  }

  /** Hence the period incompatibility cannot be raised, whatever resources the periods propose. */
  lemma NoIncompatibility(dir: Directory, line: Line, proposals: seq<Option<string>>)
    requires proposals != [] && !ProposalDecides(dir, line)
    ensures !RouteProposals(dir, line, proposals).PeriodsIncompatible?
  {
    var rs := Resolutions(dir, line, proposals);
    IncompatibleExactly(dir, rs);
    forall r, t | r in rs && t in rs && r.resolution.diagnostic.None? && t.resolution.diagnostic.None?
      ensures r.resolution.scope == t.resolution.scope
    {
      var j :| 0 <= j < |rs| && rs[j] == r;
      var k :| 0 <= k < |rs| && rs[k] == t;
      SameScopeForAllProposals(dir, line, proposals[j], proposals[k]);
    }
  }

  function TwoClassDirectory(): Directory {
    Directory(map[], map[], map["r1" := Resource(true, Some("A")), "r2" := Resource(true, Some("B"))],
              map["A" := true, "B" := true], map["A" := [Scope("sa", true)], "B" := [Scope("sb", true)]],
              map[], map[], map[], map["sa" := ["u"], "sb" := ["u"]], map[], map[], map["u" := User(true, true)])
  }

  lemma OneScope(dir: Directory, s: Scope)
    requires s.active && "u" in ListOf(dir.scopeApprovers, s.id) && Eligible(dir, "u")
    ensures ResolveScope(dir, Preferred([s]), [], ProposedResource).scope == Some(s.id)
    ensures ResolveScope(dir, Preferred([s]), [], ProposedResource).diagnostic.None?
  {
    assert ActiveOnly([s]) == [s] + ActiveOnly([s][1..]);
    assert "u" in EligibleApprovers(dir, ListOf(dir.scopeApprovers, s.id), [], ProposedResource);
  }

  /** The condition cannot be dropped: without class and task scope, two resources of different classes
      lead one line to two scopes. */
  lemma ProposalsCanDisagree(line: Line, proposals: seq<Option<string>>)
    requires line == Line(true, "WORKFORCE", None, None, None, None) && proposals == [Some("r1"), Some("r2")]
    ensures ProposalDecides(TwoClassDirectory(), line) &&
            RouteProposals(TwoClassDirectory(), line, proposals).PeriodsIncompatible?
  {
    var dir := TwoClassDirectory();
    OneScope(dir, Scope("sa", true));
    OneScope(dir, Scope("sb", true));
    assert UpperAscii("WORKFORCE")[0] == 'W';
    var rs := Resolutions(dir, line, proposals);
    assert rs[0].resolution.scope == Some("sa") && rs[1].resolution.scope == Some("sb");
    assert rs[0] in rs && rs[1] in rs;
    IncompatibleExactly(dir, rs);
  }
}
