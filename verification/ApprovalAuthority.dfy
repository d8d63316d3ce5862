/** Who has authority over a request line, in terms of the directory alone: when a line resolves, to which scope, and
    who may approve it (app/application/approval_scopes.py, app/domain/approval_routing.py and
    app/application/approval_cycles.py). The results say that the routing of a line succeeds exactly then, with exactly
    these approvers. */
module ApprovalAuthority {
  import opened Options
  import opened ApprovalRouting

  // ---------------------------------------------------------------- scopes and users

  /** The only active scope of a list. */
  ghost predicate OnlyActive(scopes: seq<Scope>, k: nat) {
    k < |scopes| && scopes[k].active && forall j :: 0 <= j < |scopes| && j != k ==> !scopes[j].active
  }

  lemma {:induction false} NoneActive(scopes: seq<Scope>)
    requires forall j :: 0 <= j < |scopes| ==> !scopes[j].active
    ensures ActiveOnly(scopes) == []
  {
    if scopes != [] { NoneActive(scopes[1..]); }
  }

  lemma {:induction false} OnlyActiveRemains(scopes: seq<Scope>, k: nat)
    requires OnlyActive(scopes, k)
    ensures ActiveOnly(scopes) == [scopes[k]]
  {
    if k == 0 {
      NoneActive(scopes[1..]);
    } else {
      OnlyActiveRemains(scopes[1..], k - 1);
    }
  }

  lemma {:induction false} RemainingIsOnlyActive(scopes: seq<Scope>) returns (k: nat)
    requires |ActiveOnly(scopes)| == 1
    ensures OnlyActive(scopes, k) && ActiveOnly(scopes) == [scopes[k]]
  {
    if scopes[0].active {
      k := 0;
      ActiveOnesRemain(scopes[1..]);
      forall j | 1 <= j < |scopes| ensures !scopes[j].active {
        assert scopes[j] == scopes[1..][j - 1] && scopes[j] in scopes[1..];
      }
    } else {
      var i := RemainingIsOnlyActive(scopes[1..]);
      k := i + 1;
      assert forall j :: 1 <= j < |scopes| ==> scopes[j] == scopes[1..][j - 1];
    }
  }

  /** The scope that a list of candidates names. */
  ghost predicate Names(scopes: seq<Scope>, scope: string) {
    exists k: nat :: OnlyActive(scopes, k) && scopes[k].id == scope
  }

  /** An active user with the permission, listed for the scope or among the others. */
  predicate Approves(dir: Directory, scope: string, others: seq<string>, u: string) {
    && u != "" && u in dir.users && dir.users[u].active && dir.users[u].mayApprove
    && ((scope in dir.scopeApprovers && u in dir.scopeApprovers[scope]) || u in others)
  }

  /** Candidates give a scope and approvers. */
  ghost predicate Gives(dir: Directory, scopes: seq<Scope>, others: seq<string>, scope: string) {
    Names(scopes, scope) && exists u :: Approves(dir, scope, others, u)
  }

  /** Exactly the approvers, each with what makes him one. */
  ghost predicate ApprovedBy(dir: Directory, r: Resolution, scope: string, others: seq<string>, other: Source) {
    && (forall u :: u in r.approvers <==> Approves(dir, scope, others, u))
    && (forall u :: u in r.approvers ==>
         && (forall s :: s in r.approvers[u] ==> s == ApprovalScope || s == other)
         && (ApprovalScope in r.approvers[u] <==> scope in dir.scopeApprovers && u in dir.scopeApprovers[scope])
         && (other in r.approvers[u] <==> u in others))
  }

  lemma ResolvedScopeIsGiven(dir: Directory, scopes: seq<Scope>, others: seq<string>, other: Source, scope: string)
    requires other == ProposedResource || other == ProposedAsset
    requires var r := ResolveScope(dir, Preferred(scopes), others, other); r.diagnostic.None? && r.scope == Some(scope)
    ensures Gives(dir, scopes, others, scope)
    ensures ApprovedBy(dir, ResolveScope(dir, Preferred(scopes), others, other), scope, others, other)
  {
    var r := ResolveScope(dir, Preferred(scopes), others, other);
    ResolvedByOnlyActive(dir, scopes, others, other);
    var k := RemainingIsOnlyActive(scopes);
    assert OnlyActive(scopes, k) && scopes[k].id == scope;
    var u :| u in r.approvers;
    assert Approves(dir, scope, others, u);
  }

  lemma GivenScopeIsResolved(dir: Directory, scopes: seq<Scope>, others: seq<string>, other: Source, scope: string)
    requires other == ProposedResource || other == ProposedAsset
    requires Gives(dir, scopes, others, scope)
    ensures var r := ResolveScope(dir, Preferred(scopes), others, other); r.diagnostic.None? && r.scope == Some(scope)
  {
    var k: nat :| OnlyActive(scopes, k) && scopes[k].id == scope;
    OnlyActiveRemains(scopes, k);
    var u :| Approves(dir, scope, others, u);
    assert u in EligibleApprovers(dir, ListOf(dir.scopeApprovers, scope), others, other);
  }

  lemma ScopeResolvesExactly(dir: Directory, scopes: seq<Scope>, others: seq<string>, other: Source, scope: string)
    requires other == ProposedResource || other == ProposedAsset
    ensures var r := ResolveScope(dir, Preferred(scopes), others, other);
            && (r.diagnostic.None? && r.scope == Some(scope) <==> Gives(dir, scopes, others, scope))
            && (r.diagnostic.None? && r.scope == Some(scope) ==> ApprovedBy(dir, r, scope, others, other))
  {
    var r := ResolveScope(dir, Preferred(scopes), others, other);
    if r.diagnostic.None? && r.scope == Some(scope) { ResolvedScopeIsGiven(dir, scopes, others, other, scope); }
    if Gives(dir, scopes, others, scope) { GivenScopeIsResolved(dir, scopes, others, other, scope); }
  }

  // ---------------------------------------------------------------- workforce lines

  /** A known, active class gives its scopes. */
  predicate ClassGives(dir: Directory, code: Option<string>, scopes: seq<Scope>) {
    && code.Some? && code.value in dir.classes && dir.classes[code.value]
    && scopes == if code.value in dir.classScopes then dir.classScopes[code.value] else []
  }

  /** The task a line names is known and active. */
  predicate TaskUsable(dir: Directory, line: Line) {
    line.task.Some? ==> line.task.value in dir.tasks && dir.tasks[line.task.value].active
  }

  predicate TaskHasScopes(dir: Directory, line: Line) {
    line.task.Some? && line.task.value in dir.taskScopes && dir.taskScopes[line.task.value] != []
  }

  predicate ResourceUsable(dir: Directory, proposed: Option<string>) {
    proposed.Some? && proposed.value in dir.resources && dir.resources[proposed.value].active
  }

  /** Whose scopes decide: those of the required class; else those of the task, if it has any; else those of the class
      of the proposed resource, which must be usable; else, without a proposal or with one that has no class, those of
      the class of the task. */
  ghost predicate Decides(dir: Directory, line: Line, proposed: Option<string>, scopes: seq<Scope>) {
    if line.requiredClass.Some? then ClassGives(dir, line.requiredClass, scopes)
    else if TaskHasScopes(dir, line) then scopes == dir.taskScopes[line.task.value]
    else if proposed.Some? && ResourceUsable(dir, proposed) && dir.resources[proposed.value].classCode.Some?
    then ClassGives(dir, dir.resources[proposed.value].classCode, scopes)
    else
      && (proposed.Some? ==> ResourceUsable(dir, proposed))
      && line.task.Some? && line.task.value in dir.tasks &&
           ClassGives(dir, dir.tasks[line.task.value].classCode, scopes)
  }

  function ResourceApprovers(dir: Directory, proposed: Option<string>): seq<string> {
    if proposed.Some? && proposed.value in dir.resourceApprovers then dir.resourceApprovers[proposed.value] else []
  }

  ghost predicate WorkforceResolves(dir: Directory, line: Line, proposed: Option<string>, scope: string) {
    && line.active && TaskUsable(dir, line)
    && exists scopes :: Decides(dir, line, proposed, scopes) &&
         Gives(dir, scopes, ResourceApprovers(dir, proposed), scope)
  }

  lemma ChoiceDecides(dir: Directory, line: Line, proposed: Option<string>, scopes: seq<Scope>)
    requires line.active && TaskUsable(dir, line)
    ensures Decides(dir, line, proposed, scopes) ==> ChooseScopes(dir, line, proposed) == Candidates(Preferred(scopes))
    ensures ChooseScopes(dir, line, proposed).Candidates? ==>
              exists decided :: Decides(dir, line, proposed, decided) &&
                ChooseScopes(dir, line, proposed) == Candidates(Preferred(decided))
  {
    if ChooseScopes(dir, line, proposed).Candidates? {
      var decided := if line.requiredClass.None? && TaskHasScopes(dir, line) then dir.taskScopes[line.task.value]
          else ListOf(dir.classScopes, EffectiveClass(dir, line, proposed).1.value);
      assert Decides(dir, line, proposed, decided);
    }
  }

  /** A workforce line resolves to a scope if and only if it is active, its task usable, and the scopes that decide name
      it and have an approver; the approvers are then exactly those of the scope and of the proposed resource. */
  lemma WorkforceResolvesExactly(dir: Directory, line: Line, proposed: Option<string>, scope: string)
    requires !IsAssetLine(line)
    ensures var r := ResolveLine(dir, line, proposed).resolution;
            && (r.diagnostic.None? && r.scope == Some(scope) <==> WorkforceResolves(dir, line, proposed, scope))
            && (r.diagnostic.None? && r.scope == Some(scope) ==>
                 ApprovedBy(dir, r, scope, ResourceApprovers(dir, proposed), ProposedResource))
  {
    var r, others := ResolveLine(dir, line, proposed).resolution, ResourceApprovers(dir, proposed);
    if line.active && TaskUsable(dir, line) {
      ChoiceDecides(dir, line, proposed, []);
      if ChooseScopes(dir, line, proposed).Candidates? {
        var decided :| Decides(dir, line, proposed, decided) &&
          ChooseScopes(dir, line, proposed) == Candidates(Preferred(decided));
        ScopeResolvesExactly(dir, decided, others, ProposedResource, scope);
      }
      forall scopes | Decides(dir, line, proposed, scopes) && Gives(dir, scopes, others, scope)
        ensures r.diagnostic.None? && r.scope == Some(scope)
      {
        ChoiceDecides(dir, line, proposed, scopes);
        ScopeResolvesExactly(dir, scopes, others, ProposedResource, scope);
      }
    }
  }

  // ---------------------------------------------------------------- asset lines

  function AssetApprovers(dir: Directory, line: Line): seq<string> {
    if line.proposedAsset.Some? && line.proposedAsset.value in dir.assetApprovers
    then dir.assetApprovers[line.proposedAsset.value] else []
  }

  /** The asset a line proposes is known, active and of the type of the line. */
  predicate AssetUsable(dir: Directory, line: Line)
    requires line.assetType.Some?
  {
    line.proposedAsset.Some? ==>
      && line.proposedAsset.value in dir.assets && dir.assets[line.proposedAsset.value].active
      && dir.assets[line.proposedAsset.value].typeId == line.assetType.value
  }

  function TypeScopes(dir: Directory, line: Line): seq<Scope>
    requires line.assetType.Some?
  {
    if line.assetType.value in dir.assetTypeScopes then dir.assetTypeScopes[line.assetType.value] else []
  }

  predicate TypeUsable(dir: Directory, line: Line) {
    line.assetType.Some? && line.assetType.value in dir.assetTypes && dir.assetTypes[line.assetType.value]
  }

  /** The scopes of the type decide. */
  ghost predicate AssetResolves(dir: Directory, line: Line, scope: string) {
    && line.active && TypeUsable(dir, line) && AssetUsable(dir, line)
    && Gives(dir, TypeScopes(dir, line), AssetApprovers(dir, line), scope)
  }

  lemma AssetCandidates(dir: Directory, line: Line, proposed: Option<string>)
    requires IsAssetLine(line)
    ensures var r := ResolveLine(dir, line, proposed).resolution;
            if line.active && TypeUsable(dir, line) && AssetUsable(dir, line)
            then r == ResolveScope(dir, Preferred(TypeScopes(dir, line)), AssetApprovers(dir, line), ProposedAsset)
            else r.diagnostic.Some?
  {
  }

  /** An asset line resolves to a scope if and only if it is active, its type and its proposed asset usable, and the
      scopes of the type name it and have an approver. */
  lemma AssetResolvesExactly(dir: Directory, line: Line, proposed: Option<string>, scope: string)
    requires IsAssetLine(line)
    ensures var r := ResolveLine(dir, line, proposed).resolution;
            && (r.diagnostic.None? && r.scope == Some(scope) <==> AssetResolves(dir, line, scope))
            && (r.diagnostic.None? && r.scope == Some(scope) ==>
                 ApprovedBy(dir, r, scope, AssetApprovers(dir, line), ProposedAsset))
  {
    AssetCandidates(dir, line, proposed);
    if TypeUsable(dir, line) {
      ScopeResolvesExactly(dir, TypeScopes(dir, line), AssetApprovers(dir, line), ProposedAsset, scope);
    }
  }

  // ---------------------------------------------------------------- why a line is blocked

  /** The class that decides, where the required class or that of a resource or a task does. */
  ghost predicate ClassDecides(dir: Directory, line: Line, proposed: Option<string>, code: Option<string>) {
    if line.requiredClass.Some? then code == line.requiredClass
    else
      && !TaskHasScopes(dir, line)
      && if ResourceUsable(dir, proposed) && dir.resources[proposed.value].classCode.Some?
         then code == dir.resources[proposed.value].classCode
         else
           && (proposed.Some? ==> ResourceUsable(dir, proposed)) && line.task.Some? && line.task.value in dir.tasks
           && code == dir.tasks[line.task.value].classCode
  }

  /** What is wrong with a list of candidates. */
  ghost predicate CandidatesFail(dir: Directory, scopes: seq<Scope>, others: seq<string>, d: Diagnostic) {
    match d
    case ScopeUnmapped => scopes == []
    case ScopeAmbiguous => |scopes| > 1 && forall k: nat :: !OnlyActive(scopes, k)
    case ScopeInactive => |scopes| == 1 && !scopes[0].active
    case NoEligibleApprover => exists scope :: Names(scopes, scope) && forall u :: !Approves(dir, scope, others, u)
    case _ => false
  }

  lemma CandidatesFailExactly(dir: Directory, scopes: seq<Scope>, others: seq<string>, other: Source, d: Diagnostic)
    requires other == ProposedResource || other == ProposedAsset
    requires ResolveScope(dir, Preferred(scopes), others, other).diagnostic == Some(d)
    ensures CandidatesFail(dir, scopes, others, d)
  {
    if d == NoEligibleApprover {
      NobodyApproves(dir, scopes, others, other);
    } else if d == ScopeAmbiguous {
      ManyAreAmbiguous(scopes);
    } else if d == ScopeInactive {
      InactiveIsAlone(scopes);
    }
  }

  lemma {:induction false} ActiveAreFewer(scopes: seq<Scope>)
    ensures |ActiveOnly(scopes)| <= |scopes|
  {
    if scopes != [] { ActiveAreFewer(scopes[1..]); }
  }

  lemma ManyAreAmbiguous(scopes: seq<Scope>)
    requires |Preferred(scopes)| > 1
    ensures |scopes| > 1 && forall k: nat :: !OnlyActive(scopes, k)
  {
    ActiveAreFewer(scopes);
    forall k: nat ensures !OnlyActive(scopes, k) {
      if OnlyActive(scopes, k) { OnlyActiveRemains(scopes, k); }
    }
  }

  lemma InactiveIsAlone(scopes: seq<Scope>)
    requires |Preferred(scopes)| == 1 && !Preferred(scopes)[0].active
    ensures |scopes| == 1 && !scopes[0].active
  {
    ActiveOnesRemain(scopes);
    assert forall k :: 0 <= k < |ActiveOnly(scopes)| ==> ActiveOnly(scopes)[k] in ActiveOnly(scopes);
  }

  lemma NobodyApproves(dir: Directory, scopes: seq<Scope>, others: seq<string>, other: Source)
    requires other == ProposedResource || other == ProposedAsset
    requires ResolveScope(dir, Preferred(scopes), others, other).diagnostic == Some(NoEligibleApprover)
    ensures CandidatesFail(dir, scopes, others, NoEligibleApprover)
  {
    ActiveOnesRemain(scopes);
    var chosen := Preferred(scopes);
    assert chosen[0] in chosen && chosen[0] in ActiveOnly(scopes);
    var k := RemainingIsOnlyActive(scopes);
    var scope := scopes[k].id;
    assert Names(scopes, scope);
    forall u ensures !Approves(dir, scope, others, u) {
      assert u !in EligibleApprovers(dir, ListOf(dir.scopeApprovers, scope), others, other);
    }
  }

  /** Each diagnostic of a blocked workforce line is true of it. */
  lemma WorkforceDiagnosticIsTrue(dir: Directory, line: Line, proposed: Option<string>)
    requires !IsAssetLine(line) && ResolveLine(dir, line, proposed).resolution.diagnostic.Some?
    ensures var d := ResolveLine(dir, line, proposed).resolution.diagnostic.value;
            match d
            case LineInactive => !line.active
            case TaskNotFound => line.active && line.task.Some? && line.task.value !in dir.tasks
            case TaskInactive =>
              line.active && line.task.Some? && line.task.value in dir.tasks && !dir.tasks[line.task.value].active
            case ProposedResourceUnknown =>
              line.requiredClass.None? && !TaskHasScopes(dir, line) && proposed.Some? &&
                  proposed.value !in dir.resources
            case ProposedResourceInactive =>
              && line.requiredClass.None? && !TaskHasScopes(dir, line) && proposed.Some?
              && proposed.value in dir.resources && !dir.resources[proposed.value].active
            case RoutingSourceMissing => line.requiredClass.None? && line.task.None? && proposed.None?
            case ResourceClassMissing =>
              || ClassDecides(dir, line, proposed, None)
              || (&& line.requiredClass.None? && line.task.None? && ResourceUsable(dir, proposed)
                  && dir.resources[proposed.value].classCode.None?)
            case ResourceClassNotFound =>
              exists code :: ClassDecides(dir, line, proposed, Some(code)) && code !in dir.classes
            case ResourceClassInactive =>
              exists code :: ClassDecides(dir, line, proposed, Some(code)) && code in dir.classes && !dir.classes[code]
            case _ =>
              exists scopes :: Decides(dir, line, proposed, scopes) &&
                CandidatesFail(dir, scopes, ResourceApprovers(dir, proposed), d)
  {
    var d := ResolveLine(dir, line, proposed).resolution.diagnostic.value;
    if line.active && TaskUsable(dir, line) {
      ChoiceDecides(dir, line, proposed, []);
      if ChooseScopes(dir, line, proposed).Candidates? {
        var decided :| Decides(dir, line, proposed, decided) &&
          ChooseScopes(dir, line, proposed) == Candidates(Preferred(decided));
        CandidatesFailExactly(dir, decided, ResourceApprovers(dir, proposed), ProposedResource, d);
      } else if d == ResourceClassNotFound || d == ResourceClassInactive {
        assert ClassDecides(dir, line, proposed, Some(EffectiveClass(dir, line, proposed).1.value));
      }
    }
  }

  /** And so is each of a blocked asset line. */
  lemma AssetDiagnosticIsTrue(dir: Directory, line: Line, proposed: Option<string>)
    requires IsAssetLine(line) && ResolveLine(dir, line, proposed).resolution.diagnostic.Some?
    ensures var d := ResolveLine(dir, line, proposed).resolution.diagnostic.value;
            match d
            case LineInactive => !line.active
            case AssetTypeUnknown => line.assetType.None? || line.assetType.value !in dir.assetTypes
            case AssetTypeInactive =>
              line.assetType.Some? && line.assetType.value in dir.assetTypes && !dir.assetTypes[line.assetType.value]
            case ProposedAssetUnknown => line.proposedAsset.Some? && line.proposedAsset.value !in dir.assets
            case ProposedAssetInactive =>
              && line.proposedAsset.Some? && line.proposedAsset.value in dir.assets
              && !dir.assets[line.proposedAsset.value].active
            case ProposedAssetTypeMismatch =>
              && line.proposedAsset.Some? && line.proposedAsset.value in dir.assets
              && Some(dir.assets[line.proposedAsset.value].typeId) != line.assetType
            case _ =>
              && line.assetType.Some?
              && CandidatesFail(dir, TypeScopes(dir, line), AssetApprovers(dir, line), d)
  {
    var d := ResolveLine(dir, line, proposed).resolution.diagnostic.value;
    AssetCandidates(dir, line, proposed);
    if line.active && TypeUsable(dir, line) && AssetUsable(dir, line) {
      CandidatesFailExactly(dir, TypeScopes(dir, line), AssetApprovers(dir, line), ProposedAsset, d);
    }
  }

  // ---------------------------------------------------------------- lines and their proposals

  /** The kind of an asset line, in any case. */
  predicate AssetKind(kind: string) {
    && |kind| == 5 && (kind[0] == 'A' || kind[0] == 'a') && (kind[1] == 'S' || kind[1] == 's')
    && (kind[2] == 'S' || kind[2] == 's') && (kind[3] == 'E' || kind[3] == 'e') && (kind[4] == 'T' || kind[4] == 't')
  }

  lemma AssetKindExactly(line: Line)
    ensures IsAssetLine(line) <==> AssetKind(line.kind)
  {
    var k, asset := UpperAscii(line.kind), "ASSET";
    assert asset[0] == 'A' && asset[1] == 'S' && asset[2] == 'S' && asset[3] == 'E' && asset[4] == 'T';
    if |line.kind| == 5 {
      assert k == asset <==> k[0] == 'A' && k[1] == 'S' && k[2] == 'S' && k[3] == 'E' && k[4] == 'T' by {
        if k[0] == 'A' && k[1] == 'S' && k[2] == 'S' && k[3] == 'E' && k[4] == 'T' {
          assert forall i :: 0 <= i < 5 ==> k[i] == asset[i];
        }
      }
    }
  }

  ghost predicate Resolves(dir: Directory, line: Line, proposed: Option<string>, scope: string) {
    if AssetKind(line.kind) then AssetResolves(dir, line, scope) else WorkforceResolves(dir, line, proposed, scope)
  }

  /** Who may approve besides the users of the scope. */
  function Others(dir: Directory, line: Line, proposed: Option<string>): seq<string> {
    if AssetKind(line.kind) then AssetApprovers(dir, line) else ResourceApprovers(dir, proposed)
  }

  lemma ResolvesExactly(dir: Directory, line: Line, proposed: Option<string>, scope: string)
    ensures var r := ResolveLine(dir, line, proposed).resolution;
            && (r.diagnostic.None? && r.scope == Some(scope) <==> Resolves(dir, line, proposed, scope))
            && (r.diagnostic.None? && r.scope == Some(scope) ==>
                 ApprovedBy(dir, r, scope, Others(dir, line, proposed),
                            if AssetKind(line.kind) then ProposedAsset else ProposedResource))
  {
    AssetKindExactly(line);
    if AssetKind(line.kind) {
      AssetResolvesExactly(dir, line, proposed, scope);
    } else {
      WorkforceResolvesExactly(dir, line, proposed, scope);
    }
  }

  /** A line is routed to a scope if every proposal resolves to it. */
  ghost predicate RoutedTo(dir: Directory, line: Line, proposals: seq<Option<string>>, scope: string) {
    proposals != [] && forall p :: p in proposals ==> Resolves(dir, line, p, scope)
  }

  /** The frozen approvers: whoever may approve some proposal, with all that makes him an approver. */
  ghost predicate FrozenApprovers(dir: Directory, line: Line, proposals: seq<Option<string>>, scope: string,
      approvers: map<string, set<Source>>)
  {
    var other := if AssetKind(line.kind) then ProposedAsset else ProposedResource;
    && (forall u :: u in approvers <==> exists p :: p in proposals && Approves(dir, scope, Others(dir, line, p), u))
    && (forall u :: u in approvers ==>
         && (forall s :: s in approvers[u] ==> s == ApprovalScope || s == other)
         && (ApprovalScope in approvers[u] <==> scope in dir.scopeApprovers && u in dir.scopeApprovers[scope])
         && (other in approvers[u] <==> exists p :: p in proposals && u in Others(dir, line, p)))
  }

  /** What routed a workforce line: its required class, or the class of a proposed resource where that decides. */
  ghost predicate RoutedBy(dir: Directory, line: Line, proposals: seq<Option<string>>, sources: set<Source>) {
    && (forall s :: s in sources ==> s == RequiredResourceClass || s == ProposedResourceClass)
    && (RequiredResourceClass in sources <==> !AssetKind(line.kind) && line.requiredClass.Some?)
    && (ProposedResourceClass in sources <==>
         && !AssetKind(line.kind) && line.requiredClass.None? && !TaskHasScopes(dir, line)
         && exists p :: p in proposals && p.Some?)
  }

  lemma {:induction false} GatheredSources(rs: seq<Resolved>, u: string, source: Source)
    requires u in Gather(rs).approvers
    ensures source in Gather(rs).approvers[u] <==>
              exists i :: 0 <= i < |rs| && u in rs[i].resolution.approvers && source in rs[i].resolution.approvers[u]
  {
    var before, last := rs[..|rs| - 1], rs[|rs| - 1].resolution.approvers;
    GatheredApprovers(before, u);
    if u in Gather(before).approvers {
      GatheredSources(before, u, source);
    } else {
      assert forall i :: 0 <= i < |before| ==> u !in before[i].resolution.approvers;
    }
    assert source in Gather(rs).approvers[u] <==>
        (u in Gather(before).approvers && source in Gather(before).approvers[u]) || (u in last && source in last[u]);
  }

  lemma {:induction false} GatheredRouting(rs: seq<Resolved>, source: Source)
    ensures source in Gather(rs).sources <==> exists i :: 0 <= i < |rs| && source in rs[i].sources
  {
    if rs != [] { GatheredRouting(rs[..|rs| - 1], source); }
  }

  /** What an accepted routing brings together. */
  ghost predicate Joins(dir: Directory, line: Line, proposals: seq<Option<string>>, routed: Routed) {
    && RoutedTo(dir, line, proposals, routed.scope)
    && FrozenApprovers(dir, line, proposals, routed.scope, routed.approvers)
    && RoutedBy(dir, line, proposals, routed.sources)
  }

  function OtherSource(line: Line): Source {
    if AssetKind(line.kind) then ProposedAsset else ProposedResource
  }

  ghost predicate EachApproved(dir: Directory, line: Line, proposals: seq<Option<string>>, rs: seq<Resolved>,
      scope: string)
  {
    && proposals != [] && |rs| == |proposals|
    && forall i :: 0 <= i < |rs| ==>
         ApprovedBy(dir, rs[i].resolution, scope, Others(dir, line, proposals[i]), OtherSource(line))
  }

  lemma JoinedApprover(dir: Directory, line: Line, proposals: seq<Option<string>>, rs: seq<Resolved>, scope: string,
      u: string)
    requires EachApproved(dir, line, proposals, rs, scope)
    ensures u in Gather(rs).approvers <==>
              exists p :: p in proposals && Approves(dir, scope, Others(dir, line, p), u)
  {
    GatheredApprovers(rs, u);
    if i :| 0 <= i < |rs| && u in rs[i].resolution.approvers {
      assert ApprovedBy(dir, rs[i].resolution, scope, Others(dir, line, proposals[i]), OtherSource(line));
      assert proposals[i] in proposals;
    }
    if p :| p in proposals && Approves(dir, scope, Others(dir, line, p), u) {
      var i :| 0 <= i < |proposals| && proposals[i] == p;
      assert ApprovedBy(dir, rs[i].resolution, scope, Others(dir, line, proposals[i]), OtherSource(line));
    }
  }

  lemma JoinedKind(dir: Directory, line: Line, proposals: seq<Option<string>>, rs: seq<Resolved>, scope: string,
      u: string, s: Source)
    requires EachApproved(dir, line, proposals, rs, scope) && u in Gather(rs).approvers
    requires s in Gather(rs).approvers[u]
    ensures s == ApprovalScope || s == OtherSource(line)
  {
    GatheredSources(rs, u, s);
    var i :| 0 <= i < |rs| && u in rs[i].resolution.approvers && s in rs[i].resolution.approvers[u];
    assert ApprovedBy(dir, rs[i].resolution, scope, Others(dir, line, proposals[i]), OtherSource(line));
  }

  lemma JoinedScope(dir: Directory, line: Line, proposals: seq<Option<string>>, rs: seq<Resolved>, scope: string,
      u: string)
    requires EachApproved(dir, line, proposals, rs, scope) && u in Gather(rs).approvers
    ensures ApprovalScope in Gather(rs).approvers[u] <==> scope in dir.scopeApprovers && u in dir.scopeApprovers[scope]
  {
    GatheredApprovers(rs, u);
    GatheredSources(rs, u, ApprovalScope);
    var k :| 0 <= k < |rs| && u in rs[k].resolution.approvers;
    assert ApprovedBy(dir, rs[k].resolution, scope, Others(dir, line, proposals[k]), OtherSource(line));
    forall i | 0 <= i < |rs| && u in rs[i].resolution.approvers
      ensures ApprovalScope in rs[i].resolution.approvers[u] <==>
                scope in dir.scopeApprovers && u in dir.scopeApprovers[scope]
    {
      assert ApprovedBy(dir, rs[i].resolution, scope, Others(dir, line, proposals[i]), OtherSource(line));
    }
  }

  lemma JoinedOther(dir: Directory, line: Line, proposals: seq<Option<string>>, rs: seq<Resolved>, scope: string,
      u: string)
    requires EachApproved(dir, line, proposals, rs, scope) && u in Gather(rs).approvers
    ensures OtherSource(line) in Gather(rs).approvers[u] <==>
              exists p :: p in proposals && u in Others(dir, line, p)
  {
    GatheredSources(rs, u, OtherSource(line));
    if i :| 0 <= i < |rs| && u in rs[i].resolution.approvers && OtherSource(line) in rs[i].resolution.approvers[u] {
      assert ApprovedBy(dir, rs[i].resolution, scope, Others(dir, line, proposals[i]), OtherSource(line));
      assert proposals[i] in proposals;
    }
    if p :| p in proposals && u in Others(dir, line, p) {
      JoinedApprover(dir, line, proposals, rs, scope, u);
      var i :| 0 <= i < |proposals| && proposals[i] == p;
      assert Approves(dir, scope, Others(dir, line, p), u);
      assert ApprovedBy(dir, rs[i].resolution, scope, Others(dir, line, proposals[i]), OtherSource(line));
    }
  }

  lemma JoinedFrozen(dir: Directory, line: Line, proposals: seq<Option<string>>, rs: seq<Resolved>, scope: string)
    requires EachApproved(dir, line, proposals, rs, scope)
    ensures FrozenApprovers(dir, line, proposals, scope, Gather(rs).approvers)
  {
    forall u
      ensures u in Gather(rs).approvers <==>
                exists p :: p in proposals && Approves(dir, scope, Others(dir, line, p), u)
    {
      JoinedApprover(dir, line, proposals, rs, scope, u);
    }
    forall u | u in Gather(rs).approvers
      ensures forall s :: s in Gather(rs).approvers[u] ==> s == ApprovalScope || s == OtherSource(line)
      ensures ApprovalScope in Gather(rs).approvers[u] <==>
                scope in dir.scopeApprovers && u in dir.scopeApprovers[scope]
      ensures OtherSource(line) in Gather(rs).approvers[u] <==>
                exists p :: p in proposals && u in Others(dir, line, p)
    {
      forall s | s in Gather(rs).approvers[u] ensures s == ApprovalScope || s == OtherSource(line) {
        JoinedKind(dir, line, proposals, rs, scope, u, s);
      }
      JoinedScope(dir, line, proposals, rs, scope, u);
      JoinedOther(dir, line, proposals, rs, scope, u);
    }
  }

  lemma AcceptedResolves(dir: Directory, line: Line, proposals: seq<Option<string>>, scope: string)
    requires proposals != []
    requires RouteProposals(dir, line, proposals).Accepted? &&
             RouteProposals(dir, line, proposals).routed.scope == scope
    ensures RoutedTo(dir, line, proposals, scope)
    ensures EachApproved(dir, line, proposals, Resolutions(dir, line, proposals), scope)
  {
    var rs := Resolutions(dir, line, proposals);
    forall i | 0 <= i < |rs|
      ensures Resolves(dir, line, proposals[i], scope)
      ensures ApprovedBy(dir, rs[i].resolution, scope, Others(dir, line, proposals[i]), OtherSource(line))
    {
      AcceptedScope(rs, i);
      ResolvesExactly(dir, line, proposals[i], scope);
    }
  }

  lemma OneScopeIsAccepted(rs: seq<Resolved>, scope: string)
    requires rs != []
    requires forall i :: 0 <= i < |rs| ==>
             rs[i].resolution.diagnostic.None? && rs[i].resolution.scope == Some(scope)
    ensures Combine(rs).Accepted? && Combine(rs).routed.scope == scope
  {
    forall s ensures s in Gather(rs).scopes <==> s == scope {
      GatheredScopes(rs, s);
      assert rs[0] in rs;
    }
    assert Gather(rs).scopes == {scope};
    CombineAccepted(rs, scope);
  }

  lemma ResolvedIsAccepted(dir: Directory, line: Line, proposals: seq<Option<string>>, scope: string)
    requires RoutedTo(dir, line, proposals, scope)
    ensures var outcome := RouteProposals(dir, line, proposals); outcome.Accepted? && outcome.routed.scope == scope
  {
    var rs := Resolutions(dir, line, proposals);
    forall i | 0 <= i < |rs|
      ensures rs[i].resolution.diagnostic.None? && rs[i].resolution.scope == Some(scope)
    {
      assert proposals[i] in proposals;
      ResolvesExactly(dir, line, proposals[i], scope);
    }
    OneScopeIsAccepted(rs, scope);
  }

  /** What a proposal adds to the sources. */
  ghost predicate Adds(dir: Directory, line: Line, p: Option<string>, sources: set<Source>) {
    && (forall s :: s in sources ==> s == RequiredResourceClass || s == ProposedResourceClass)
    && (RequiredResourceClass in sources <==> !AssetKind(line.kind) && line.requiredClass.Some?)
    && (ProposedResourceClass in sources <==>
         !AssetKind(line.kind) && line.requiredClass.None? && !TaskHasScopes(dir, line) && p.Some?)
  }

  /** The sources of one resolution that resolves. */
  lemma ResolutionSources(dir: Directory, line: Line, p: Option<string>, scope: string)
    requires Resolves(dir, line, p, scope)
    ensures Adds(dir, line, p, ResolveLine(dir, line, p).sources)
  {
    AssetKindExactly(line);
  }

  lemma JoinedKinds(rs: seq<Resolved>)
    requires forall i, s :: 0 <= i < |rs| && s in rs[i].sources ==>
             s == RequiredResourceClass || s == ProposedResourceClass
    ensures forall s :: s in Gather(rs).sources ==> s == RequiredResourceClass || s == ProposedResourceClass
  {
    forall s | s in Gather(rs).sources ensures s == RequiredResourceClass || s == ProposedResourceClass {
      GatheredRouting(rs, s);
    }
  }

  lemma RequiredJoins(dir: Directory, line: Line, proposals: seq<Option<string>>, rs: seq<Resolved>)
    requires proposals != [] && |rs| == |proposals|
    requires forall i :: 0 <= i < |rs| ==> Adds(dir, line, proposals[i], rs[i].sources)
    ensures RequiredResourceClass in Gather(rs).sources <==> !AssetKind(line.kind) && line.requiredClass.Some?
  {
    GatheredRouting(rs, RequiredResourceClass);
    assert Adds(dir, line, proposals[0], rs[0].sources);
  }

  lemma ProposedJoins(dir: Directory, line: Line, proposals: seq<Option<string>>, rs: seq<Resolved>)
    requires |rs| == |proposals|
    requires forall i :: 0 <= i < |rs| ==> Adds(dir, line, proposals[i], rs[i].sources)
    ensures ProposedResourceClass in Gather(rs).sources <==>
              && !AssetKind(line.kind) && line.requiredClass.None? && !TaskHasScopes(dir, line)
              && exists p :: p in proposals && p.Some?
  {
    GatheredRouting(rs, ProposedResourceClass);
  }

  lemma JoinedRouting(dir: Directory, line: Line, proposals: seq<Option<string>>, rs: seq<Resolved>)
    requires proposals != [] && |rs| == |proposals|
    requires forall i :: 0 <= i < |rs| ==> Adds(dir, line, proposals[i], rs[i].sources)
    ensures RoutedBy(dir, line, proposals, Gather(rs).sources)
  {
    JoinedKinds(rs);
    RequiredJoins(dir, line, proposals, rs);
    ProposedJoins(dir, line, proposals, rs);
  }

  lemma AcceptedSources(dir: Directory, line: Line, proposals: seq<Option<string>>, scope: string)
    requires RoutedTo(dir, line, proposals, scope)
    ensures RoutedBy(dir, line, proposals, Gather(Resolutions(dir, line, proposals)).sources)
  {
    var rs := Resolutions(dir, line, proposals);
    forall i | 0 <= i < |rs| ensures Adds(dir, line, proposals[i], rs[i].sources) {
      assert proposals[i] in proposals;
      ResolutionSources(dir, line, proposals[i], scope);
    }
    JoinedRouting(dir, line, proposals, rs);
  }

  lemma AcceptedJoins(dir: Directory, line: Line, proposals: seq<Option<string>>)
    requires proposals != [] && RouteProposals(dir, line, proposals).Accepted?
    ensures Joins(dir, line, proposals, RouteProposals(dir, line, proposals).routed)
  {
    var rs, routed := Resolutions(dir, line, proposals), RouteProposals(dir, line, proposals).routed;
    AcceptedResolves(dir, line, proposals, routed.scope);
    JoinedFrozen(dir, line, proposals, rs, routed.scope);
    AcceptedSources(dir, line, proposals, routed.scope);
  }

  ghost predicate Unresolved(dir: Directory, line: Line, proposed: Option<string>) {
    forall scope :: !Resolves(dir, line, proposed, scope)
  }

  lemma UnresolvedExactly(dir: Directory, line: Line, proposed: Option<string>)
    ensures Unresolved(dir, line, proposed) <==> ResolveLine(dir, line, proposed).resolution.diagnostic.Some?
  {
    var r := ResolveLine(dir, line, proposed).resolution;
    forall scope ensures r.diagnostic.None? && r.scope == Some(scope) <==> Resolves(dir, line, proposed, scope) {
      ResolvesExactly(dir, line, proposed, scope);
    }
    if r.diagnostic.None? { assert Resolves(dir, line, proposed, r.scope.value); }
  }

  /** The first proposal that resolves to no scope. */
  ghost predicate FirstUnresolved(dir: Directory, line: Line, proposals: seq<Option<string>>, k: nat) {
    && k < |proposals| && Unresolved(dir, line, proposals[k])
    && forall j :: 0 <= j < k ==> !Unresolved(dir, line, proposals[j])
  }

  lemma BlockedExactly(dir: Directory, line: Line, proposals: seq<Option<string>>)
    ensures var outcome := RouteProposals(dir, line, proposals);
            && (outcome.Blocked? ==> FirstUnresolved(dir, line, proposals, outcome.period))
            && ((exists p :: p in proposals && Unresolved(dir, line, p)) ==> outcome.Blocked?)
  {
    var rs := Resolutions(dir, line, proposals);
    forall i | 0 <= i < |rs| ensures Unresolved(dir, line, proposals[i]) <==> rs[i].resolution.diagnostic.Some? {
      UnresolvedExactly(dir, line, proposals[i]);
    }
    if p :| p in proposals && Unresolved(dir, line, p) {
      var i :| 0 <= i < |proposals| && proposals[i] == p;
      assert FirstBlocked(rs) < |rs|;
    }
  }

  /** How the routing of a line ends: it is accepted exactly if all proposals resolve to one scope, blocked at the first
      proposal that resolves to none, and incompatible if all resolve, but not to one scope. */
  ghost predicate RoutingEnds(dir: Directory, line: Line, proposals: seq<Option<string>>, outcome: RoutingOutcome) {
    && (outcome.Accepted? <==> exists scope :: RoutedTo(dir, line, proposals, scope))
    && (outcome.Accepted? ==> Joins(dir, line, proposals, outcome.routed))
    && (outcome.Blocked? <==> exists p :: p in proposals && Unresolved(dir, line, p))
    && (outcome.Blocked? ==> FirstUnresolved(dir, line, proposals, outcome.period))
  }

  lemma RoutingEndsSo(dir: Directory, line: Line, proposals: seq<Option<string>>)
    requires proposals != []
    ensures RoutingEnds(dir, line, proposals, RouteProposals(dir, line, proposals))
  {
    var outcome := RouteProposals(dir, line, proposals);
    if outcome.Accepted? { AcceptedJoins(dir, line, proposals); }
    if scope :| RoutedTo(dir, line, proposals, scope) { ResolvedIsAccepted(dir, line, proposals, scope); }
    BlockedExactly(dir, line, proposals);
    if outcome.Blocked? { assert proposals[outcome.period] in proposals; }
  }
}
